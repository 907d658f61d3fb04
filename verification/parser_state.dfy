/** The parser's stream: an offset, the text still to read, and the errors so far. */
module ParserState {
  import opened FiltersetSyntax

  /** Resetting a checkpoint restores `off` and `rest`; reported errors stay. */
  datatype St = St(off: nat, rest: string, errs: seq<Diagnostic>) {
    function Advance(n: nat): (st: St)
      requires n <= |rest|
      ensures Follows(this, st)
    {
      St(off + n, rest[n..], errs)
    }

    function Report(kind: ErrorKind, span: Span): (st: St)
      ensures Follows(this, st)
    {
      St(off, rest, errs + [Diagnostic(kind, span)])
    }
  }

  /** `b` can be reached from `a`: the end of input stays put, errors only grow. */
  ghost predicate Follows(a: St, b: St) {
    && a.off <= b.off
    && a.off + |a.rest| == b.off + |b.rest|
    && a.errs <= b.errs
  }

  /** Reads on until `stop` or the end of input. */
  function TakeTill(st: St, stop: char): (r: St)
    ensures Follows(st, r) && r.errs == st.errs
    ensures r.rest == "" || r.rest[0] == stop
    decreases |st.rest|
  {
    if st.rest == "" || st.rest[0] == stop then st else TakeTill(st.Advance(1), stop)
  }

  /** Number of characters the next blank takes: a space, LF or CRLF. */
  function BlankLength(s: string): (n: nat)
    ensures n <= |s|
  {
    if s == "" then 0
    else if s[0] == ' ' || s[0] == '\n' then 1
    else if |s| >= 2 && s[0] == '\r' && s[1] == '\n' then 2
    else 0
  }

  function SkipBlanks(st: St): (r: St)
    ensures Follows(st, r) && r.errs == st.errs
    ensures BlankLength(r.rest) == 0
    decreases |st.rest|
  {
    var n := BlankLength(st.rest);
    if n == 0 then st else SkipBlanks(st.Advance(n))
  }

  /** What a parser that may decline returns; declining leaves the stream where it was. */
  datatype Reply<+T> = Ok(st: St, value: T) | Backtrack
}
