/** The text inside a matcher: escaped strings and `/regex/` bodies, read and printed. */
module MatcherText {
  import opened Wrappers
  import opened FiltersetSyntax
  import opened ParserState

  // ----- hexadecimal numbers -----

  predicate IsHexDigit(c: char) {
    '0' <= c <= '9' || 'a' <= c <= 'f' || 'A' <= c <= 'F'
  }

  function HexDigitValue(c: char): (v: nat)
    requires IsHexDigit(c)
    ensures v < 16
  {
    if c <= '9' then (c - '0') as nat
    else if c <= 'F' then (c - 'A') as nat + 10
    else (c - 'a') as nat + 10
  }

  function HexDigit(v: nat): (c: char)
    requires v < 16
    ensures IsHexDigit(c) && HexDigitValue(c) == v
  {
    if v < 10 then '0' + v as char else 'a' + (v - 10) as char
  }

  function HexValue(s: string): nat
    requires forall c <- s :: IsHexDigit(c)
  {
    if s == "" then 0 else HexValue(s[..|s| - 1]) * 16 + HexDigitValue(s[|s| - 1])
  }

  function HexText(n: nat): (s: string)
    ensures s != "" && forall c <- s :: IsHexDigit(c)
  {
    if n < 16 then [HexDigit(n)] else HexText(n / 16) + [HexDigit(n % 16)]
  }

  lemma {:induction false} HexTextValue(n: nat)
    ensures HexValue(HexText(n)) == n
  {
    var s := HexText(n);
    if n >= 16 {
      HexTextValue(n / 16);
      assert s[..|s| - 1] == HexText(n / 16);
    } else {
      assert s[..0] == "";
      assert HexValue(s) == HexValue(s[..0]) * 16 + HexDigitValue(s[0]);
    }
  }

  lemma {:induction false} HexTextLength(n: nat, digits: nat, bound: nat)
    requires n < bound && digits >= 1 && bound == Power16(digits)
    ensures |HexText(n)| <= digits
    decreases digits
  {
    if n >= 16 {
      HexTextLength(n / 16, digits - 1, bound / 16);
    }
  }

  function Power16(k: nat): nat {
    if k == 0 then 1 else 16 * Power16(k - 1)
  }

  /** Length of the longest run of hex digits at the start of `s`, at most `limit`. */
  function HexRun(s: string, limit: nat): (n: nat)
    ensures n <= |s| && n <= limit
    ensures forall c <- s[..n] :: IsHexDigit(c)
  {
    if limit == 0 || s == "" || !IsHexDigit(s[0]) then 0
    else
      var n := HexRun(s[1..], limit - 1);
      assert s[..n + 1] == [s[0]] + s[1..][..n];
      n + 1
  }

  lemma {:induction false} HexRunStops(h: string, t: string, limit: nat)
    requires |h| <= limit && forall c <- h :: IsHexDigit(c)
    requires t != "" && !IsHexDigit(t[0])
    ensures HexRun(h + t, limit) == |h|
  {
    if h == "" {
      assert h + t == t;
    } else {
      assert (h + t)[1..] == h[1..] + t;
      HexRunStops(h[1..], t, limit - 1);
    }
  }

  predicate IsScalarValue(v: nat) {
    v < 0xD800 || 0xE000 <= v < 0x11_0000
  }

  // ----- escaped strings -----

  /** `u{…}` after a backslash: the character, and how many characters it took. */
  function UnicodeEscape(s: string): (r: Option<(char, nat)>)
    ensures r.Some? ==> 0 < r.value.1 <= |s|
  {
    if |s| < 2 || s[0] != 'u' || s[1] != '{' then None
    else
      var n := HexRun(s[2..], 6);
      if n == 0 || |s| <= 2 + n || s[2 + n] != '}' then None
      else
        var v := HexValue(s[2..][..n]);
        if IsScalarValue(v) then Some((v as char, n + 3)) else None
  }

  function SimpleEscape(c: char): Option<char> {
    match c
    case 'n' => Some('\n')
    case 'r' => Some('\r')
    case 't' => Some('\t')
    case 'b' => Some('\U{8}')
    case 'f' => Some('\U{c}')
    case '\\' => Some('\\')
    case '/' => Some('/')
    case ')' => Some(')')
    case ',' => Some(',')
    case _ => None
  }

  /** After a backslash: the escaped character and its length, if there is one. */
  function Escape(s: string): (r: Option<(char, nat)>)
    ensures r.Some? ==> 0 < r.value.1 <= |s|
  {
    var u := UnicodeEscape(s);
    if u.Some? then u
    else if s == "" || SimpleEscape(s[0]).None? then None
    else Some((SimpleEscape(s[0]).value, 1))
  }

  /** The error for the backslash at `off`, with `rest` still to read. */
  function BadEscape(off: nat, rest: string): Diagnostic {
    Diagnostic(InvalidEscapeCharacter, Span(off, if |rest| < 2 then |rest| else 2))
  }

  function Append(acc: Option<string>, c: char): Option<string> {
    if acc.Some? then Some(acc.value + [c]) else None
  }

  predicate EndsText(s: string) {
    s == "" || s[0] == ')' || s[0] == ','
  }

  /** Reads up to the next unescaped `)` or `,`. A bad escape is reported, costs the
      value, and reading goes on just after its backslash. */
  function ReadText(st: St, acc: Option<string>): (r: (St, Option<string>))
    ensures Follows(st, r.0) && EndsText(r.0.rest)
    ensures acc.Some? && r.1.None? ==> |st.errs| < |r.0.errs|
    decreases |st.rest|
  {
    if EndsText(st.rest) then (st, acc)
    else if st.rest[0] != '\\' then ReadText(st.Advance(1), Append(acc, st.rest[0]))
    else
      var after := st.Advance(1);
      var e := Escape(after.rest);
      if e.Some? then
        ReadText(after.Advance(e.value.1), Append(acc, e.value.0))
      else
        var d := BadEscape(st.off, after.rest);
        ReadText(after.Report(d.kind, d.span), None)
  }

  /** The character printed after a backslash, for the characters that have one. */
  function EscapeLetter(c: char): Option<char> {
    if c == '/' || c == ')' || c == ',' || c == '\\' || IsQuote(c) then Some(c)
    else if c == '\t' then Some('t')
    else if c == '\r' then Some('r')
    else if c == '\n' then Some('n')
    else None
  }

  /** `char::escape_default`, and the three escapes the filterset language adds. */
  function EscapeChar(c: char): (s: string)
    ensures s != ""
    ensures s[0] != '\\' ==> s == [c] && !EndsText(s) && !IsQuote(c)
  {
    if EscapeLetter(c).Some? then ['\\', EscapeLetter(c).value]
    else if ' ' <= c <= '~' then [c]
    else "\\u{" + HexText(c as nat) + "}"
  }

  function EscapeText(s: string): string {
    if s == "" then "" else EscapeChar(s[0]) + EscapeText(s[1..])
  }

  /** The characters that are printed with an escape the parser does not know. */
  predicate IsQuote(c: char) {
    c == '\'' || c == '"'
  }

  predicate HasQuote(s: string) {
    exists c <- s :: IsQuote(c)
  }

  lemma UnicodeEscapeRoundTrip(c: char, t: string)
    ensures UnicodeEscape("u{" + HexText(c as nat) + "}" + t) == Some((c, |HexText(c as nat)| + 3))
  {
    var h := HexText(c as nat);
    var s := "u{" + h + "}" + t;
    assert s[2..] == h + ("}" + t);
    assert Power16(6) == 0x100_0000 by { assert Power16(5) == 0x10_0000 by { assert Power16(3) == 0x1000; } }
    HexTextLength(c as nat, 6, 0x100_0000);
    HexRunStops(h, "}" + t, 6);
    assert s[2..][..|h|] == h;
    HexTextValue(c as nat);
  }

  lemma EscapeRoundTrip(c: char, t: string)
    requires EscapeChar(c)[0] == '\\' && !IsQuote(c)
    ensures Escape(EscapeChar(c)[1..] + t) == Some((c, |EscapeChar(c)| - 1))
  {
    if EscapeLetter(c).Some? {
      assert (EscapeChar(c)[1..] + t)[0] == EscapeLetter(c).value;
    } else {
      UnicodeEscapeRoundTrip(c, t);
      assert EscapeChar(c)[1..] + t == "u{" + HexText(c as nat) + "}" + t;
    }
  }

  lemma ReadPlain(st: St, acc: Option<string>, c: char, tail: string)
    requires st.rest == [c] + tail && c != '\\' && !EndsText([c])
    ensures ReadText(st, acc) == ReadText(St(st.off + 1, tail, st.errs), Append(acc, c))
  {
    assert st.rest[1..] == tail;
  }

  lemma ReadEscape(st: St, acc: Option<string>, c: char, n: nat, tail: string)
    requires st.rest != "" && st.rest[0] == '\\' && Escape(st.rest[1..]) == Some((c, n))
    requires st.rest[1..][n..] == tail
    ensures ReadText(st, acc) == ReadText(St(st.off + 1 + n, tail, st.errs), Append(acc, c))
  {
  }

  lemma ReadBadEscape(st: St, acc: Option<string>, tail: string)
    requires st.rest == ['\\'] + tail && Escape(tail) == None
    ensures ReadText(st, acc) == ReadText(St(st.off + 1, tail, st.errs + [BadEscape(st.off, tail)]), None)
  {
  }

  /** Reading one printed character: a quote is reported and costs the value. */
  lemma TextStep(c: char, st: St, acc: Option<string>, tail: string) returns (es: seq<Diagnostic>)
    requires st.rest == EscapeChar(c) + tail
    ensures ReadText(st, acc) ==
            ReadText(St(st.off + |EscapeChar(c)|, tail, st.errs + es),
                     if IsQuote(c) then None else Append(acc, c))
    ensures es == [] <==> !IsQuote(c)
  {
    hide ReadText;
    var head := EscapeChar(c);
    if IsQuote(c) {
      es := [BadEscape(st.off, [c] + tail)];
      assert st.rest == ['\\'] + ([c] + tail);
      assert Escape([c] + tail) == None;
      ReadBadEscape(st, acc, [c] + tail);
      ReadPlain(St(st.off + 1, [c] + tail, st.errs + es), None, c, tail);
    } else {
      es := [];
      assert st.errs + es == st.errs;
      if head[0] != '\\' {
        ReadPlain(st, acc, c, tail);
      } else {
        EscapeRoundTrip(c, tail);
        assert st.rest[1..] == head[1..] + tail;
        ReadEscape(st, acc, c, |head| - 1, tail);
      }
    }
  }

  /** The value left by reading the printed form of `s` after `acc`. */
  function Extend(acc: Option<string>, s: string): Option<string> {
    if acc.Some? && !HasQuote(s) then Some(acc.value + s) else None
  }

  lemma ExtendStep(acc: Option<string>, s: string)
    requires s != ""
    ensures Extend(if IsQuote(s[0]) then None else Append(acc, s[0]), s[1..]) == Extend(acc, s)
    ensures HasQuote(s) <==> IsQuote(s[0]) || HasQuote(s[1..])
  {
    assert s == [s[0]] + s[1..];
    if acc.Some? {
      assert acc.value + s == acc.value + [s[0]] + s[1..];
    }
  }

  lemma EscapeTextSplit(s: string, t: string)
    requires s != ""
    ensures EscapeText(s) + t == EscapeChar(s[0]) + (EscapeText(s[1..]) + t)
    ensures |EscapeText(s)| == |EscapeChar(s[0])| + |EscapeText(s[1..])|
  {
    hide EscapeChar;
    assert EscapeText(s) == EscapeChar(s[0]) + EscapeText(s[1..]);
  }

  lemma ReadTextEnd(st: St, acc: Option<string>)
    requires EndsText(st.rest)
    ensures ReadText(st, acc) == (St(st.off, st.rest, st.errs + []), Extend(acc, ""))
  {
    assert st.errs + [] == st.errs;
    assert acc.Some? ==> acc.value + "" == acc.value;
  }

  /** Printing then reading gives the string back, with no error, exactly when it
      holds no quote; a quote costs the value and at least one error. */
  lemma {:induction false} TextRoundTrip(s: string, st: St, acc: Option<string>, t: string)
    returns (es: seq<Diagnostic>)
    requires st.rest == EscapeText(s) + t && EndsText(t)
    ensures ReadText(st, acc) == (St(st.off + |EscapeText(s)|, t, st.errs + es), Extend(acc, s))
    ensures es == [] <==> !HasQuote(s)
    decreases s
  {
    hide ReadText, IsQuote, EscapeChar, Extend;
    if s == "" {
      es := [];
      assert st.rest == t;
      ReadTextEnd(st, acc);
    } else {
      EscapeTextSplit(s, t);
      ExtendStep(acc, s);
      hide EscapeText, HasQuote;
      var tail := EscapeText(s[1..]) + t;
      var e1 := TextStep(s[0], st, acc, tail);
      var next := St(st.off + |EscapeChar(s[0])|, tail, st.errs + e1);
      var e2 := TextRoundTrip(s[1..], next, if IsQuote(s[0]) then None else Append(acc, s[0]), t);
      es := e1 + e2;
      assert st.errs + es == next.errs + e2;
    }
  }

  // ----- regex bodies -----

  predicate IsEscapedSlash(s: string) {
    |s| >= 2 && s[0] == '\\' && s[1] == '/'
  }

  /** Reads a regex body up to an unescaped `/` or the end of input: the characters
      read, and how much input they took. */
  function ReadRegex(s: string): (r: (string, nat))
    ensures r.1 <= |s|
    ensures r.1 < |s| ==> s[r.1] == '/'
  {
    if s == "" || s[0] == '/' then ("", 0)
    else if IsEscapedSlash(s) then
      var (text, n) := ReadRegex(s[2..]);
      (['/'] + text, n + 2)
    else
      var (text, n) := ReadRegex(s[1..]);
      ([s[0]] + text, n + 1)
  }

  /** Prints a regex body; `escaped` says that a backslash came just before. */
  function PrintRegex(s: string, escaped: bool): string {
    if s == "" then ""
    else if escaped then [s[0]] + PrintRegex(s[1..], false)
    else if s[0] == '/' then ['\\', '/'] + PrintRegex(s[1..], false)
    else [s[0]] + PrintRegex(s[1..], s[0] == '\\')
  }

  /** Whether a scan of `s` finds a `/` that a backslash already escapes. */
  predicate HasEscapedSlash(s: string, escaped: bool) {
    s != "" && ((escaped && s[0] == '/') || HasEscapedSlash(s[1..], !escaped && s[0] == '\\'))
  }

  predicate EndsInBackslash(s: string) {
    s != "" && s[|s| - 1] == '\\'
  }

  /** `s` with each backslash before an escaped `/` taken out: what reading the
      printed form of `s` gives. */
  function ReadBack(s: string): string {
    if s == "" then ""
    else if s[0] != '\\' || |s| == 1 then [s[0]] + ReadBack(s[1..])
    else if s[1] == '/' then ['/'] + ReadBack(s[2..])
    else [s[0], s[1]] + ReadBack(s[2..])
  }

  lemma ReadRegexStep(c: char, rest: string)
    requires c != '/' && (c == '\\' ==> rest == "" || rest[0] != '/')
    ensures ReadRegex([c] + rest) == ([c] + ReadRegex(rest).0, ReadRegex(rest).1 + 1)
  {
    assert ([c] + rest)[1..] == rest;
  }

  lemma ReadRegexSlash(rest: string)
    ensures ReadRegex(['\\', '/'] + rest) == (['/'] + ReadRegex(rest).0, ReadRegex(rest).1 + 2)
  {
    assert (['\\', '/'] + rest)[2..] == rest;
  }

  /** How many characters of `s` are printed, and read back, together. */
  function ChunkLength(s: string): (n: nat)
    requires s != ""
    ensures 0 < n <= |s|
  {
    if s[0] == '\\' && |s| >= 2 then 2 else 1
  }

  /** The printed form of the first chunk, and what is read for it. */
  function ChunkPrint(s: string): string
    requires s != ""
  {
    if s[0] == '/' then ['\\', '/'] else s[..ChunkLength(s)]
  }

  function ChunkRead(s: string): string
    requires s != ""
  {
    if IsEscapedSlash(s) then ['/'] else s[..ChunkLength(s)]
  }

  lemma ChunkSplit(s: string, t: string)
    requires s != ""
    ensures PrintRegex(s, false) + t == ChunkPrint(s) + (PrintRegex(s[ChunkLength(s)..], false) + t)
    ensures |PrintRegex(s, false)| == |ChunkPrint(s)| + |PrintRegex(s[ChunkLength(s)..], false)|
    ensures ReadBack(s) == ChunkRead(s) + ReadBack(s[ChunkLength(s)..])
  {
    if ChunkLength(s) == 2 {
      assert s[2..] == s[1..][1..];
      assert PrintRegex(s[1..], true) == [s[1]] + PrintRegex(s[2..], false);
    }
  }

  lemma ReadRegexPair(c: char, d: char, rest: string)
    requires rest != "" && c != '/' && d != '/' && (d == '\\' ==> rest[0] != '/')
    ensures ReadRegex([c, d] + rest) == ([c, d] + ReadRegex(rest).0, ReadRegex(rest).1 + 2)
  {
    hide ReadRegex;
    ReadRegexStep(d, rest);
    ReadRegexStep(c, [d] + rest);
    TwoInFront(c, d, rest);
    TwoInFront(c, d, ReadRegex(rest).0);
  }

  lemma TwoInFront(c: char, d: char, s: string)
    ensures [c, d] + s == [c] + ([d] + s)
  {
  }

  lemma ReadRegexChunk(s: string, rest: string)
    requires s != "" && rest != "" && (s[0] == '\\' ==> |s| >= 2 && (s[1] == '\\' ==> rest[0] != '/'))
    ensures ReadRegex(ChunkPrint(s) + rest) == (ChunkRead(s) + ReadRegex(rest).0, ReadRegex(rest).1 + |ChunkPrint(s)|)
  {
    hide ReadRegex;
    if s[0] == '/' || IsEscapedSlash(s) {
      ReadRegexSlash(rest);
      assert ChunkPrint(s) == ['\\', '/'] && ChunkRead(s) == ['/'];
    } else if ChunkLength(s) == 1 {
      ReadRegexStep(s[0], rest);
      assert ChunkPrint(s) == [s[0]] && ChunkRead(s) == [s[0]];
    } else {
      assert ChunkPrint(s) == [s[0], s[1]] && ChunkRead(s) == [s[0], s[1]];
      ReadRegexPair(s[0], s[1], rest);
    }
  }

  lemma PrintRegexStart(s: string, t: string)
    requires s != ""
    ensures PrintRegex(s, false) != "" && (PrintRegex(s, false) + t)[0] != '/'
  {
  }

  /** Up to the closing `/`, reading the printed form of `s` gives `ReadBack(s)`. */
  lemma {:induction false} RegexReadBack(s: string, t: string)
    requires !EndsInBackslash(s) && t != "" && t[0] == '/'
    ensures ReadRegex(PrintRegex(s, false) + t) == (ReadBack(s), |PrintRegex(s, false)|)
    decreases s
  {
    if s == "" {
      assert PrintRegex(s, false) + t == t;
    } else {
      ChunkSplit(s, t);
      hide ReadRegex, PrintRegex, ReadBack, ChunkPrint, ChunkRead;
      var s' := s[ChunkLength(s)..];
      var rest := PrintRegex(s', false) + t;
      if s' != "" {
        PrintRegexStart(s', t);
      }
      ReadRegexChunk(s, rest);
      RegexReadBack(s', t);
    }
  }

  /** Whatever is read never ends in a backslash, nor does the input it took. */
  lemma {:induction false} ReadRegexNeverEndsInBackslash(s: string)
    requires ReadRegex(s).1 < |s|
    ensures !EndsInBackslash(ReadRegex(s).0) && !EndsInBackslash(s[..ReadRegex(s).1])
    decreases s
  {
    var n := ReadRegex(s).1;
    if s != "" && s[0] != '/' {
      var k := if IsEscapedSlash(s) then 2 else 1;
      ReadRegexNeverEndsInBackslash(s[k..]);
      assert s[..n] == s[..k] + s[k..][..n - k];
    }
  }

  lemma {:induction false} ReadBackFixed(s: string)
    ensures ReadBack(s) == s <==> !HasEscapedSlash(s, false)
    ensures |ReadBack(s)| <= |s|
    decreases s
  {
    if s == "" {
    } else if s[0] != '\\' {
      ReadBackFixed(s[1..]);
      assert s == [s[0]] + s[1..];
    } else if |s| > 1 {
      assert s[2..] == s[1..][1..];
      ReadBackFixed(s[2..]);
      assert s == [s[0], s[1]] + s[2..];
      assert HasEscapedSlash(s, false) <==> s[1] == '/' || HasEscapedSlash(s[2..], false);
      if s[1] != '/' {
        assert ReadBack(s)[2..] == ReadBack(s[2..]);
      }
    }
  }

  lemma {:induction false} PrintRegexEnd(s: string, escaped: bool)
    requires EndsInBackslash(s)
    ensures EndsInBackslash(PrintRegex(s, escaped))
  {
    if |s| > 1 {
      PrintRegexEnd(s[1..], !escaped && s[0] == '\\');
    } else {
      assert s[1..] == "";
    }
  }

  /** A regex text survives printing and reading exactly when no `/` in it is already
      escaped and it does not end in a backslash. */
  lemma RegexRoundTrip(s: string, t: string)
    requires t != "" && t[0] == '/'
    ensures ReadRegex(PrintRegex(s, false) + t) == (s, |PrintRegex(s, false)|)
            <==> !HasEscapedSlash(s, false) && !EndsInBackslash(s)
  {
    var p := PrintRegex(s, false);
    ReadBackFixed(s);
    if EndsInBackslash(s) {
      PrintRegexEnd(s, false);
      assert (p + t)[..|p|] == p;
      if ReadRegex(p + t).1 == |p| {
        ReadRegexNeverEndsInBackslash(p + t);
        assert false;
      }
    } else {
      RegexReadBack(s, t);
    }
  }

  lemma ChunkReadPrint(s: string, x: string)
    requires s != "" && !(|s| == 1 && s[0] == '\\')
    ensures PrintRegex(ChunkRead(s) + x, false) == ChunkPrint(s) + PrintRegex(x, false)
  {
    var c := ChunkRead(s);
    assert (c + x)[1..] == c[1..] + x;
    if |c| == 2 {
      assert (c[1..] + x)[1..] == x;
    } else {
      assert c[1..] + x == x;
    }
  }

  /** One trip through the printer and the reader settles the printed form. */
  lemma {:induction false} PrintReadPrint(s: string)
    requires !EndsInBackslash(s)
    ensures PrintRegex(ReadBack(s), false) == PrintRegex(s, false)
    decreases s
  {
    if s != "" {
      var s' := s[ChunkLength(s)..];
      ChunkSplit(s, "");
      PrintReadPrint(s');
      ChunkReadPrint(s, ReadBack(s'));
      assert PrintRegex(s, false) + "" == PrintRegex(s, false);
      assert PrintRegex(s', false) + "" == PrintRegex(s', false);
      hide PrintRegex, ReadBack;
    }
  }
}
