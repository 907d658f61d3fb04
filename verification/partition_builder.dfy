/** Partitions as they are written: the kind, and which of how many shards. */
module PartitionBuilder {
  import opened DecimalText

  datatype Kind = Count | Hash | Slice

  datatype Builder = Builder(kind: Kind, shard: nat, total: nat) {
    /** What a parsed partition always meets. */
    predicate Valid() {
      1 <= shard <= total <= U64_MAX
    }

    function Scope(): Scope {
      if kind == Slice then CrossBinary else PerBinary
    }
  }

  datatype Scope = PerBinary | CrossBinary

  datatype ParseError =
    | UnknownPrefix(input: string)
    | NotMOverN(kind: Kind, input: string)
    | BadShard(kind: Kind, text: string)
    | BadTotal(kind: Kind, text: string)
    | OutOfRange(kind: Kind, shard: nat, total: nat)

  datatype Parsed = Ok(builder: Builder) | Err(error: ParseError)

  // ----- parsing -----

  function FirstSlash(s: string): (i: nat)
    ensures i <= |s| && '/' !in s[..i] && (i < |s| ==> s[i] == '/')
  {
    if s == "" || s[0] == '/' then 0 else 1 + FirstSlash(s[1..])
  }

  function ParseShards(kind: Kind, input: string): Parsed {
    var i := FirstSlash(input);
    if i == |input| then Err(NotMOverN(kind, input))
    else
      var shard := ParseU64(input[..i]);
      var total := ParseU64(input[i + 1..]);
      if shard.None? then Err(BadShard(kind, input[..i]))
      else if total.None? then Err(BadTotal(kind, input[i + 1..]))
      else if !(1 <= shard.value <= total.value) then Err(OutOfRange(kind, shard.value, total.value))
      else Ok(Builder(kind, shard.value, total.value))
  }

  function Keyword(kind: Kind): string {
    match kind
    case Count => "count:"
    case Hash => "hash:"
    case Slice => "slice:"
  }

  function Parse(s: string): Parsed {
    if Keyword(Hash) <= s then ParseShards(Hash, s[|Keyword(Hash)|..])
    else if Keyword(Count) <= s then ParseShards(Count, s[|Keyword(Count)|..])
    else if Keyword(Slice) <= s then ParseShards(Slice, s[|Keyword(Slice)|..])
    else Err(UnknownPrefix(s))
  }

  function Print(b: Builder): string {
    Keyword(b.kind) + (NatText(b.shard) + "/" + NatText(b.total))
  }

  lemma {:induction false} SlashAfterDigits(a: string, b: string)
    requires IsDigits(a)
    ensures FirstSlash(a + "/" + b) == |a|
  {
    var s := a + "/" + b;
    if a == "" {
      assert s[0] == '/';
    } else {
      assert s[0] == a[0];
      assert s[1..] == a[1..] + "/" + b;
      SlashAfterDigits(a[1..], b);
    }
  }

  lemma ParseShardsPrint(b: Builder)
    ensures ParseShards(b.kind, NatText(b.shard) + "/" + NatText(b.total)) == Ok(b) <==> b.Valid()
    ensures ParseShards(b.kind, NatText(b.shard) + "/" + NatText(b.total)).Ok? <==> b.Valid()
  {
    var m, n := NatText(b.shard), NatText(b.total);
    var s := m + "/" + n;
    ParseUndoesPrint(b.shard);
    ParseUndoesPrint(b.total);
    NatTextDigits(b.shard);
    SlashAfterDigits(m, n);
    hide NatText, ParseU64, FirstSlash, IsDigits, DigitsValue;
    assert s[..|m|] == m && s[|m| + 1..] == n;
  }

  lemma KeywordReads(kind: Kind, x: string)
    ensures Parse(Keyword(kind) + x) == ParseShards(kind, x)
  {
    hide ParseShards;
    var text := Keyword(kind) + x;
    assert text[|Keyword(kind)|..] == x;
    assert text[0] == Keyword(kind)[0];
  }

  /** A partition that is in range and fits 64 bits is read back as written. Any other is
      refused. */
  lemma ParsePrint(b: Builder)
    ensures Parse(Print(b)) == Ok(b) <==> b.Valid()
    ensures Parse(Print(b)).Ok? <==> b.Valid()
  {
    hide Parse, ParseShards, Keyword, NatText;
    KeywordReads(b.kind, NatText(b.shard) + "/" + NatText(b.total));
    ParseShardsPrint(b);
  }

  /** No text is read as a partition that is out of range. */
  lemma ParseAcceptsOnlyValid(s: string)
    ensures Parse(s).Ok? ==> Parse(s).builder.Valid()
  {
    hide ParseU64, FirstSlash, Keyword;
  }
}
