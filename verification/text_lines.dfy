/** Splitting text at newlines. */
module TextLines {

  function Lines(s: string): (r: seq<string>)
    ensures r != []
  {
    if s == "" then [""]
    else if s[|s| - 1] == '\n' then Lines(s[..|s| - 1]) + [""]
    else
      var r := Lines(s[..|s| - 1]);
      r[..|r| - 1] + [r[|r| - 1] + [s[|s| - 1]]]
  }

  function Join(lines: seq<string>): string
    requires lines != []
  {
    if |lines| == 1 then lines[0] else Join(lines[..|lines| - 1]) + "\n" + lines[|lines| - 1]
  }

  lemma {:induction false} JoinLines(s: string)
    ensures Join(Lines(s)) == s
    ensures forall i | 0 <= i < |Lines(s)| :: '\n' !in Lines(s)[i]
  {
    if s != "" {
      var r := Lines(s[..|s| - 1]);
      JoinLines(s[..|s| - 1]);
      assert s == s[..|s| - 1] + [s[|s| - 1]];
      if s[|s| - 1] == '\n' {
        assert (r + [""])[..|r|] == r;
        assert Join(r) + "\n" + "" == s;
      } else {
        JoinLast(r, s[|s| - 1]);
      }
    }
  }

  lemma AppendChar(a: string, b: string, c: char)
    ensures a + "\n" + (b + [c]) == (a + "\n" + b) + [c]
  {
  }

  lemma JoinLast(r: seq<string>, c: char)
    requires r != []
    ensures Join(r[..|r| - 1] + [r[|r| - 1] + [c]]) == Join(r) + [c]
  {
    var r' := r[..|r| - 1] + [r[|r| - 1] + [c]];
    if |r| > 1 {
      assert r'[..|r| - 1] == r[..|r| - 1];
      AppendChar(Join(r[..|r| - 1]), r[|r| - 1], c);
    }
  }

  lemma JoinNext(lines: seq<string>, i: nat)
    requires i < |lines|
    ensures Join(lines[..i + 1]) == if i == 0 then lines[0] else Join(lines[..i]) + "\n" + lines[i]
  {
    assert lines[..i + 1][..i] == lines[..i];
  }
}
