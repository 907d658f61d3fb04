/** Indenting text as it streams through a writer. */
module Indenter {
  import opened TextLines

  const DEFAULT_INDENTATION := "    "

  datatype State = State(out: string, needsIndent: bool)

  /** Sends text through the indenter, one character at a time. */
  function Write(indentation: string, s: State, text: string): State {
    if text == "" then s
    else
      var c := text[|text| - 1];
      var s1 := Write(indentation, s, text[..|text| - 1]);
      if c == '\n' then State(s1.out + "\n", true)
      else State(s1.out + (if s1.needsIndent then indentation else "") + [c], false)
  }

  /** A line by itself: indented if that is due and the line is not empty. */
  function IndentedLine(indentation: string, line: string, due: bool): string {
    if due && line != "" then indentation + line else line
  }

  function IndentedLines(indentation: string, lines: seq<string>, dueFirst: bool): seq<string> {
    seq(|lines|, i requires 0 <= i < |lines| => IndentedLine(indentation, lines[i], i > 0 || dueFirst))
  }

  /** However a text is cut into writes, the output is the same. */
  lemma {:induction false} CuttingDoesNotMatter(indentation: string, s: State, a: string, b: string)
    ensures Write(indentation, Write(indentation, s, a), b) == Write(indentation, s, a + b)
  {
    if b == "" {
      assert a + b == a;
    } else {
      CuttingDoesNotMatter(indentation, s, a, b[..|b| - 1]);
      assert (a + b)[..|a + b| - 1] == a + b[..|b| - 1];
    }
  }

  lemma JoinPush(lines: seq<string>, line: string)
    requires lines != []
    ensures Join(lines + [line]) == Join(lines) + "\n" + line
  {
    assert (lines + [line])[..|lines|] == lines;
  }

  lemma PushConcat(out: string, x: string)
    ensures out + (x + "\n" + "") == out + x + "\n"
  {
  }

  /** After any text, the output is the indented lines, and indentation is due at the start
      of a line. */
  lemma {:induction false} WritesIndentedLines(indentation: string, s: State, text: string)
    ensures var lines := Lines(text);
            var last := |lines| - 1;
            && Write(indentation, s, text).out == s.out + Join(IndentedLines(indentation, lines, s.needsIndent))
            && Write(indentation, s, text).needsIndent == (lines[last] == "" && (last > 0 || s.needsIndent))
  {
    if text == "" {
      assert IndentedLines(indentation, [""], s.needsIndent) == [""];
      assert s.out + "" == s.out;
    } else {
      var front, c := text[..|text| - 1], text[|text| - 1];
      var lines := Lines(front);
      WritesIndentedLines(indentation, s, front);
      if c == '\n' {
        NewlineAdds(indentation, lines, s.needsIndent);
        PushConcat(s.out, Join(IndentedLines(indentation, lines, s.needsIndent)));
      } else {
        CharAdds(indentation, s.out, lines, s.needsIndent, c);
      }
    }
  }

  lemma NewlineAdds(indentation: string, lines: seq<string>, due: bool)
    requires lines != []
    ensures Join(IndentedLines(indentation, lines + [""], due))
            == Join(IndentedLines(indentation, lines, due)) + "\n" + ""
  {
    assert IndentedLines(indentation, lines + [""], due) == IndentedLines(indentation, lines, due) + [""];
    JoinPush(IndentedLines(indentation, lines, due), "");
  }

  lemma InLastLine(out: string, before: string, line: string, indent: string, c: char)
    ensures out + (line + indent + [c]) == out + line + indent + [c]
    ensures out + (before + "\n" + (line + indent + [c])) == out + (before + "\n" + line) + indent + [c]
  {
  }

  lemma LastLineIndented(indentation: string, lines: seq<string>, line: string, due: bool)
    ensures IndentedLines(indentation, lines + [line], due)
            == IndentedLines(indentation, lines, due) + [IndentedLine(indentation, line, |lines| > 0 || due)]
  {
    hide IndentedLine;
  }

  lemma CharAdds(indentation: string, out: string, lines: seq<string>, due: bool, c: char)
    requires lines != []
    ensures var n := |lines| - 1;
            var more := lines[..n] + [lines[n] + [c]];
            var indent := if lines[n] == "" && (n > 0 || due) then indentation else "";
            out + Join(IndentedLines(indentation, more, due))
            == out + Join(IndentedLines(indentation, lines, due)) + indent + [c]
  {
    var n := |lines| - 1;
    var before := IndentedLines(indentation, lines[..n], due);
    var line := IndentedLine(indentation, lines[n], n > 0 || due);
    var indent := if lines[n] == "" && (n > 0 || due) then indentation else "";
    var line' := IndentedLine(indentation, lines[n] + [c], n > 0 || due);
    assert line' == line + indent + [c];
    assert lines[..n] + [lines[n]] == lines;
    LastLineIndented(indentation, lines[..n], lines[n], due);
    LastLineIndented(indentation, lines[..n], lines[n] + [c], due);
    hide IndentedLines, IndentedLine;
    if before == [] {
      InLastLine(out, "", line, indent, c);
      assert before + [line] == [line] && before + [line'] == [line'];
    } else {
      InLastLine(out, Join(before), line, indent, c);
      JoinPush(before, line);
      JoinPush(before, line');
      hide Join;
    }
  }

  /** The output is the text with every line that is not empty indented, except the first
      one when indenting it was to be skipped. */
  lemma IndentsEveryLine(indentation: string, skipInitial: bool, text: string)
    ensures Write(indentation, State("", !skipInitial), text).out
            == Join(IndentedLines(indentation, Lines(text), !skipInitial))
  {
    WritesIndentedLines(indentation, State("", !skipInitial), text);
    var out := Join(IndentedLines(indentation, Lines(text), !skipInitial));
    assert "" + out == out;
  }

  // ----- nesting -----

  /** A text without newlines passes through behind at most one indentation. */
  lemma {:induction false} WriteInLine(indentation: string, s: State, text: string)
    requires '\n' !in text && text != ""
    ensures Write(indentation, s, text) == State(s.out + (if s.needsIndent then indentation else "") + text, false)
  {
    var front, c := text[..|text| - 1], text[|text| - 1];
    var indent := if s.needsIndent then indentation else "";
    assert text == front + [c];
    if front == "" {
      assert text == [c] && Write(indentation, s, front) == s;
    } else {
      WriteInLine(indentation, s, front);
      assert s.out + indent + front + "" + [c] == s.out + indent + text;
    }
  }

  predicate Newlines(s: string) {
    forall i :: 0 <= i < |s| ==> s[i] == '\n'
  }

  function LeadingNewlines(s: string): (n: nat)
    ensures n <= |s| && Newlines(s[..n])
    ensures n < |s| ==> s[n] != '\n'
  {
    if s != "" && s[0] == '\n' then 1 + LeadingNewlines(s[1..]) else 0
  }

  /** Two indentations add up when there is no outer one, when the inner one has no newline,
      or when the outer one is nothing but newlines and the inner one has none past its start. */
  predicate AddsUp(outer: string, inner: string) {
    || outer == ""
    || '\n' !in inner
    || (Newlines(outer) && '\n' !in inner[LeadingNewlines(inner)..])
  }

  lemma {:induction false} WriteNewlines(indentation: string, s: State, text: string)
    requires Newlines(text)
    ensures Write(indentation, s, text) == State(s.out + text, s.needsIndent || text != "")
  {
    if text == "" {
      assert s.out + "" == s.out;
    } else {
      WriteNewlines(indentation, s, text[..|text| - 1]);
      assert s.out + text[..|text| - 1] + "\n" == s.out + text;
    }
  }

  lemma {:induction false} WriteUnindented(s: State, text: string)
    ensures Write("", s, text).out == s.out + text
  {
    if text == "" {
      assert s.out + "" == s.out;
    } else {
      WriteUnindented(s, text[..|text| - 1]);
      assert s.out + text[..|text| - 1] + "" + [text[|text| - 1]] == s.out + text;
    }
  }

  lemma {:induction false} AfterInk(indentation: string, s: State, text: string, c: char)
    requires c != '\n'
    ensures !Write(indentation, s, text + [c]).needsIndent
  {
    assert (text + [c])[..|text|] == text;
  }

  /** Newlines and then text on one line: the text alone is indented. */
  lemma NewlinesThenLine(indentation: string, s: State, newlines: string, line: string)
    requires s.needsIndent && Newlines(newlines) && '\n' !in line && line != ""
    ensures Write(indentation, s, newlines + line) == State(s.out + newlines + indentation + line, false)
  {
    WriteNewlines(indentation, s, newlines);
    WriteInLine(indentation, Write(indentation, s, newlines), line);
    CuttingDoesNotMatter(indentation, s, newlines, line);
  }

  lemma NewlinesSwap(out: string, a: string, b: string, rest: string)
    requires Newlines(a) && Newlines(b)
    ensures out + a + b + rest == out + (b + a) + rest
  {
    assert a + b == b + a;
    assert out + a + b == out + (a + b);
  }

  lemma NewlinesIndented(outer: string, inner: string, s: State, c: char)
    requires Newlines(outer) && '\n' !in inner[LeadingNewlines(inner)..] && c != '\n' && s.needsIndent
    ensures Write(outer, s, inner + [c]) == State(s.out + (outer + inner) + [c], false)
  {
    hide Write;
    var k := LeadingNewlines(inner);
    var newlines, line := inner[..k], inner[k..] + [c];
    NewlinesThenLine(outer, s, newlines, line);
    NewlinesSwap(s.out, newlines, outer, line);
    Regroup(s.out, outer, newlines, inner[k..], c);
    assert newlines + inner[k..] == inner;
  }

  lemma Regroup(out: string, outer: string, newlines: string, line: string, c: char)
    ensures newlines + (line + [c]) == (newlines + line) + [c]
    ensures out + (outer + newlines) + (line + [c]) == out + (outer + (newlines + line)) + [c]
  {
  }

  /** At the start of a line, a character goes behind both indentations. */
  lemma NestedInk(outer: string, inner: string, s: State, c: char)
    requires AddsUp(outer, inner) && c != '\n' && s.needsIndent
    ensures Write(outer, s, inner + [c]) == State(s.out + (outer + inner) + [c], false)
  {
    hide Write, LeadingNewlines, Newlines;
    if outer == "" {
      WriteUnindented(s, inner + [c]);
      AfterInk(outer, s, inner, c);
      Regroup(s.out, "", "", inner, c);
      assert "" + inner == inner;
    } else if '\n' !in inner {
      WriteInLine(outer, s, inner + [c]);
      Regroup(s.out, outer, "", inner, c);
      assert outer + "" == outer && "" + inner == inner;
      assert s.out + outer + (inner + [c]) == s.out + (outer + inner) + [c];
    } else {
      NewlinesIndented(outer, inner, s, c);
    }
  }

  lemma NestedChar(outer: string, inner: string, s: State, c: char)
    requires AddsUp(outer, inner)
    ensures Write(outer, s, if c == '\n' then "\n" else (if s.needsIndent then inner else "") + [c])
            == if c == '\n' then State(s.out + "\n", true)
               else State(s.out + (if s.needsIndent then outer + inner else "") + [c], false)
  {
    if c == '\n' {
      WriteNewlines(outer, s, "\n");
    } else if s.needsIndent {
      NestedInk(outer, inner, s, c);
    } else {
      WriteInLine(outer, s, "" + [c]);
      assert s.out + "" + ("" + [c]) == s.out + "" + [c];
    }
  }

  lemma {:induction false} NestingConcatenates(outer: string, inner: string, due: bool, text: string)
    requires AddsUp(outer, inner)
    ensures var through := Write(inner, State("", due), text);
            && Write(outer, State("", due), through.out) == Write(outer + inner, State("", due), text)
            && through.needsIndent == Write(outer + inner, State("", due), text).needsIndent
  {
    if text != "" {
      var front, c := text[..|text| - 1], text[|text| - 1];
      NestingConcatenates(outer, inner, due, front);
      var t := Write(inner, State("", due), front);
      var s := Write(outer, State("", due), t.out);
      var more := if c == '\n' then "\n" else (if t.needsIndent then inner else "") + [c];
      CuttingDoesNotMatter(outer, State("", due), t.out, more);
      assert t.out + more == Write(inner, State("", due), text).out by {
        assert t.out + (if t.needsIndent then inner else "") + [c]
            == t.out + ((if t.needsIndent then inner else "") + [c]);
      }
      NestedChar(outer, inner, s, c);
    }
  }

  /** Every character is written, and a line that gets text is indented. */
  lemma {:induction false} WriteGrows(indentation: string, s: State, text: string)
    ensures |Write(indentation, s, text).out| >= |s.out| + |text|
    ensures Newlines(text) && s.needsIndent ==> Write(indentation, s, text).needsIndent
    ensures !Newlines(text) && s.needsIndent
            ==> |Write(indentation, s, text).out| >= |s.out| + |text| + |indentation|
  {
    if text != "" {
      WriteGrows(indentation, s, text[..|text| - 1]);
    }
  }

  /** Text on two lines is indented twice. */
  lemma TwoLinesGrow(indentation: string, s: State, first: string, second: string)
    requires s.needsIndent && !Newlines(first) && !Newlines(second)
    ensures |Write(indentation, s, first + "\n" + second).out|
            >= |s.out| + |first| + 1 + |second| + 2 * |indentation|
  {
    var s1 := Write(indentation, s, first);
    WriteGrows(indentation, s, first);
    NewlineEnds(indentation, s, first);
    WriteGrows(indentation, State(s1.out + "\n", true), second);
    CuttingDoesNotMatter(indentation, s, first + "\n", second);
  }

  /** Newlines and a text with something else in it do not trade places. */
  lemma NoSwap(out: string, newlines: string, ink: string, rest: string)
    requires Newlines(newlines) && newlines != "" && !Newlines(ink)
    ensures out + newlines + ink + rest != out + ink + newlines + rest
  {
    var j, k := LeadingNewlines(ink), |newlines|;
    assert j < |ink| && ink[j] != '\n';
    var at := |out| + j;
    assert (out + ink + newlines + rest)[at] == ink[j];
    assert (out + newlines + ink + rest)[at] == (if j < k then newlines[j] else ink[j - k]);
    if j >= k {
      assert ink[..j][j - k] == '\n';
    }
  }

  /** An inner indentation with text on two lines is indented twice. */
  lemma TwoLinesDiffer(outer: string, inner: string, s: State, c: char, i: nat)
    requires outer != "" && c != '\n' && s.needsIndent
    requires LeadingNewlines(inner) < i < |inner| && inner[i] == '\n'
    ensures Write(outer, s, inner + [c]).out != s.out + (outer + inner) + [c]
  {
    hide Write;
    var first, second := inner[..i], inner[i + 1..] + [c];
    assert first[LeadingNewlines(inner)] != '\n' && second[|second| - 1] == c;
    TwoLinesGrow(outer, s, first, second);
    assert first + "\n" + second == inner + [c];
  }

  /** Newlines in front of the inner indentation come before the outer one. */
  lemma NewlinesDiffer(outer: string, inner: string, s: State, c: char)
    requires !Newlines(outer) && '\n' in inner && '\n' !in inner[LeadingNewlines(inner)..]
    requires c != '\n' && s.needsIndent
    ensures Write(outer, s, inner + [c]).out != s.out + (outer + inner) + [c]
  {
    hide Write, LeadingNewlines, Newlines;
    var k := LeadingNewlines(inner);
    var newlines, line := inner[..k], inner[k..];
    assert newlines + line == inner;
    NewlinesThenLine(outer, s, newlines, line + [c]);
    NoSwap(s.out, newlines, outer, line + [c]);
    Regroup(s.out, outer, newlines, line, c);
    assert s.out + outer + newlines == s.out + (outer + newlines);
  }

  /** When two indentations do not add up, the first character of a line shows it. */
  lemma NestedInkDiffers(outer: string, inner: string, s: State, c: char)
    requires !AddsUp(outer, inner) && c != '\n' && s.needsIndent
    ensures Write(outer, s, inner + [c]).out != s.out + (outer + inner) + [c]
  {
    hide Write, LeadingNewlines, Newlines;
    var k := LeadingNewlines(inner);
    if '\n' in inner[k..] {
      var i :| k <= i < |inner| && inner[i] == '\n';
      TwoLinesDiffer(outer, inner, s, c, i);
    } else {
      NewlinesDiffer(outer, inner, s, c);
    }
  }

  /** On a text of a newline and a letter, indentations that do not add up write something else. */
  lemma NestingFails(outer: string, inner: string, due: bool)
    requires !AddsUp(outer, inner)
    ensures Write(outer, State("", due), Write(inner, State("", due), "\nb").out).out
            != Write(outer + inner, State("", due), "\nb").out
  {
    var s, s1 := State("", due), State("\n", true);
    assert "" + "\n" == "\n" && "\n" + "b" == "\nb";
    WriteNewlines(inner, s, "\n");
    WriteNewlines(outer, s, "\n");
    WriteNewlines(outer + inner, s, "\n");
    CuttingDoesNotMatter(inner, s, "\n", "b");
    CuttingDoesNotMatter(outer + inner, s, "\n", "b");
    WriteInLine(inner, s1, "b");
    WriteInLine(outer + inner, s1, "b");
    CuttingDoesNotMatter(outer, s, "\n", inner + ['b']);
    assert "\n" + inner + "b" == "\n" + (inner + ['b']);
    NestedInkDiffers(outer, inner, s1, 'b');
  }

  /** Writing through an indenter that itself writes to an indenter is, for every text, the
      same as writing through one with both indentations exactly when they add up. */
  lemma NestingExact(outer: string, inner: string, due: bool)
    ensures AddsUp(outer, inner) <==>
            forall text :: Write(outer, State("", due), Write(inner, State("", due), text).out).out
                           == Write(outer + inner, State("", due), text).out
  {
    if AddsUp(outer, inner) {
      forall text
        ensures Write(outer, State("", due), Write(inner, State("", due), text).out).out
                == Write(outer + inner, State("", due), text).out
      {
        NestingConcatenates(outer, inner, due, text);
      }
    } else {
      NestingFails(outer, inner, due);
    }
  }

  /** The indenter as it runs: it works line by line and leaves the end of a line open. */
  class Indented {
    var out: string
    var needsIndent: bool
    var indentation: string

    ghost function Now(): State
      reads this
    {
      State(out, needsIndent)
    }

    constructor ()
      ensures Now() == State("", true) && indentation == DEFAULT_INDENTATION
    {
      out, needsIndent, indentation := "", true, DEFAULT_INDENTATION;
    }

    method WithStr(indentation: string)
      modifies this`indentation
      ensures this.indentation == indentation
    {
      this.indentation := indentation;
    }

    method SkipInitial()
      modifies this`needsIndent
      ensures Now() == State(old(out), false)
    {
      needsIndent := false;
    }

    /** A line is not indented unless there is text on it. */
    method WriteLine(line: string)
      requires '\n' !in line
      modifies this`out, this`needsIndent
      ensures Now() == Write(indentation, old(Now()), line)
    {
      LineOnly(indentation, Now(), line);
      if needsIndent {
        if line == "" {
          return;
        }
        out := out + indentation;
        needsIndent := false;
      }
      out := out + line;
    }

    method WriteStr(s: string)
      modifies this`out, this`needsIndent
      ensures Now() == Write(indentation, old(Now()), s)
    {
      var lines := Lines(s);
      JoinLines(s);
      assert lines[..|lines|] == lines;
      ghost var before := Now();
      assert Write(indentation, before, "") == before;
      hide Write, Join, Lines;
      for i := 0 to |lines|
        invariant Now() == Write(indentation, before, if i == 0 then "" else Join(lines[..i]))
      {
        ghost var done := if i == 0 then "" else Join(lines[..i]);
        JoinNext(lines, i);
        CuttingDoesNotMatter(indentation, before, done + "\n", lines[i]);
        NewlineEnds(indentation, before, done);
        if i > 0 {
          out := out + "\n";
          needsIndent := true;
        }
        WriteLine(lines[i]);
      }
    }
  }

  lemma NewlineEnds(indentation: string, s: State, done: string)
    ensures Write(indentation, s, done + "\n") == State(Write(indentation, s, done).out + "\n", true)
  {
    assert (done + "\n")[..|done|] == done;
  }

  lemma LineOnly(indentation: string, s: State, line: string)
    requires '\n' !in line
    ensures Write(indentation, s, line) ==
            if line == "" then s else State(s.out + (if s.needsIndent then indentation else "") + line, false)
  {
    if line != "" {
      WriteInLine(indentation, s, line);
    }
  }
}
