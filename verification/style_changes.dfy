/** Style changes are as few as they can be. */
module StyleChanges {
  import opened LineLayout
  import opened Terminal

  function Length(out: Rev<Item>): nat {
    match out
    case Nil => 0
    case Snoc(init, _) => 1 + Length(init)
  }

  /** Any further output. */
  function Append(out: Rev<Item>, more: Rev<Item>): Rev<Item> {
    match more
    case Nil => out
    case Snoc(init, item) => Snoc(Append(out, init), item)
  }

  lemma {:induction false} StylesOnLength(out: Rev<Item>, styles: seq<Style>, from: nat)
    requires from <= |styles|
    ensures Length(StylesOn(out, styles, from)) == Length(out) + |styles| - from
  {
    if |styles| > from {
      StylesOnLength(out, styles[..|styles| - 1], from);
    }
  }

  /** Without a reset styles can only be added, one at a time; with one they have to be
      built up again. */
  lemma {:induction false} ChangesNeeded(out: Rev<Item>, more: Rev<Item>)
    ensures var e, d := Shown(out).styles, Shown(Append(out, more)).styles;
            Length(more) >= if e <= d then |d| - |e| else 1 + |d|
    ensures Length(Append(out, more)) == Length(out) + Length(more)
  {
    if more.Snoc? {
      ChangesNeeded(out, more.init);
    }
  }

  /** Whatever other output would bring the terminal from the styles it shows to the wanted
      ones is at least as long as the change that is written. */
  lemma StyleChangeIsMinimal(out: Rev<Item>, more: Rev<Item>)
    ensures var e, d := Shown(out).styles, Shown(Append(out, more)).styles;
            && Length(StyleDiff(out, e, d)) <= Length(Append(out, more))
            && Shown(StyleDiff(out, e, d)).styles == d
  {
    var e, d := Shown(out).styles, Shown(Append(out, more)).styles;
    ChangesNeeded(out, more);
    if e <= d {
      StylesOnLength(out, d, |e|);
      StylesOnShown(out, d, |e|);
    } else {
      StylesOnLength(Snoc(out, Reset), d, 0);
      StylesOnShown(Snoc(out, Reset), d, 0);
    }
  }
}
