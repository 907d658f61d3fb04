/** Folding an expression with a work stack and a value stack, instead of recursion. */
module Collapse {
  import opened Wrappers

  /** One layer of an expression, with a value in place of each operand. */
  datatype Frame<+L, +A> =
    | Not(a: A)
    | Union(a: A, b: A)
    | Intersection(a: A, b: A)
    | Difference(a: A, b: A)
    | Parens(a: A)
    | Set(leaf: L)

  /** An expression as the collapse driver sees it. */
  datatype Tree<+L> = Node(frame: Frame<L, Tree<L>>) {
    function Size(): nat {
      match frame
      case Set(_) => 1
      case Not(a) => 1 + a.Size()
      case Parens(a) => 1 + a.Size()
      case Union(a, b) => 1 + a.Size() + b.Size()
      case Intersection(a, b) => 1 + a.Size() + b.Size()
      case Difference(a, b) => 1 + a.Size() + b.Size()
    }
  }

  /** Collapses one layer; closures that push errors or set flags thread a state. */
  type Algebra<!L, !A, !S> = (S, Frame<L, A>) -> (S, A)

  /** The recursive fold: operands first, the left one before the right one. */
  function Fold<L, A, S>(t: Tree<L>, alg: Algebra<L, A, S>, s: S): (S, A) {
    match t.frame
    case Set(l) => alg(s, Set(l))
    case Not(x) => var (s1, a) := Fold(x, alg, s); alg(s1, Not(a))
    case Parens(x) => var (s1, a) := Fold(x, alg, s); alg(s1, Parens(a))
    case Union(x, y) =>
      var (s1, a) := Fold(x, alg, s);
      var (s2, b) := Fold(y, alg, s1);
      alg(s2, Union(a, b))
    case Intersection(x, y) =>
      var (s1, a) := Fold(x, alg, s);
      var (s2, b) := Fold(y, alg, s1);
      alg(s2, Intersection(a, b))
    case Difference(x, y) =>
      var (s1, a) := Fold(x, alg, s);
      var (s2, b) := Fold(y, alg, s1);
      alg(s2, Difference(a, b))
  }

  // ----- the driver -----

  datatype Unit = Hole

  /** A seed still to be expanded, or a layer whose operands are being computed. */
  datatype Task<+L> = PreVisit(seed: Tree<L>) | PostVisit(shape: Frame<L, Unit>)

  function Erase<L, A>(f: Frame<L, A>): Frame<L, Unit> {
    match f
    case Set(l) => Set(l)
    case Not(_) => Not(Hole)
    case Parens(_) => Parens(Hole)
    case Union(_, _) => Union(Hole, Hole)
    case Intersection(_, _) => Intersection(Hole, Hole)
    case Difference(_, _) => Difference(Hole, Hole)
  }

  /** The operands in the order `map_frame` hands them out: the right one first. */
  function Seeds<L>(f: Frame<L, Tree<L>>): seq<Task<L>> {
    match f
    case Set(_) => []
    case Not(a) => [PreVisit(a)]
    case Parens(a) => [PreVisit(a)]
    case Union(a, b) => [PreVisit(b), PreVisit(a)]
    case Intersection(a, b) => [PreVisit(b), PreVisit(a)]
    case Difference(a, b) => [PreVisit(b), PreVisit(a)]
  }

  function Arity<L>(f: Frame<L, Unit>): nat {
    match f
    case Set(_) => 0
    case Not(_) => 1
    case Parens(_) => 1
    case _ => 2
  }

  /** Fills the operands from the top of the value stack, the right one first. */
  function Refill<L, A>(f: Frame<L, Unit>, vals: seq<A>): (Frame<L, A>, seq<A>)
    requires |vals| >= Arity(f)
  {
    var n := |vals|;
    match f
    case Set(l) => (Set(l), vals)
    case Not(_) => (Not(vals[n - 1]), vals[..n - 1])
    case Parens(_) => (Parens(vals[n - 1]), vals[..n - 1])
    case Union(_, _) => (Union(vals[n - 2], vals[n - 1]), vals[..n - 2])
    case Intersection(_, _) => (Intersection(vals[n - 2], vals[n - 1]), vals[..n - 2])
    case Difference(_, _) => (Difference(vals[n - 2], vals[n - 1]), vals[..n - 2])
  }

  /** What the remaining tasks (the last one is on top) come to, by the recursive fold. */
  ghost function Finish<L, A, S>(tasks: seq<Task<L>>, vals: seq<A>, alg: Algebra<L, A, S>, s: S): Option<(S, seq<A>)> {
    if tasks == [] then Some((s, vals))
    else
      var rest := tasks[..|tasks| - 1];
      match tasks[|tasks| - 1]
      case PreVisit(t) => var (s1, v) := Fold(t, alg, s); Finish(rest, vals + [v], alg, s1)
      case PostVisit(f) =>
        if |vals| < Arity(f) then None
        else
          var (frame, left) := Refill(f, vals);
          var (s1, v) := alg(s, frame);
          Finish(rest, left + [v], alg, s1)
  }

  lemma FinishPre<L, A, S>(rest: seq<Task<L>>, t: Tree<L>, vals: seq<A>, alg: Algebra<L, A, S>, s: S)
    ensures var (s1, v) := Fold(t, alg, s);
            Finish(rest + [PreVisit(t)], vals, alg, s) == Finish(rest, vals + [v], alg, s1)
  {
    assert (rest + [PreVisit(t)])[..|rest|] == rest;
  }

  lemma FinishPost<L, A, S>(rest: seq<Task<L>>, f: Frame<L, Unit>, vals: seq<A>, alg: Algebra<L, A, S>, s: S)
    requires |vals| >= Arity(f)
    ensures var (frame, left) := Refill(f, vals);
            var (s1, v) := alg(s, frame);
            Finish(rest + [PostVisit(f)], vals, alg, s) == Finish(rest, left + [v], alg, s1)
  {
    assert (rest + [PostVisit(f)])[..|rest|] == rest;
  }

  /** Expanding one layer on the stack computes what folding the seed computes. */
  lemma ExpandStep<L, A, S>(rest: seq<Task<L>>, t: Tree<L>, vals: seq<A>, alg: Algebra<L, A, S>, s: S)
    ensures Finish(rest + [PostVisit(Erase(t.frame))] + Seeds(t.frame), vals, alg, s)
            == Finish(rest + [PreVisit(t)], vals, alg, s)
  {
    FinishPre(rest, t, vals, alg, s);
    hide Finish;
    var f := Erase(t.frame);
    var post := rest + [PostVisit(f)];
    match t.frame
    case Set(l) =>
      assert post + [] == post;
      FinishPost(rest, f, vals, alg, s);
    case Not(x) => UnaryStep(rest, f, x, vals, alg, s);
    case Parens(x) => UnaryStep(rest, f, x, vals, alg, s);
    case Union(x, y) => BinaryStep(rest, f, x, y, vals, alg, s);
    case Intersection(x, y) => BinaryStep(rest, f, x, y, vals, alg, s);
    case Difference(x, y) => BinaryStep(rest, f, x, y, vals, alg, s);
  }

  lemma UnaryStep<L, A, S>(rest: seq<Task<L>>, f: Frame<L, Unit>, x: Tree<L>, vals: seq<A>, alg: Algebra<L, A, S>, s: S)
    requires f == Not(Hole) || f == Parens(Hole)
    ensures var (s1, a) := Fold(x, alg, s);
            var (s2, v) := alg(s1, if f.Not? then Not(a) else Parens(a));
            Finish(rest + [PostVisit(f)] + [PreVisit(x)], vals, alg, s) == Finish(rest, vals + [v], alg, s2)
  {
    var (s1, a) := Fold(x, alg, s);
    FinishPre(rest + [PostVisit(f)], x, vals, alg, s);
    hide Finish;
    FinishPost(rest, f, vals + [a], alg, s1);
    assert (vals + [a])[..|vals|] == vals;
  }

  lemma BinaryStep<L, A, S>(rest: seq<Task<L>>, f: Frame<L, Unit>, x: Tree<L>, y: Tree<L>, vals: seq<A>,
                            alg: Algebra<L, A, S>, s: S)
    requires f == Union(Hole, Hole) || f == Intersection(Hole, Hole) || f == Difference(Hole, Hole)
    ensures var (s1, a) := Fold(x, alg, s);
            var (s2, b) := Fold(y, alg, s1);
            var (s3, v) := alg(s2,
              if f.Union? then Union(a, b) else if f.Intersection? then Intersection(a, b) else Difference(a, b));
            Finish(rest + [PostVisit(f)] + [PreVisit(y), PreVisit(x)], vals, alg, s)
            == Finish(rest, vals + [v], alg, s3)
  {
    var (s1, a) := Fold(x, alg, s);
    var (s2, b) := Fold(y, alg, s1);
    var post := rest + [PostVisit(f)];
    assert post + [PreVisit(y), PreVisit(x)] == post + [PreVisit(y)] + [PreVisit(x)];
    FinishPre(post + [PreVisit(y)], x, vals, alg, s);
    FinishPre(post, y, vals + [a], alg, s1);
    hide Finish;
    var full := vals + [a] + [b];
    FinishPost(rest, f, full, alg, s2);
    assert full[..|vals|] == vals && full[|vals|] == a && full[|vals| + 1] == b;
  }

  function Weight<L>(tasks: seq<Task<L>>): nat {
    if tasks == [] then 0
    else
      var top := tasks[|tasks| - 1];
      Weight(tasks[..|tasks| - 1]) + if top.PreVisit? then 2 * top.seed.Size() else 1
  }

  lemma WeightPush<L>(tasks: seq<Task<L>>, top: Task<L>)
    ensures Weight(tasks + [top]) == Weight(tasks) + if top.PreVisit? then 2 * top.seed.Size() else 1
  {
    assert (tasks + [top])[..|tasks|] == tasks;
  }

  lemma WeightExpand<L>(rest: seq<Task<L>>, t: Tree<L>)
    ensures Weight(rest + [PostVisit(Erase(t.frame))] + Seeds(t.frame)) < Weight(rest + [PreVisit(t)])
  {
    var post := rest + [PostVisit(Erase(t.frame))];
    WeightPush(rest, PreVisit(t));
    WeightPush(rest, PostVisit(Erase(t.frame)));

    var seeds := Seeds(t.frame);
    if |seeds| == 0 {
      assert post + seeds == post;
    } else if |seeds| == 1 {
      WeightPush(post, seeds[0]);
      assert post + seeds == post + [seeds[0]];
    } else {
      WeightPush(post, seeds[0]);
      WeightPush(post + [seeds[0]], seeds[1]);
      assert post + seeds == post + [seeds[0]] + [seeds[1]];
    }
  }

  /** The driver: a LIFO stack of tasks and a stack of values. It computes the recursive
      fold, with every operand in its own place and every state change in the same order. */
  method CollapseFrames<L, A, S>(root: Tree<L>, alg: Algebra<L, A, S>, s0: S) returns (s: S, out: A)
    ensures (s, out) == Fold(root, alg, s0)
  {
    var tasks: seq<Task<L>>, vals: seq<A> := [PreVisit(root)], [];
    s := s0;
    FinishPre([], root, vals, alg, s);
    ghost var (s1, v) := Fold(root, alg, s0);
    assert [] + [PreVisit(root)] == tasks && vals + [v] == [v];
    hide Finish, Weight;
    FinishEmpty([v], alg, s1);
    while tasks != []
      invariant Finish(tasks, vals, alg, s) == Some((s1, [v]))
      decreases Weight(tasks)
    {
      var top, rest := tasks[|tasks| - 1], tasks[..|tasks| - 1];
      assert tasks == rest + [top];
      match top
      case PreVisit(t) =>
        ExpandStep(rest, t, vals, alg, s);
        WeightExpand(rest, t);
        tasks := rest + [PostVisit(Erase(t.frame))] + Seeds(t.frame);
      case PostVisit(f) =>
        EnoughValues(rest, f, vals, alg, s);
        FinishPost(rest, f, vals, alg, s);
        WeightPush(rest, top);
        var (frame, left) := Refill(f, vals);
        var (s', a) := alg(s, frame);
        tasks, vals, s := rest, left + [a], s';
    }
    FinishEmpty(vals, alg, s);
    out := vals[|vals| - 1];
  }

  lemma FinishEmpty<L, A, S>(vals: seq<A>, alg: Algebra<L, A, S>, s: S)
    ensures Finish<L, A, S>([], vals, alg, s) == Some((s, vals))
  {
  }

  lemma EnoughValues<L, A, S>(rest: seq<Task<L>>, f: Frame<L, Unit>, vals: seq<A>, alg: Algebra<L, A, S>, s: S)
    requires Finish(rest + [PostVisit(f)], vals, alg, s) != None
    ensures |vals| >= Arity(f)
  {
  }

  // ----- visiting order -----

  function TreeLeaves<L>(t: Tree<L>): seq<L> {
    match t.frame
    case Set(l) => [l]
    case Not(a) => TreeLeaves(a)
    case Parens(a) => TreeLeaves(a)
    case Union(a, b) => TreeLeaves(a) + TreeLeaves(b)
    case Intersection(a, b) => TreeLeaves(a) + TreeLeaves(b)
    case Difference(a, b) => TreeLeaves(a) + TreeLeaves(b)
  }

  function FoldLeaves<L, S>(leaves: seq<L>, step: (S, L) -> S, s: S): S {
    if leaves == [] then s else FoldLeaves(leaves[1..], step, step(s, leaves[0]))
  }

  /** An algebra that only acts on leaves, as those that collect errors do. */
  function OnLeaves<L, S>(step: (S, L) -> S): Algebra<L, (), S> {
    (s: S, f: Frame<L, ()>) => (if f.Set? then step(s, f.leaf) else s, ())
  }

  lemma {:induction false} FoldLeavesConcat<L, S>(a: seq<L>, b: seq<L>, step: (S, L) -> S, s: S)
    ensures FoldLeaves(a + b, step, s) == FoldLeaves(b, step, FoldLeaves(a, step, s))
  {
    if a == [] {
      assert a + b == b;
    } else {
      assert (a + b)[1..] == a[1..] + b;
      FoldLeavesConcat(a[1..], b, step, step(s, a[0]));
    }
  }

  /** Collapsing with such an algebra visits the leaves once each, left to right. */
  lemma {:induction false} LeavesLeftToRight<L, S>(t: Tree<L>, step: (S, L) -> S, s: S)
    ensures Fold(t, OnLeaves(step), s).0 == FoldLeaves(TreeLeaves(t), step, s)
    decreases t.Size()
  {
    match t.frame
    case Set(l) => assert FoldLeaves([l], step, s) == FoldLeaves([], step, step(s, l));
    case Not(a) => LeavesLeftToRight(a, step, s);
    case Parens(a) => LeavesLeftToRight(a, step, s);
    case Union(a, b) => BinaryLeftToRight(a, b, step, s);
    case Intersection(a, b) => BinaryLeftToRight(a, b, step, s);
    case Difference(a, b) => BinaryLeftToRight(a, b, step, s);
  }

  lemma {:induction false} BinaryLeftToRight<L, S>(a: Tree<L>, b: Tree<L>, step: (S, L) -> S, s: S)
    ensures var s1 := Fold(a, OnLeaves(step), s).0;
            Fold(b, OnLeaves(step), s1).0 == FoldLeaves(TreeLeaves(a) + TreeLeaves(b), step, s)
    decreases a.Size() + b.Size()
  {
    LeavesLeftToRight(a, step, s);
    LeavesLeftToRight(b, step, Fold(a, OnLeaves(step), s).0);
    FoldLeavesConcat(TreeLeaves(a), TreeLeaves(b), step, s);
  }
}
