/** What sharding promises. */
module PartitionLaws {
  import opened DecimalText
  import opened PartitionBuilder
  import opened Partition

  /** The place a test takes, or would take. */
  function Place(b: Builder, suites: seq<seq<TestCase>>, k: nat, i: nat): nat
    requires k < |suites| && i < |suites[k]|
  {
    var ignored := suites[k][i].ignored;
    StartOf(b, suites, k, ignored) + PlaceIn(suites[k], i, ignored)
  }

  lemma {:induction false} CasePartitioned(hash: NameHash, b: Builder, cases: seq<TestCase>, from: nat,
                                           fromIgnored: nat, i: nat)
    requires b.Valid() && i < |cases|
    ensures |Partitioned(hash, b, cases, from, fromIgnored)| == |cases|
    ensures Partitioned(hash, b, cases, from, fromIgnored)[i] ==
            Decide(hash, b, cases[i],
                   (if cases[i].ignored then fromIgnored else from) + PlaceIn(cases, i, cases[i].ignored))
  {
    hide Decide, Places;
    var n := |cases| - 1;
    if i < n {
      CasePartitioned(hash, b, cases[..n], from, fromIgnored, i);
      assert cases[..n][..i] == cases[..i];
    } else if n > 0 {
      CasePartitioned(hash, b, cases[..n], from, fromIgnored, 0);
    }
  }

  /** Every test is decided at its place. */
  lemma ListPartitioned(hash: NameHash, b: Builder, suites: seq<seq<TestCase>>, k: nat, i: nat)
    requires b.Valid() && k < |suites| && i < |suites[k]|
    ensures var out := PartitionedList(hash, b, suites);
            |out| == |suites| && |out[k]| == |suites[k]|
            && out[k][i] == Decide(hash, b, suites[k][i], Place(b, suites, k, i))
  {
    PartitionedLength(hash, b, suites);
    PartitionedAt(hash, b, suites, k);
    CasePartitioned(hash, b, suites[k], StartOf(b, suites, k, false), StartOf(b, suites, k, true), i);
    hide PartitionedList, Partitioned, Decide, StartOf, PlaceIn;
  }

  lemma {:induction false} SamePlacesBefore(b: Builder, b': Builder, suites: seq<seq<TestCase>>, ignored: bool)
    requires b.kind == b'.kind
    ensures PlacesBefore(b, suites, ignored) == PlacesBefore(b', suites, ignored)
  {
    if suites != [] {
      SamePlacesBefore(b, b', suites[..|suites| - 1], ignored);
    }
  }

  /** Run with every shard of the same partition, a test that matches is kept by exactly one
      of them, and everything else is as it was in all of them. */
  lemma ExactlyOneShard(hash: NameHash, kind: Kind, total: nat, suites: seq<seq<TestCase>>, k: nat, i: nat)
    requires 1 <= total <= U64_MAX && k < |suites| && i < |suites[k]|
    ensures var c := suites[k][i];
            var place := Place(Builder(kind, 1, total), suites, k, i);
            var shard := 1 + ShardOf(hash, Builder(kind, 1, total), c.name, place);
            && 1 <= shard <= total
            && forall s | 1 <= s <= total ::
                 var out := PartitionedList(hash, Builder(kind, s, total), suites);
                 && |out| == |suites| && |out[k]| == |suites[k]|
                 && out[k][i] == if c.filterMatch.Matches? && s != shard
                                 then c.(filterMatch := Mismatch(Partition)) else c
  {
    var b1, c := Builder(kind, 1, total), suites[k][i];
    var place := Place(b1, suites, k, i);
    assert ShardOf(hash, b1, c.name, place) < total;
    forall s | 1 <= s <= total
      ensures var out := PartitionedList(hash, Builder(kind, s, total), suites);
              && |out| == |suites| && |out[k]| == |suites[k]|
              && out[k][i] == if c.filterMatch.Matches? && s != 1 + ShardOf(hash, b1, c.name, place)
                              then c.(filterMatch := Mismatch(Partition)) else c
    {
      var b := Builder(kind, s, total);
      ListPartitioned(hash, b, suites, k, i);
      SamePlacesBefore(b, b1, suites[..k], c.ignored);
      hide PartitionedList, PlacesBefore, PlaceIn, Mod;
    }
    hide PartitionedList, Place, ShardOf;
  }

  /** How many of the first `n` places a round-robin shard takes. */
  function RoundRobin(shard: nat, total: nat, n: nat): nat
    requires total > 0
  {
    if n == 0 then 0 else RoundRobin(shard, total, n - 1) + if (n - 1) % total == shard then 1 else 0
  }

  lemma {:induction false} RoundRobinShare(shard: nat, total: nat, n: nat)
    requires shard < total
    ensures RoundRobin(shard, total, n) == n / total + if shard < n % total then 1 else 0
  {
    if n == 0 {
      Remainder(0, 0, total);
    } else {
      RoundRobinShare(shard, total, n - 1);
      NextRemainder(n - 1, total);
    }
  }

  /** How many of the tests that take a place a shard takes. */
  function Taken(hash: NameHash, b: Builder, cases: seq<TestCase>, ignored: bool, from: nat): nat
    requires b.Valid()
  {
    if cases == [] then 0
    else
      var init, c := cases[..|cases| - 1], cases[|cases| - 1];
      Taken(hash, b, init, ignored, from)
      + if c.ignored == ignored && Counted(c) && InShard(hash, b, c.name, from + Places(init, ignored)) then 1 else 0
  }

  function TakenOfAll(hash: NameHash, b: Builder, suites: seq<seq<TestCase>>, ignored: bool): nat
    requires b.Valid()
  {
    if suites == [] then 0
    else
      var init, cases := suites[..|suites| - 1], suites[|suites| - 1];
      TakenOfAll(hash, b, init, ignored) + Taken(hash, b, cases, ignored, PlacesBefore(b, init, ignored))
  }

  lemma {:induction false} TakenIsRoundRobin(hash: NameHash, b: Builder, cases: seq<TestCase>, ignored: bool, from: nat)
    requires b.Valid() && b.kind != Hash
    ensures RoundRobin(b.shard - 1, b.total, from) + Taken(hash, b, cases, ignored, from)
            == RoundRobin(b.shard - 1, b.total, from + Places(cases, ignored))
  {
    if cases != [] {
      TakenIsRoundRobin(hash, b, cases[..|cases| - 1], ignored, from);
    }
  }

  /** A counted shard takes an even share of each suite: no shard takes more than one test
      more than another. */
  lemma CountSharesAreEven(hash: NameHash, b: Builder, b': Builder, cases: seq<TestCase>, ignored: bool)
    requires b.Valid() && b'.Valid() && b.kind == b'.kind == Count && b.total == b'.total
    ensures Taken(hash, b, cases, ignored, 0) <= Taken(hash, b', cases, ignored, 0) + 1
    ensures Places(cases, ignored) / b.total <= Taken(hash, b, cases, ignored, 0)
            <= Places(cases, ignored) / b.total + 1
  {
    TakenIsRoundRobin(hash, b, cases, ignored, 0);
    TakenIsRoundRobin(hash, b', cases, ignored, 0);
    RoundRobinShare(b.shard - 1, b.total, Places(cases, ignored));
    RoundRobinShare(b'.shard - 1, b.total, Places(cases, ignored));
  }

  lemma {:induction false} SliceIsRoundRobin(hash: NameHash, b: Builder, suites: seq<seq<TestCase>>, ignored: bool)
    requires b.Valid() && b.kind == Slice
    ensures TakenOfAll(hash, b, suites, ignored) == RoundRobin(b.shard - 1, b.total, PlacesBefore(b, suites, ignored))
  {
    if suites != [] {
      var init := suites[..|suites| - 1];
      SliceIsRoundRobin(hash, b, init, ignored);
      TakenIsRoundRobin(hash, b, suites[|suites| - 1], ignored, PlacesBefore(b, init, ignored));
      hide Taken, Places, RoundRobin;
    }
  }

  /** A slice takes an even share of the whole test list, however the tests are spread over
      the suites. */
  lemma SliceSharesAreEven(hash: NameHash, b: Builder, b': Builder, suites: seq<seq<TestCase>>, ignored: bool)
    requires b.Valid() && b'.Valid() && b.kind == b'.kind == Slice && b.total == b'.total
    ensures TakenOfAll(hash, b, suites, ignored) <= TakenOfAll(hash, b', suites, ignored) + 1
  {
    var n := PlacesBefore(b, suites, ignored);
    SamePlacesBefore(b, b', suites, ignored);
    SliceIsRoundRobin(hash, b, suites, ignored);
    SliceIsRoundRobin(hash, b', suites, ignored);
    RoundRobinShare(b.shard - 1, b.total, n);
    RoundRobinShare(b'.shard - 1, b.total, n);
  }

  /** The tests of one sort that a suite still runs. */
  function Running(cases: seq<TestCase>, ignored: bool): nat {
    if cases == [] then 0
    else
      var c := cases[|cases| - 1];
      Running(cases[..|cases| - 1], ignored) + if c.ignored == ignored && c.filterMatch.Matches? then 1 else 0
  }

  /** When nothing has passed already, the tests a shard takes are those it runs. */
  lemma {:induction false} TakenAreRun(hash: NameHash, b: Builder, cases: seq<TestCase>, ignored: bool, from: nat,
                                       fromIgnored: nat)
    requires b.Valid() && forall c <- cases :: c.filterMatch != Mismatch(RerunAlreadyPassed)
    ensures Running(Partitioned(hash, b, cases, from, fromIgnored), ignored)
            == Taken(hash, b, cases, ignored, if ignored then fromIgnored else from)
  {
    if cases != [] {
      var init, c := cases[..|cases| - 1], cases[|cases| - 1];
      var place := (if c.ignored then fromIgnored else from) + Places(init, c.ignored);
      assert c in cases;
      TakenAreRun(hash, b, init, ignored, from, fromIgnored);
      RunningPush(Partitioned(hash, b, init, from, fromIgnored), Decide(hash, b, c, place), ignored);
      DecideRuns(hash, b, c, place);
      hide Running, InShard, Places, Counted, Decide;
    }
  }

  lemma DecideRuns(hash: NameHash, b: Builder, c: TestCase, place: nat)
    requires b.Valid() && c.filterMatch != Mismatch(RerunAlreadyPassed)
    ensures Decide(hash, b, c, place).ignored == c.ignored
    ensures Decide(hash, b, c, place).filterMatch.Matches? <==> Counted(c) && InShard(hash, b, c.name, place)
  {
    hide InShard;
  }

  lemma RunningPush(cases: seq<TestCase>, c: TestCase, ignored: bool)
    ensures Running(cases + [c], ignored)
            == Running(cases, ignored) + if c.ignored == ignored && c.filterMatch.Matches? then 1 else 0
  {
    assert (cases + [c])[..|cases|] == cases;
  }

  /** The same tests, some of which may have passed by now. */
  predicate Rerun(before: seq<TestCase>, after: seq<TestCase>) {
    && |before| == |after|
    && forall i | 0 <= i < |before| ::
         after[i] == before[i]
         || (before[i].filterMatch.Matches? && after[i] == before[i].(filterMatch := Mismatch(RerunAlreadyPassed)))
  }

  predicate RerunAll(before: seq<seq<TestCase>>, after: seq<seq<TestCase>>) {
    |before| == |after| && forall j | 0 <= j < |before| :: Rerun(before[j], after[j])
  }

  lemma {:induction false} RerunKeepsPlaces(before: seq<TestCase>, after: seq<TestCase>, ignored: bool)
    requires Rerun(before, after)
    ensures Places(after, ignored) == Places(before, ignored)
  {
    if before != [] {
      RerunKeepsPlaces(before[..|before| - 1], after[..|after| - 1], ignored);
    }
  }

  lemma {:induction false} RerunKeepsPlacesBefore(b: Builder, before: seq<seq<TestCase>>, after: seq<seq<TestCase>>,
                                                  ignored: bool)
    requires RerunAll(before, after)
    ensures PlacesBefore(b, after, ignored) == PlacesBefore(b, before, ignored)
  {
    if before != [] {
      RerunKeepsPlacesBefore(b, before[..|before| - 1], after[..|after| - 1], ignored);
      RerunKeepsPlaces(before[|before| - 1], after[|after| - 1], ignored);
      hide Places, Rerun;
    }
  }

  lemma RerunKeepsPlace(b: Builder, before: seq<seq<TestCase>>, after: seq<seq<TestCase>>, k: nat, i: nat)
    requires RerunAll(before, after) && k < |before| && i < |before[k]| == |after[k]|
    ensures Rerun(before[k], after[k]) && |before| == |after|
    ensures Place(b, after, k, i) == Place(b, before, k, i)
  {
    var ignored := before[k][i].ignored;
    assert after[k][i].ignored == ignored;
    assert Rerun(before[k][..i], after[k][..i]) && RerunAll(before[..k], after[..k]);
    RerunKeepsPlaces(before[k][..i], after[k][..i], ignored);
    RerunKeepsPlacesBefore(b, before[..k], after[..k], ignored);
    hide PlacesBefore, Places;
  }

  /** A rerun finds every test that is still outstanding in the shard it was in, and leaves
      the tests that have passed as they are. */
  lemma RerunKeepsShards(hash: NameHash, b: Builder, before: seq<seq<TestCase>>, after: seq<seq<TestCase>>, k: nat,
                         i: nat)
    requires b.Valid() && RerunAll(before, after) && k < |before| && i < |before[k]| == |after[k]|
    ensures var was, now := PartitionedList(hash, b, before), PartitionedList(hash, b, after);
            && |was| == |now| == |before| && |was[k]| == |now[k]| == |before[k]|
            && now[k][i] == if after[k][i] == before[k][i] then was[k][i] else after[k][i]
  {
    hide RerunAll, PartitionedList, Place, InShard;
    RerunKeepsPlace(b, before, after, k, i);
    ListPartitioned(hash, b, before, k, i);
    ListPartitioned(hash, b, after, k, i);
  }

  /** The tests of one sort that take a place, as `shown` has them. */
  function Selected(cases: seq<TestCase>, shown: seq<TestCase>, ignored: bool): seq<TestCase>
    requires |cases| == |shown|
  {
    if cases == [] then []
    else
      var n := |cases| - 1;
      Selected(cases[..n], shown[..n], ignored)
      + if cases[n].ignored == ignored && Counted(cases[n]) then [shown[n]] else []
  }

  lemma {:induction false} SelectedPlaces(cases: seq<TestCase>, ignored: bool)
    ensures Places(Selected(cases, cases, ignored), ignored) == Places(cases, ignored)
            == |Selected(cases, cases, ignored)|
  {
    if cases != [] {
      var n := |cases| - 1;
      SelectedPlaces(cases[..n], ignored);
      var init := Selected(cases[..n], cases[..n], ignored);
      assert (init + [cases[n]])[..|init|] == init;
      assert init + [] == init;
    }
  }

  lemma PartitionedPush(hash: NameHash, b: Builder, cases: seq<TestCase>, c: TestCase, from: nat, fromIgnored: nat)
    requires b.Valid()
    ensures Partitioned(hash, b, cases + [c], from, fromIgnored) ==
            Partitioned(hash, b, cases, from, fromIgnored)
            + [Decide(hash, b, c, (if c.ignored then fromIgnored else from) + Places(cases, c.ignored))]
  {
    assert (cases + [c])[..|cases|] == cases;
  }

  /** Tests of the other sort, and tests that other filters have dropped, have no influence:
      the outcome is that of the selected tests by themselves. */
  lemma {:induction false} OnlySelectedMatter(hash: NameHash, b: Builder, cases: seq<TestCase>, ignored: bool,
                                              from: nat, fromIgnored: nat)
    requires b.Valid()
    ensures Selected(cases, Partitioned(hash, b, cases, from, fromIgnored), ignored)
            == Partitioned(hash, b, Selected(cases, cases, ignored), from, fromIgnored)
  {
    hide *;
    if cases == [] {
      NothingSelected(hash, b, ignored, from, fromIgnored);
    } else {
      var init, c := cases[..|cases| - 1], cases[|cases| - 1];
      var sel := Selected(init, init, ignored);
      var place := (if c.ignored then fromIgnored else from) + Places(init, c.ignored);
      assert cases == init + [c];
      OnlySelectedMatter(hash, b, init, ignored, from, fromIgnored);
      PartitionedPush(hash, b, init, c, from, fromIgnored);
      PartitionedPush(hash, b, sel, c, from, fromIgnored);
      SelectedPlaces(init, ignored);
      SelectedPush(init, Partitioned(hash, b, init, from, fromIgnored), c, Decide(hash, b, c, place), ignored);
      SelectedPush(init, init, c, c, ignored);
    }
  }

  lemma NothingSelected(hash: NameHash, b: Builder, ignored: bool, from: nat, fromIgnored: nat)
    requires b.Valid()
    ensures Partitioned(hash, b, [], from, fromIgnored) == []
    ensures Selected([], [], ignored) == []
  {
  }

  lemma SelectedPush(cases: seq<TestCase>, shown: seq<TestCase>, c: TestCase, d: TestCase, ignored: bool)
    requires |cases| == |shown|
    ensures Selected(cases + [c], shown + [d], ignored) ==
            if c.ignored == ignored && Counted(c) then Selected(cases, shown, ignored) + [d]
            else Selected(cases, shown, ignored)
  {
    assert (cases + [c])[..|cases|] == cases && (shown + [d])[..|shown|] == shown;
    assert Selected(cases, shown, ignored) + [] == Selected(cases, shown, ignored);
  }
}
