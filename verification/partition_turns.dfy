/** Which shard runs a test, told by counting the tests before it. */
module PartitionTurns {
  import opened PartitionBuilder
  import opened Partition
  import opened PartitionLaws

  /** A test that has its turn: it matches, or it has passed already. */
  predicate HasTurn(c: TestCase, ignored: bool) {
    c.ignored == ignored && (c.filterMatch == Matches || c.filterMatch == Mismatch(RerunAlreadyPassed))
  }

  /** Where the tests of one sort stand that have a turn before place `i` of suite `k`, in that
      suite and all suites before it. */
  function TurnsBefore(suites: seq<seq<TestCase>>, k: nat, i: nat, ignored: bool): set<(nat, nat)>
    requires k < |suites| ==> i <= |suites[k]|
  {
    set m, j | 0 <= m < |suites| && 0 <= j < |suites[m]| && (m < k || (m == k && j < i))
               && HasTurn(suites[m][j], ignored)
      :: (m, j)
  }

  lemma TurnNext(suites: seq<seq<TestCase>>, k: nat, i: nat, ignored: bool)
    requires k < |suites| && i < |suites[k]|
    ensures |TurnsBefore(suites, k, i + 1, ignored)|
            == |TurnsBefore(suites, k, i, ignored)| + if HasTurn(suites[k][i], ignored) then 1 else 0
  {
    var before, after := TurnsBefore(suites, k, i, ignored), TurnsBefore(suites, k, i + 1, ignored);
    assert after == before + if HasTurn(suites[k][i], ignored) then {(k, i)} else {};
    assert (k, i) !in before;
  }

  lemma SuiteNext(suites: seq<seq<TestCase>>, k: nat, ignored: bool)
    requires k < |suites|
    ensures TurnsBefore(suites, k + 1, 0, ignored) == TurnsBefore(suites, k, |suites[k]|, ignored)
  {
  }

  lemma NoTurnsYet(suites: seq<seq<TestCase>>, ignored: bool)
    ensures TurnsBefore(suites, 0, 0, ignored) == {}
  {
  }

  lemma PlacesNext(cases: seq<TestCase>, i: nat, ignored: bool)
    requires i < |cases|
    ensures Places(cases[..i + 1], ignored)
            == Places(cases[..i], ignored) + if HasTurn(cases[i], ignored) then 1 else 0
  {
    assert cases[..i + 1][..i] == cases[..i];
  }

  /** A slice counts on over all suites. */
  lemma {:induction false} SliceCounts(b: Builder, suites: seq<seq<TestCase>>, k: nat, i: nat, ignored: bool)
    requires b.kind == Slice && k <= |suites| && (if k < |suites| then i <= |suites[k]| else i == 0)
    ensures |TurnsBefore(suites, k, i, ignored)|
            == StartOf(b, suites, k, ignored) + if k < |suites| then Places(suites[k][..i], ignored) else 0
    decreases k, i
  {
    hide HasTurn, TurnsBefore, Places;
    if i > 0 {
      SliceCounts(b, suites, k, i - 1, ignored);
      TurnNext(suites, k, i - 1, ignored);
      PlacesNext(suites[k], i - 1, ignored);
    } else if k > 0 {
      SliceCounts(b, suites, k - 1, |suites[k - 1]|, ignored);
      SuiteNext(suites, k - 1, ignored);
      SuiteStart(b, suites, k - 1, ignored);
      NoPlaces(suites, k, ignored);
    } else {
      NoTurnsYet(suites, ignored);
      NoPlaces(suites, k, ignored);
    }
  }

  lemma NoPlaces(suites: seq<seq<TestCase>>, k: nat, ignored: bool)
    ensures k < |suites| ==> Places(suites[k][..0], ignored) == 0
  {
  }

  lemma SuiteStart(b: Builder, suites: seq<seq<TestCase>>, k: nat, ignored: bool)
    requires b.kind == Slice && k < |suites|
    ensures StartOf(b, suites, k + 1, ignored)
            == StartOf(b, suites, k, ignored) + Places(suites[k][..|suites[k]|], ignored)
  {
    assert suites[..k + 1][..k] == suites[..k] && suites[k][..|suites[k]|] == suites[k];
    hide Places;
  }

  /** A counted suite counts by itself. */
  lemma {:induction false} SuiteCounts(cases: seq<TestCase>, i: nat, ignored: bool)
    requires i <= |cases|
    ensures |TurnsBefore([cases], 0, i, ignored)| == Places(cases[..i], ignored)
  {
    if i == 0 {
      NoTurnsYet([cases], ignored);
    } else {
      SuiteCounts(cases, i - 1, ignored);
      TurnNext([cases], 0, i - 1, ignored);
      PlacesNext(cases, i - 1, ignored);
    }
    hide HasTurn, TurnsBefore;
  }

  /** The number that decides the shard of a test: how many tests of its sort have a turn
      before it, in its suite for a count and in the whole list for a slice, and for a hash
      what its name gives, whatever other tests there are. */
  function Turn(hash: NameHash, kind: Kind, suites: seq<seq<TestCase>>, k: nat, i: nat): nat
    requires k < |suites| && i < |suites[k]|
  {
    match kind
    case Count => |TurnsBefore([suites[k]], 0, i, suites[k][i].ignored)|
    case Hash => hash.of(suites[k][i].name)
    case Slice => |TurnsBefore(suites, k, i, suites[k][i].ignored)|
  }

  /** A test that matches is kept exactly if its turn comes to the shard; nothing else about
      it changes, nor anything about other tests. */
  lemma KeptExactly(hash: NameHash, b: Builder, suites: seq<seq<TestCase>>, k: nat, i: nat)
    requires b.Valid() && k < |suites| && i < |suites[k]|
    ensures var out, c := PartitionedList(hash, b, suites), suites[k][i];
            && |out| == |suites| && |out[k]| == |suites[k]|
            && out[k][i] == if c.filterMatch == Matches && Turn(hash, b.kind, suites, k, i) % b.total != b.shard - 1
                            then c.(filterMatch := Mismatch(Partition)) else c
  {
    var ignored := suites[k][i].ignored;
    ListPartitioned(hash, b, suites, k, i);
    if b.kind == Slice {
      SliceCounts(b, suites, k, i, ignored);
    } else if b.kind == Count {
      SuiteCounts(suites[k], i, ignored);
      assert StartOf(b, suites, k, ignored) == 0;
    }
    hide PartitionedList, TurnsBefore, Places, PlacesBefore;
  }

  // ----- suites by themselves -----

  /** Counting and hashing, the other suites have no influence. */
  lemma OtherSuitesDoNotMatter(hash: NameHash, b: Builder, suites: seq<seq<TestCase>>, k: nat)
    requires b.Valid() && b.kind != Slice && k < |suites|
    ensures |PartitionedList(hash, b, suites)| == |suites| && |PartitionedList(hash, b, [suites[k]])| == 1
    ensures PartitionedList(hash, b, suites)[k] == PartitionedList(hash, b, [suites[k]])[0]
  {
    PartitionedLength(hash, b, suites);
    PartitionedLength(hash, b, [suites[k]]);
    PartitionedAt(hash, b, suites, k);
    PartitionedAt(hash, b, [suites[k]], 0);
    hide PartitionedList, Partitioned, StartOf;
  }

  function Flat(suites: seq<seq<TestCase>>): seq<TestCase> {
    if suites == [] then [] else Flat(suites[..|suites| - 1]) + suites[|suites| - 1]
  }

  lemma {:induction false} FlatPlaces(b: Builder, suites: seq<seq<TestCase>>, ignored: bool)
    requires b.kind == Slice
    ensures Places(Flat(suites), ignored) == PlacesBefore(b, suites, ignored)
  {
    if suites != [] {
      FlatPlaces(b, suites[..|suites| - 1], ignored);
      PlacesConcat(Flat(suites[..|suites| - 1]), suites[|suites| - 1], ignored);
    }
  }

  lemma {:induction false} PlacesConcat(a: seq<TestCase>, c: seq<TestCase>, ignored: bool)
    ensures Places(a + c, ignored) == Places(a, ignored) + Places(c, ignored)
  {
    if c == [] {
      assert a + c == a;
    } else {
      PlacesConcat(a, c[..|c| - 1], ignored);
      assert (a + c)[..|a + c| - 1] == a + c[..|c| - 1];
    }
  }

  lemma {:induction false} PartitionedConcat(hash: NameHash, b: Builder, a: seq<TestCase>, c: seq<TestCase>)
    requires b.Valid()
    ensures Partitioned(hash, b, a + c, 0, 0)
            == Partitioned(hash, b, a, 0, 0) + Partitioned(hash, b, c, Places(a, false), Places(a, true))
  {
    hide Partitioned, Decide, Places;
    if c == [] {
      assert a + c == a;
      NothingPartitioned(hash, b, Partitioned(hash, b, a, 0, 0), Places(a, false), Places(a, true));
    } else {
      var init, last := c[..|c| - 1], c[|c| - 1];
      PartitionedConcat(hash, b, a, init);
      PlacesConcat(a, init, last.ignored);
      PartitionedPush(hash, b, a + init, last, 0, 0);
      PartitionedPush(hash, b, init, last, Places(a, false), Places(a, true));
      assert (a + init) + [last] == a + c && init + [last] == c;
    }
  }

  lemma NothingPartitioned(hash: NameHash, b: Builder, done: seq<TestCase>, from: nat, fromIgnored: nat)
    requires b.Valid()
    ensures done + Partitioned(hash, b, [], from, fromIgnored) == done
  {
  }

  /** Slicing, the suites do not matter: the outcome is that of one suite with all the tests. */
  lemma {:induction false} SuitesDoNotMatterToSlices(hash: NameHash, b: Builder, suites: seq<seq<TestCase>>)
    requires b.Valid() && b.kind == Slice
    ensures PartitionedList(hash, b, [Flat(suites)]) == [Flat(PartitionedList(hash, b, suites))]
  {
    OneSuite(hash, b, Flat(suites));
    FlatPartitioned(hash, b, suites);
  }

  lemma OneSuite(hash: NameHash, b: Builder, cases: seq<TestCase>)
    requires b.Valid()
    ensures PartitionedList(hash, b, [cases]) == [Partitioned(hash, b, cases, 0, 0)]
  {
    assert [cases][..0] == [];
    assert PartitionedList(hash, b, []) == [];
    hide Partitioned;
  }

  lemma {:induction false} FlatPartitioned(hash: NameHash, b: Builder, suites: seq<seq<TestCase>>)
    requires b.Valid() && b.kind == Slice
    ensures Flat(PartitionedList(hash, b, suites)) == Partitioned(hash, b, Flat(suites), 0, 0)
  {
    if suites != [] {
      var init, cases := suites[..|suites| - 1], suites[|suites| - 1];
      FlatPartitioned(hash, b, init);
      FlatPlaces(b, init, false);
      FlatPlaces(b, init, true);
      PartitionedConcat(hash, b, Flat(init), cases);
      hide Partitioned, Places, PlacesBefore;
      var out := PartitionedList(hash, b, suites);
      assert out[..|out| - 1] == PartitionedList(hash, b, init);
    }
  }

  // ----- even shares of what is run -----

  /** With nothing passed before, a counted shard runs an even share of each suite of the
      list. */
  lemma CountedSuitesAreEven(hash: NameHash, b: Builder, b': Builder, suites: seq<seq<TestCase>>, k: nat, ignored: bool)
    requires b.Valid() && b'.Valid() && b.kind == b'.kind == Count && b.total == b'.total && k < |suites|
    requires forall c <- suites[k] :: c.filterMatch != Mismatch(RerunAlreadyPassed)
    ensures |PartitionedList(hash, b, suites)| == |PartitionedList(hash, b', suites)| == |suites|
    ensures Running(PartitionedList(hash, b, suites)[k], ignored)
            <= Running(PartitionedList(hash, b', suites)[k], ignored) + 1
  {
    PartitionedLength(hash, b, suites);
    PartitionedLength(hash, b', suites);
    PartitionedAt(hash, b, suites, k);
    PartitionedAt(hash, b', suites, k);
    TakenAreRun(hash, b, suites[k], ignored, 0, 0);
    TakenAreRun(hash, b', suites[k], ignored, 0, 0);
    CountSharesAreEven(hash, b, b', suites[k], ignored);
    hide PartitionedList, Partitioned, StartOf, Taken, Running, Places;
  }

  lemma SliceRuns(hash: NameHash, b: Builder, suites: seq<seq<TestCase>>, ignored: bool)
    requires b.Valid() && b.kind == Slice
    requires forall c <- Flat(suites) :: c.filterMatch != Mismatch(RerunAlreadyPassed)
    ensures Running(Flat(PartitionedList(hash, b, suites)), ignored)
            == RoundRobin(b.shard - 1, b.total, Places(Flat(suites), ignored))
  {
    hide PartitionedList, Partitioned, Taken, Running, Places, Flat;
    FlatPartitioned(hash, b, suites);
    TakenAreRun(hash, b, Flat(suites), ignored, 0, 0);
    TakenIsRoundRobin(hash, b, Flat(suites), ignored, 0);
  }

  /** With nothing passed before, a slice runs an even share of the whole list. */
  lemma SlicedListsAreEven(hash: NameHash, b: Builder, b': Builder, suites: seq<seq<TestCase>>, ignored: bool)
    requires b.Valid() && b'.Valid() && b.kind == b'.kind == Slice && b.total == b'.total
    requires forall c <- Flat(suites) :: c.filterMatch != Mismatch(RerunAlreadyPassed)
    ensures Running(Flat(PartitionedList(hash, b, suites)), ignored)
            <= Running(Flat(PartitionedList(hash, b', suites)), ignored) + 1
  {
    hide PartitionedList, Running, Places, Flat, RoundRobin;
    SliceRuns(hash, b, suites, ignored);
    SliceRuns(hash, b', suites, ignored);
    RoundRobinShare(b.shard - 1, b.total, Places(Flat(suites), ignored));
    RoundRobinShare(b'.shard - 1, b.total, Places(Flat(suites), ignored));
  }
}
