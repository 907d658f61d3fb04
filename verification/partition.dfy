/** Splitting a test list into shards. */
module Partition {
  import opened Wrappers
  import opened DecimalText
  import opened PartitionBuilder

  // ----- which shard a test is in -----

  /** A hash of test names that gives 64-bit numbers. */
  datatype NameHash = NameHash(of: string -> nat)

  /** The remainder, as `%` gives it for unsigned numbers. */
  function Mod(n: nat, total: nat): (r: nat)
    requires total > 0
    ensures r < total
  {
    n % total
  }

  lemma ModNext(n: nat, total: nat)
    requires total > 0
    ensures Mod(Mod(n, total) + 1, total) == Mod(n + 1, total)
  {
    NextRemainder(n, total);
  }

  /** The shard, counted from 0, of the test at a place among those counted. */
  function ShardOf(hash: NameHash, b: Builder, name: string, place: nat): nat
    requires b.total > 0
  {
    Mod(if b.kind == Hash then hash.of(name) else place, b.total)
  }

  predicate InShard(hash: NameHash, b: Builder, name: string, place: nat)
    requires b.Valid()
  {
    ShardOf(hash, b, name, place) == b.shard - 1
  }

  /** A partitioner of either kind: counting uses `curr` and hashing does not. */
  class Partitioner {
    const hash: NameHash
    const hashed: bool
    const shardMinusOne: nat
    const total: nat
    var curr: nat
    ghost const builder: Builder
    ghost var seen: nat

    ghost predicate Valid()
      reads this
    {
      && builder.Valid() && total == builder.total && shardMinusOne == builder.shard - 1
      && hashed == (builder.kind == Hash)
      && curr == (if hashed then 0 else Mod(seen, total))
    }

    constructor (hash: NameHash, b: Builder)
      requires b.Valid()
      ensures Valid() && seen == 0 && builder == b && this.hash == hash
    {
      this.hash, builder := hash, b;
      hashed, shardMinusOne, total, curr, seen := b.kind == Hash, b.shard - 1, b.total, 0, 0;
    }

    /** The counter never leaves the 64-bit range, not even before it wraps around. */
    method TestMatches(name: string) returns (matches: bool)
      requires Valid()
      modifies this
      ensures Valid() && seen == old(seen) + 1
      ensures matches == InShard(hash, builder, name, old(seen))
    {
      ModNext(seen, total);
      hide Mod;
      if hashed {
        matches := Mod(hash.of(name), total) == shardMinusOne;
      } else {
        matches := curr == shardMinusOne;
        assert curr + 1 <= U64_MAX;
        curr := Mod(curr + 1, total);
      }
      seen := seen + 1;
    }
  }

  lemma NextRemainder(n: nat, total: nat)
    requires total > 0
    ensures var q, r := n / total, n % total;
            if r + 1 < total then (n + 1) / total == q && (n + 1) % total == r + 1
            else (n + 1) / total == q + 1 && (n + 1) % total == 0 && r == total - 1
  {
    var q, r := n / total, n % total;
    assert n == q * total + r;
    if r + 1 < total {
      Remainder(q, r + 1, total);
    } else {
      assert n + 1 == (q + 1) * total + 0;
      Remainder(q + 1, 0, total);
    }
  }

  lemma Remainder(q: nat, r: nat, total: nat)
    requires r < total
    ensures (q * total + r) / total == q && (q * total + r) % total == r
  {
    var n := q * total + r;
    var q', r' := n / total, n % total;
    assert n == q' * total + r';
    MoreTimes(q, q', total);
    MoreTimes(q', q, total);
  }

  lemma MoreTimes(a: nat, b: nat, total: nat)
    ensures a < b ==> a * total + total <= b * total
  {
    if a + 1 < b {
      MoreTimes(a, b - 1, total);
      assert b * total == (b - 1) * total + total;
    } else if a < b {
      assert b * total == a * total + total;
    }
  }

  // ----- partitioning a test list -----

  datatype MismatchReason =
    NotBenchmark | Ignored | String | Expression | Partition | RerunAlreadyPassed | DefaultFilter

  datatype FilterMatch = Matches | Mismatch(reason: MismatchReason)

  datatype TestCase = TestCase(name: string, ignored: bool, filterMatch: FilterMatch)

  /** Tests that take a place: those that match, and those that have passed already, so
      that a rerun finds every test in the shard it was in. */
  predicate Counted(c: TestCase) {
    c.filterMatch.Matches? || c.filterMatch == Mismatch(RerunAlreadyPassed)
  }

  /** How many tests of one sort take a place in `cases`. */
  function Places(cases: seq<TestCase>, ignored: bool): nat {
    if cases == [] then 0
    else
      var c := cases[|cases| - 1];
      Places(cases[..|cases| - 1], ignored) + if c.ignored == ignored && Counted(c) then 1 else 0
  }

  /** What becomes of a test at its place. */
  function Decide(hash: NameHash, b: Builder, c: TestCase, place: nat): TestCase
    requires b.Valid()
  {
    if c.filterMatch.Matches? && !InShard(hash, b, c.name, place) then c.(filterMatch := Mismatch(Partition)) else c
  }

  /** Tests of the sort `ignored` decided, counting on from `from`. */
  function DecideSort(hash: NameHash, b: Builder, cases: seq<TestCase>, ignored: bool, from: nat): seq<TestCase>
    requires b.Valid()
  {
    if cases == [] then []
    else
      var init, c := cases[..|cases| - 1], cases[|cases| - 1];
      DecideSort(hash, b, init, ignored, from)
      + [if c.ignored == ignored then Decide(hash, b, c, from + Places(init, ignored)) else c]
  }

  /** One suite partitioned: tests that are ignored and tests that are not are counted apart. */
  function Partitioned(hash: NameHash, b: Builder, cases: seq<TestCase>, from: nat,
                       fromIgnored: nat): (r: seq<TestCase>)
    requires b.Valid()
    ensures |r| == |cases|
  {
    if cases == [] then []
    else
      var init, c := cases[..|cases| - 1], cases[|cases| - 1];
      Partitioned(hash, b, init, from, fromIgnored)
      + [Decide(hash, b, c, (if c.ignored then fromIgnored else from) + Places(init, c.ignored))]
  }

  /** The places that suites have taken when the next one comes: none, if every suite is
      counted by itself. */
  function PlacesBefore(b: Builder, suites: seq<seq<TestCase>>, ignored: bool): nat {
    if suites == [] || b.Scope() == PerBinary then 0
    else PlacesBefore(b, suites[..|suites| - 1], ignored) + Places(suites[|suites| - 1], ignored)
  }

  /** The whole test list partitioned. */
  function PartitionedList(hash: NameHash, b: Builder, suites: seq<seq<TestCase>>): seq<seq<TestCase>>
    requires b.Valid()
  {
    if suites == [] then []
    else
      var init, cases := suites[..|suites| - 1], suites[|suites| - 1];
      PartitionedList(hash, b, init)
      + [Partitioned(hash, b, cases, PlacesBefore(b, init, false), PlacesBefore(b, init, true))]
  }

  function SortedList(hash: NameHash, b: Builder, suites: seq<seq<TestCase>>, ignored: bool): seq<seq<TestCase>>
    requires b.Valid()
  {
    if suites == [] then []
    else
      var init, cases := suites[..|suites| - 1], suites[|suites| - 1];
      SortedList(hash, b, init, ignored) + [DecideSort(hash, b, cases, ignored, PlacesBefore(b, init, ignored))]
  }

  /** How many places come before a test in its suite. */
  function PlaceIn(cases: seq<TestCase>, i: nat, ignored: bool): nat
    requires i <= |cases|
  {
    Places(cases[..i], ignored)
  }

  /** How many places come before a suite. */
  function StartOf(b: Builder, suites: seq<seq<TestCase>>, k: nat, ignored: bool): nat
    requires k <= |suites|
  {
    PlacesBefore(b, suites[..k], ignored)
  }

  lemma PlacesPush(cases: seq<TestCase>, c: TestCase, ignored: bool)
    ensures Places(cases + [c], ignored) == Places(cases, ignored) + if c.ignored == ignored && Counted(c) then 1 else 0
  {
    assert (cases + [c])[..|cases|] == cases;
  }

  /** Deciding the tests of one sort leaves the places of the other sort as they were. */
  lemma {:induction false} OtherSortKeepsPlaces(hash: NameHash, b: Builder, cases: seq<TestCase>, from: nat)
    requires b.Valid()
    ensures Places(DecideSort(hash, b, cases, false, from), true) == Places(cases, true)
  {
    if cases != [] {
      var init, c := cases[..|cases| - 1], cases[|cases| - 1];
      OtherSortKeepsPlaces(hash, b, init, from);
      PlacesPush(DecideSort(hash, b, init, false, from),
        if c.ignored then c else Decide(hash, b, c, from + Places(init, false)), true);
      hide InShard;
    }
  }

  /** The tests that are not ignored first, then those that are. */
  lemma {:induction false} BothSorts(hash: NameHash, b: Builder, cases: seq<TestCase>, from: nat, fromIgnored: nat)
    requires b.Valid()
    ensures DecideSort(hash, b, DecideSort(hash, b, cases, false, from), true, fromIgnored)
            == Partitioned(hash, b, cases, from, fromIgnored)
  {
    if cases != [] {
      var init, c := cases[..|cases| - 1], cases[|cases| - 1];
      var first := DecideSort(hash, b, init, false, from);
      BothSorts(hash, b, init, from, fromIgnored);
      OtherSortKeepsPlaces(hash, b, init, from);
      hide InShard, Places;
      var d := if c.ignored then c else Decide(hash, b, c, from + Places(init, false));
      assert (first + [d])[..|first|] == first;
    }
  }

  lemma {:induction false} OtherSortKeepsPlacesBefore(hash: NameHash, b: Builder, suites: seq<seq<TestCase>>)
    requires b.Valid()
    ensures PlacesBefore(b, SortedList(hash, b, suites, false), true) == PlacesBefore(b, suites, true)
  {
    if suites != [] {
      var init, cases := suites[..|suites| - 1], suites[|suites| - 1];
      OtherSortKeepsPlacesBefore(hash, b, init);
      OtherSortKeepsPlaces(hash, b, cases, PlacesBefore(b, init, false));
      hide DecideSort, Places;
      var first := SortedList(hash, b, init, false);
      assert SortedList(hash, b, suites, false)[..|first|] == first;
    }
  }

  lemma {:induction false} BothSortsOfAll(hash: NameHash, b: Builder, suites: seq<seq<TestCase>>)
    requires b.Valid()
    ensures SortedList(hash, b, SortedList(hash, b, suites, false), true) == PartitionedList(hash, b, suites)
  {
    if suites != [] {
      var init, cases := suites[..|suites| - 1], suites[|suites| - 1];
      BothSortsOfAll(hash, b, init);
      OtherSortKeepsPlacesBefore(hash, b, init);
      BothSorts(hash, b, cases, PlacesBefore(b, init, false), PlacesBefore(b, init, true));
      hide DecideSort, Partitioned, PlacesBefore;
      var first := SortedList(hash, b, init, false);
      assert SortedList(hash, b, suites, false)[..|first|] == first;
    }
  }

  /** A suite that was skipped has no tests. */
  datatype Status = Listed(cases: seq<TestCase>) | Skipped {
    function Cases(): seq<TestCase> {
      if Listed? then cases else []
    }
  }

  class TestSuite {
    var status: Status

    constructor (status: Status)
      ensures this.status == status
    {
      this.status := status;
    }
  }

  method ApplyPartitionToTest(c: TestCase, p: Partitioner) returns (c': TestCase)
    requires p.Valid()
    modifies p
    ensures p.Valid() && p.seen == old(p.seen) + if Counted(c) then 1 else 0
    ensures c' == Decide(p.hash, p.builder, c, old(p.seen))
  {
    c' := c;
    if c.filterMatch.Matches? {
      var matches := p.TestMatches(c.name);
      if !matches {
        c' := c.(filterMatch := Mismatch(Partition));
      }
    } else if c.filterMatch.reason.RerunAlreadyPassed? {
      var _ := p.TestMatches(c.name);
    }
  }

  /** The tests before `i`, decided. */
  function DecidedBefore(hash: NameHash, b: Builder, tests: seq<TestCase>, i: nat, ignored: bool,
                         from: nat): seq<TestCase>
    requires b.Valid() && i <= |tests|
  {
    DecideSort(hash, b, tests[..i], ignored, from)
  }

  lemma DecideNext(hash: NameHash, b: Builder, tests: seq<TestCase>, i: nat, ignored: bool, from: nat)
    requires b.Valid() && i < |tests|
    ensures PlaceIn(tests, i + 1, ignored)
            == PlaceIn(tests, i, ignored) + if tests[i].ignored == ignored && Counted(tests[i]) then 1 else 0
    ensures DecidedBefore(hash, b, tests, i + 1, ignored, from) == DecidedBefore(hash, b, tests, i, ignored, from)
            + [if tests[i].ignored == ignored then Decide(hash, b, tests[i], from + PlaceIn(tests, i, ignored))
               else tests[i]]
  {
    assert tests[..i + 1][..i] == tests[..i];
  }

  lemma DecideEnds(hash: NameHash, b: Builder, tests: seq<TestCase>, ignored: bool, from: nat)
    requires b.Valid()
    ensures DecidedBefore(hash, b, tests, 0, ignored, from) == [] && PlaceIn(tests, 0, ignored) == 0
    ensures DecidedBefore(hash, b, tests, |tests|, ignored, from) == DecideSort(hash, b, tests, ignored, from)
    ensures PlaceIn(tests, |tests|, ignored) == Places(tests, ignored)
  {
    assert tests[..0] == [] && tests[..|tests|] == tests;
  }

  /** Goes over the tests in order. */
  method DecideTests(tests: seq<TestCase>, p: Partitioner, ignored: bool) returns (cases: seq<TestCase>)
    requires p.Valid()
    modifies p
    ensures p.Valid() && p.seen == old(p.seen) + Places(tests, ignored)
    ensures cases == DecideSort(p.hash, p.builder, tests, ignored, old(p.seen))
  {
    ghost var from, hash, b := p.seen, p.hash, p.builder;
    DecideEnds(hash, b, tests, ignored, from);
    hide *;
    cases := [];
    var i := 0;
    while i < |tests|
      invariant 0 <= i <= |tests| && p.Valid()
      invariant p.seen == from + PlaceIn(tests, i, ignored)
      invariant cases == DecidedBefore(hash, b, tests, i, ignored, from)
    {
      DecideNext(hash, b, tests, i, ignored, from);
      var c := tests[i];
      if c.ignored == ignored {
        c := ApplyPartitionToTest(c, p);
      }
      cases := cases + [c];
      i := i + 1;
    }
  }

  /** Suites that were skipped are passed over. */
  method ApplyPartitionerToTests(suite: TestSuite, p: Partitioner, ignored: bool)
    requires p.Valid()
    modifies suite, p
    ensures p.Valid() && p.seen == old(p.seen) + Places(old(suite.status).Cases(), ignored)
    ensures suite.status.Cases() == DecideSort(p.hash, p.builder, old(suite.status).Cases(), ignored, old(p.seen))
  {
    SkippedSuite(p.hash, p.builder, ignored, p.seen);
    hide DecideSort, Places;
    if suite.status.Listed? {
      var cases := DecideTests(suite.status.cases, p, ignored);
      suite.status := Listed(cases);
    }
  }

  predicate Distinct(suites: seq<TestSuite>) {
    forall i, j | 0 <= i < j < |suites| :: suites[i] != suites[j]
  }

  ghost function AllCases(suites: seq<TestSuite>): seq<seq<TestCase>>
    reads suites
  {
    if suites == [] then [] else AllCases(suites[..|suites| - 1]) + [suites[|suites| - 1].status.Cases()]
  }

  lemma {:induction false} AllCasesAt(suites: seq<TestSuite>)
    ensures |AllCases(suites)| == |suites|
    ensures forall k | 0 <= k < |suites| :: AllCases(suites)[k] == suites[k].status.Cases()
  {
    if suites != [] {
      AllCasesAt(suites[..|suites| - 1]);
    }
  }

  lemma {:induction false} SortedAt(hash: NameHash, b: Builder, was: seq<seq<TestCase>>, k: nat, ignored: bool)
    requires b.Valid() && k < |was|
    ensures |SortedList(hash, b, was, ignored)| == |was|
    ensures SortedList(hash, b, was, ignored)[k] == DecideSort(hash, b, was[k], ignored, StartOf(b, was, k, ignored))
    ensures b.Scope() == CrossBinary
            ==> StartOf(b, was, k + 1, ignored) == StartOf(b, was, k, ignored) + Places(was[k], ignored)
    ensures b.Scope() == PerBinary ==> StartOf(b, was, k, ignored) == 0
  {
    hide DecideSort, Places;
    var n := |was| - 1;
    SortedLength(hash, b, was[..n], ignored);
    if k < n {
      SortedAt(hash, b, was[..n], k, ignored);
      assert was[..n][..k] == was[..k];
    }
    assert was[..k + 1][..k] == was[..k];
  }

  lemma {:induction false} SortedLength(hash: NameHash, b: Builder, was: seq<seq<TestCase>>, ignored: bool)
    requires b.Valid()
    ensures |SortedList(hash, b, was, ignored)| == |was|
  {
    if was != [] {
      SortedLength(hash, b, was[..|was| - 1], ignored);
    }
  }

  lemma SkippedSuite(hash: NameHash, b: Builder, ignored: bool, from: nat)
    requires b.Valid()
    ensures DecideSort(hash, b, [], ignored, from) == [] && Places([], ignored) == 0
  {
  }

  /** One suite, with partitioners of its own. */
  method ApplyToSuite(hash: NameHash, b: Builder, suite: TestSuite)
    requires b.Valid()
    modifies suite
    ensures suite.status.Cases() == Partitioned(hash, b, old(suite.status).Cases(), 0, 0)
  {
    BothSorts(hash, b, suite.status.Cases(), 0, 0);
    hide DecideSort, Partitioned, Places, Partitioner.Valid, Status.Cases;
    var nonIgnored := new Partitioner(hash, b);
    ApplyPartitionerToTests(suite, nonIgnored, false);
    var ignored := new Partitioner(hash, b);
    ApplyPartitionerToTests(suite, ignored, true);
  }

  lemma DistinctAt(suites: seq<TestSuite>, k: nat)
    requires Distinct(suites) && k < |suites|
    ensures forall j | 0 <= j < |suites| :: suites[j] == suites[k] ==> j == k
  {
  }

  lemma {:induction false} PartitionedAt(hash: NameHash, b: Builder, was: seq<seq<TestCase>>, k: nat)
    requires b.Valid() && k < |was| == |PartitionedList(hash, b, was)|
    ensures PartitionedList(hash, b, was)[k]
            == Partitioned(hash, b, was[k], StartOf(b, was, k, false), StartOf(b, was, k, true))
    ensures b.Scope() == PerBinary ==> StartOf(b, was, k, false) == StartOf(b, was, k, true) == 0
  {
    hide Partitioned, Places;
    var n := |was| - 1;
    PartitionedLength(hash, b, was[..n]);
    if k < n {
      PartitionedAt(hash, b, was[..n], k);
      assert was[..n][..k] == was[..k];
    }
  }

  lemma {:induction false} PartitionedLength(hash: NameHash, b: Builder, was: seq<seq<TestCase>>)
    requires b.Valid()
    ensures |PartitionedList(hash, b, was)| == |was|
  {
    if was != [] {
      PartitionedLength(hash, b, was[..|was| - 1]);
    }
  }

  function Replace<T>(s: seq<T>, k: nat, x: T): seq<T>
    requires k < |s|
  {
    s[k := x]
  }

  /** A list whose elements before `k` are done, and no others. */
  function Splice<T>(done: seq<T>, was: seq<T>, k: nat): (now: seq<T>)
    requires k <= |was| == |done|
    ensures |now| == |was| && (k < |was| ==> now[k] == was[k])
  {
    done[..k] + was[k..]
  }

  lemma SpliceStep<T>(done: seq<T>, was: seq<T>, k: nat)
    requires k < |was| == |done|
    ensures Splice(done, was, k + 1) == Replace(Splice(done, was, k), k, done[k])
  {
    assert done[..k + 1] + was[k + 1..] == (done[..k] + was[k..])[k := done[k]];
  }

  lemma SpliceEnds<T>(done: seq<T>, was: seq<T>)
    requires |was| == |done|
    ensures Splice(done, was, 0) == was && Splice(done, was, |was|) == done
  {
  }

  method ApplyToSuiteAt(hash: NameHash, b: Builder, suites: seq<TestSuite>, k: nat)
    requires b.Valid() && Distinct(suites) && k < |suites| == |AllCases(suites)|
    modifies suites
    ensures AllCases(suites) == Replace(old(AllCases(suites)), k, Partitioned(hash, b, old(AllCases(suites))[k], 0, 0))
  {
    DistinctAt(suites, k);
    AllCasesAt(suites);
    hide Distinct, AllCases, Partitioned, Status.Cases;
    ApplyToSuite(hash, b, suites[k]);
    AllCasesAt(suites);
  }

  method ApplyPerBinary(hash: NameHash, b: Builder, suites: seq<TestSuite>)
    requires b.Valid() && Distinct(suites) && b.Scope() == PerBinary
    modifies suites
    ensures AllCases(suites) == PartitionedList(hash, b, old(AllCases(suites)))
  {
    ghost var was := AllCases(suites);
    AllCasesAt(suites);
    PartitionedLength(hash, b, was);
    ghost var done := PartitionedList(hash, b, was);
    SpliceEnds(done, was);
    hide *;
    var k := 0;
    while k < |suites|
      invariant 0 <= k <= |suites|
      invariant AllCases(suites) == Splice(done, was, k)
    {
      PartitionedAt(hash, b, was, k);
      SpliceStep(done, was, k);
      ApplyToSuiteAt(hash, b, suites, k);
      k := k + 1;
    }
  }

  method ApplyPartitionerAt(suites: seq<TestSuite>, k: nat, p: Partitioner, ignored: bool)
    requires p.Valid() && Distinct(suites) && k < |suites| == |AllCases(suites)|
    modifies suites, p
    ensures p.Valid() && p.seen == old(p.seen) + Places(old(AllCases(suites))[k], ignored)
    ensures AllCases(suites) ==
            Replace(old(AllCases(suites)), k,
              DecideSort(p.hash, p.builder, old(AllCases(suites))[k], ignored, old(p.seen)))
  {
    DistinctAt(suites, k);
    AllCasesAt(suites);
    hide Distinct, AllCases, DecideSort, Places, Status.Cases, Partitioner.Valid;
    ApplyPartitionerToTests(suites[k], p, ignored);
    AllCasesAt(suites);
  }

  lemma NoPlacesAtStart(b: Builder, was: seq<seq<TestCase>>, ignored: bool)
    ensures StartOf(b, was, 0, ignored) == 0
  {
  }

  lemma SortEnds(hash: NameHash, b: Builder, was: seq<seq<TestCase>>, ignored: bool)
    requires b.Valid()
    ensures var done := SortedList(hash, b, was, ignored);
            |done| == |was| && Splice(done, was, 0) == was && Splice(done, was, |was|) == done
    ensures StartOf(b, was, 0, ignored) == 0
  {
    SortedLength(hash, b, was, ignored);
    SpliceEnds(SortedList(hash, b, was, ignored), was);
    NoPlacesAtStart(b, was, ignored);
  }

  /** The tests of one sort in the first `k` suites have been decided. */
  ghost predicate SortedUpTo(suites: seq<TestSuite>, p: Partitioner, ignored: bool, was: seq<seq<TestCase>>, k: nat)
    reads suites, p
  {
    && p.Valid() && p.builder.Scope() == CrossBinary && Distinct(suites) && k <= |suites| == |was|
    && p.seen == StartOf(p.builder, was, k, ignored)
    && |SortedList(p.hash, p.builder, was, ignored)| == |was|
    && AllCases(suites) == Splice(SortedList(p.hash, p.builder, was, ignored), was, k)
  }

  /** One step of the loop below. */
  method ApplyPartitionerNext(suites: seq<TestSuite>, k: nat, p: Partitioner, ignored: bool,
                              ghost was: seq<seq<TestCase>>)
    requires k < |suites| && SortedUpTo(suites, p, ignored, was, k)
    modifies suites, p
    ensures SortedUpTo(suites, p, ignored, was, k + 1)
  {
    assert p.builder.Valid();
    SortedAt(p.hash, p.builder, was, k, ignored);
    SpliceStep(SortedList(p.hash, p.builder, was, ignored), was, k);
    hide Distinct, AllCases, SortedList, Splice, StartOf, Places, Replace, DecideSort, Partitioner.Valid;
    ApplyPartitionerAt(suites, k, p, ignored);
  }

  /** One partitioner goes over the tests of one sort in all suites. */
  method ApplySort(suites: seq<TestSuite>, p: Partitioner, ignored: bool)
    requires p.Valid() && p.seen == 0 && p.builder.Scope() == CrossBinary && Distinct(suites)
    modifies suites, p
    ensures AllCases(suites) == SortedList(p.hash, p.builder, old(AllCases(suites)), ignored)
  {
    ghost var was := AllCases(suites);
    SortStarts(suites, p, ignored);
    hide *;
    for k := 0 to |suites|
      invariant SortedUpTo(suites, p, ignored, was, k)
    {
      ApplyPartitionerNext(suites, k, p, ignored, was);
    }
    SortDone(suites, p, ignored, was);
  }

  lemma SortStarts(suites: seq<TestSuite>, p: Partitioner, ignored: bool)
    requires p.Valid() && p.seen == 0 && p.builder.Scope() == CrossBinary && Distinct(suites)
    ensures SortedUpTo(suites, p, ignored, AllCases(suites), 0)
  {
    AllCasesAt(suites);
    SortEnds(p.hash, p.builder, AllCases(suites), ignored);
    hide AllCases, SortedList, Splice, StartOf, Distinct;
  }

  lemma SortDone(suites: seq<TestSuite>, p: Partitioner, ignored: bool, was: seq<seq<TestCase>>)
    requires SortedUpTo(suites, p, ignored, was, |suites|)
    ensures AllCases(suites) == SortedList(p.hash, p.builder, was, ignored)
  {
    SortEnds(p.hash, p.builder, was, ignored);
    hide AllCases, SortedList, Splice, StartOf, Distinct;
  }

  method ApplyCrossBinary(hash: NameHash, b: Builder, suites: seq<TestSuite>)
    requires b.Valid() && Distinct(suites) && b.Scope() == CrossBinary
    modifies suites
    ensures AllCases(suites) == PartitionedList(hash, b, old(AllCases(suites)))
  {
    BothSortsOfAll(hash, b, AllCases(suites));
    hide Distinct, AllCases, SortedList, PartitionedList, Partitioner.Valid;
    var nonIgnored := new Partitioner(hash, b);
    ApplySort(suites, nonIgnored, false);
    var ignored := new Partitioner(hash, b);
    ApplySort(suites, ignored, true);
  }

  /** Partitions the test list in place, when a partition is asked for. */
  method ApplyPartitioning(hash: NameHash, builder: Option<Builder>, suites: seq<TestSuite>)
    requires Distinct(suites) && (builder.Some? ==> builder.value.Valid())
    modifies suites
    ensures AllCases(suites)
            == if builder.None? then old(AllCases(suites))
            else PartitionedList(hash, builder.value, old(AllCases(suites)))
  {
    if builder.Some? {
      if builder.value.Scope() == PerBinary {
        ApplyPerBinary(hash, builder.value, suites);
      } else {
        ApplyCrossBinary(hash, builder.value, suites);
      }
    }
  }
}
