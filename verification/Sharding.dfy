/**
  Choosing the tests to run: filtering, disabling and sharding, recorded in the test objects.
 */
module Sharding {
  import opened Wrappers
  import opened Division
  import opened CStrings
  import opened Filters

  datatype Flags = Flags(filter: string, alsoRunDisabled: bool)

  /** The number of shards and the index of this one, when the sharding protocol is honoured. */
  type Shard = Option<(int, int)>

  ghost predicate ValidShard(shard: Shard) {
    shard.Some? ==> 0 <= shard.value.1 < shard.value.0
  }

  function ShouldRunTestOnShard(total: int, index: int, testId: int): bool
    requires total != 0 && testId >= 0
  {
    testId % total == index
  }

  class TestInfo {
    const name: string
    var isDisabled: bool
    var matchesFilter: bool
    var shouldRun: bool

    constructor (name: string)
      ensures this.name == name
    {
      this.name := name;
    }
  }

  class TestCase {
    const name: string
    const testInfoList: seq<TestInfo>
    var shouldRun: bool

    constructor (name: string, testInfoList: seq<TestInfo>)
      ensures this.name == name && this.testInfoList == testInfoList
    {
      this.name, this.testInfoList := name, testInfoList;
    }
  }

  // ----- which tests are runnable, and in which order

  ghost predicate Disabled(caseName: string, testName: string) {
    SomeSegment(Text(caseName), DISABLE_TEST_FILTER) || SomeSegment(Text(testName), DISABLE_TEST_FILTER)
  }

  ghost predicate MatchesFlag(caseName: string, testName: string, flags: Flags) {
    Selects(Text(flags.filter), Text(caseName + "." + Text(testName)))
  }

  ghost predicate Runnable(caseName: string, testName: string, flags: Flags) {
    (flags.alsoRunDisabled || !Disabled(caseName, testName)) && MatchesFlag(caseName, testName, flags)
  }

  /** Which tests are runnable, case by case. */
  ghost function Runnables(cases: seq<TestCase>, flags: Flags): (rows: seq<seq<bool>>)
    ensures |rows| == |cases| && forall i :: 0 <= i < |cases| ==> IsRow(rows[i], cases[i], flags)
  {
    seq(|cases|, i requires 0 <= i < |cases| => Row(cases[i], flags))
  }

  ghost function Row(testCase: TestCase, flags: Flags): (row: seq<bool>)
    ensures IsRow(row, testCase, flags)
  {
    seq(|testCase.testInfoList|, j requires 0 <= j < |testCase.testInfoList| =>
      Runnable(testCase.name, testCase.testInfoList[j].name, flags))
  }

  ghost predicate IsRow(row: seq<bool>, testCase: TestCase, flags: Flags) {
    && |row| == |testCase.testInfoList|
    && forall j :: 0 <= j < |row| ==> row[j] == Runnable(testCase.name, testCase.testInfoList[j].name, flags)
  }

  ghost predicate RunnableAt(rows: seq<seq<bool>>, i: int, j: int) {
    0 <= i < |rows| && 0 <= j < |rows[i]| && rows[i][j]
  }

  /** A test, or the place behind the last one of its case or of all. */
  ghost predicate IsPlace(rows: seq<seq<bool>>, i: int, j: int) {
    (0 <= i < |rows| && 0 <= j <= |rows[i]|) || (i == |rows| && j == 0)
  }

  /** The runnable tests before test j of case i, in order. */
  ghost function Earlier(rows: seq<seq<bool>>, i: nat, j: nat): seq<(nat, nat)>
    requires IsPlace(rows, i, j)
    decreases i, j
  {
    if j > 0 then
      Earlier(rows, i, j - 1) + if RunnableAt(rows, i, j - 1) then [(i, j - 1)] else []
    else if i > 0 then Earlier(rows, i - 1, |rows[i - 1]|)
    else []
  }

  ghost function InRunningOrder(rows: seq<seq<bool>>): seq<(nat, nat)> {
    Earlier(rows, |rows|, 0)
  }

  predicate InOrder(p: (nat, nat), q: (nat, nat)) {
    p.0 < q.0 || (p.0 == q.0 && p.1 < q.1)
  }

  /** They are the runnable positions, all of them, each once. */
  lemma {:induction false} EarlierExact(rows: seq<seq<bool>>, i: nat, j: nat)
    requires IsPlace(rows, i, j)
    ensures forall p :: p in Earlier(rows, i, j) <==> InOrder(p, (i, j)) && RunnableAt(rows, p.0, p.1)
    decreases i, j
  {
    if j > 0 {
      EarlierExact(rows, i, j - 1);
    } else if i > 0 {
      EarlierExact(rows, i - 1, |rows[i - 1]|);
    }
  }

  lemma {:induction false} EarlierOrdered(rows: seq<seq<bool>>, i: nat, j: nat)
    requires IsPlace(rows, i, j)
    ensures Ascending(Earlier(rows, i, j))
    decreases i, j
  {
    if j > 0 {
      EarlierOrdered(rows, i, j - 1);
      EarlierExact(rows, i, j - 1);
    } else if i > 0 {
      EarlierOrdered(rows, i - 1, |rows[i - 1]|);
    }
  }

  predicate Ascending(places: seq<(nat, nat)>) {
    forall a, b :: 0 <= a < b < |places| ==> InOrder(places[a], places[b])
  }

  lemma {:induction false} EarlierGrows(rows: seq<seq<bool>>, i: nat, j: nat, i': nat, j': nat)
    requires IsPlace(rows, i, j)
    requires IsPlace(rows, i', j')
    requires (i, j) == (i', j') || InOrder((i, j), (i', j'))
    ensures Earlier(rows, i, j) <= Earlier(rows, i', j')
    decreases i', j'
  {
    if (i, j) != (i', j') {
      if j' > 0 {
        EarlierGrows(rows, i, j, i', j' - 1);
      } else {
        EarlierGrows(rows, i, j, i' - 1, |rows[i' - 1]|);
      }
    }
  }

  /** A runnable test's id is its place among all runnable tests. */
  lemma {:induction false} IdIsPlace(rows: seq<seq<bool>>, i: nat, j: nat)
    requires RunnableAt(rows, i, j)
    ensures Ascending(InRunningOrder(rows))
    ensures var id := |Earlier(rows, i, j)|;
      id < |InRunningOrder(rows)| && InRunningOrder(rows)[id] == (i, j)
  {
    EarlierOrdered(rows, |rows|, 0);
    EarlierGrows(rows, i, j + 1, |rows|, 0);
  }

  /** A test is runnable if the filter selects its full name and, unless disabled tests are wanted too, neither its
      case nor itself has a disabled name. */
  lemma RunnableMeans(caseName: string, testName: string, flags: Flags)
    ensures Disabled(caseName, testName) <==>
      || "DISABLED_" <= Text(caseName) || (exists at: nat :: ReadsAt(Text(caseName), at, "/DISABLED_"))
      || "DISABLED_" <= Text(testName) || (exists at: nat :: ReadsAt(Text(testName), at, "/DISABLED_"))
    ensures Runnable(caseName, testName, flags) <==>
      && Selects(Text(flags.filter), Text(caseName + "." + Text(testName)))
      && (!flags.alsoRunDisabled ==> !Disabled(caseName, testName))
  {
    DisabledNames(Text(caseName));
    DisabledNames(Text(testName));
  }

  // ----- shards

  ghost predicate OnShard(shard: Shard, id: nat)
    requires ValidShard(shard)
  {
    shard.Some? ==> ShouldRunTestOnShard(shard.value.0, shard.value.1, id)
  }

  /** Runnable, and on this shard by its place among the runnable tests. */
  ghost predicate Chosen(rows: seq<seq<bool>>, shard: Shard, i: int, j: int)
    requires ValidShard(shard)
  {
    RunnableAt(rows, i, j) && OnShard(shard, |Earlier(rows, i, j)|)
  }

  /** The chosen tests before test j of case i. */
  ghost function ChosenBefore(rows: seq<seq<bool>>, shard: Shard, i: nat, j: nat): set<(nat, nat)>
    requires IsPlace(rows, i, j)
    requires ValidShard(shard)
  {
    set p | p in Earlier(rows, i, j) && Chosen(rows, shard, p.0, p.1)
  }

  ghost function AllChosen(rows: seq<seq<bool>>, shard: Shard): set<(nat, nat)>
    requires ValidShard(shard)
  {
    ChosenBefore(rows, shard, |rows|, 0)
  }

  /** They are the chosen positions, no more and no fewer. */
  lemma AllChosenExact(rows: seq<seq<bool>>, shard: Shard, i: nat, j: nat)
    requires ValidShard(shard)
    ensures (i, j) in AllChosen(rows, shard) <==> Chosen(rows, shard, i, j)
  {
    EarlierExact(rows, |rows|, 0);
  }

  /** A test is chosen exactly if it has a place among the runnable ones, and the shards take the places in turn. */
  lemma ChosenByPlace(rows: seq<seq<bool>>, shard: Shard, i: nat, j: nat)
    requires ValidShard(shard)
    ensures Chosen(rows, shard, i, j) <==> exists id: nat ::
      && id < |InRunningOrder(rows)| && InRunningOrder(rows)[id] == (i, j)
      && (shard.Some? ==> id % shard.value.0 == shard.value.1)
  {
    EarlierExact(rows, |rows|, 0);
    if (i, j) in InRunningOrder(rows) {
      IdIsPlace(rows, i, j);
    }
  }

  lemma ChosenStep(rows: seq<seq<bool>>, shard: Shard, i: nat, j: nat)
    requires i < |rows| && j < |rows[i]| && ValidShard(shard)
    ensures ChosenBefore(rows, shard, i, j + 1)
         == ChosenBefore(rows, shard, i, j) + if Chosen(rows, shard, i, j) then {(i, j)} else {}
    ensures |ChosenBefore(rows, shard, i, j + 1)|
         == |ChosenBefore(rows, shard, i, j)| + if Chosen(rows, shard, i, j) then 1 else 0
  {
    EarlierExact(rows, i, j);
    EarlierExact(rows, i, j + 1);
    assert (i, j) !in ChosenBefore(rows, shard, i, j);
  }

  /** How many of the ids below n are on the shard: the even share, and one more for the first shards. */
  function ShardSize(shard: Shard, n: nat): nat
    requires ValidShard(shard)
  {
    if shard.None? then n
    else n / shard.value.0 + if n % shard.value.0 > shard.value.1 then 1 else 0
  }

  lemma ShardSizeStep(shard: Shard, n: nat)
    requires ValidShard(shard)
    ensures ShardSize(shard, n + 1) == ShardSize(shard, n) + if OnShard(shard, n) then 1 else 0
  {
    if shard.Some? {
      var total := shard.value.0;
      var q, r := n / total, n % total;
      if r + 1 < total {
        Quotient(n + 1, total, q, r + 1);
      } else {
        Quotient(n + 1, total, q + 1, 0);
      }
    }
  }

  ghost function IdsOnShard(shard: Shard, n: nat): nat
    requires ValidShard(shard)
  {
    if n == 0 then 0 else IdsOnShard(shard, n - 1) + if OnShard(shard, n - 1) then 1 else 0
  }

  lemma {:induction false} IdsAreEven(shard: Shard, n: nat)
    requires ValidShard(shard)
    ensures IdsOnShard(shard, n) == ShardSize(shard, n)
  {
    if n > 0 {
      IdsAreEven(shard, n - 1);
      ShardSizeStep(shard, n - 1);
    } else if shard.Some? {
      Quotient(0, shard.value.0, 0, 0);
    }
  }

  lemma {:induction false} ChosenIds(rows: seq<seq<bool>>, shard: Shard, i: nat, j: nat)
    requires IsPlace(rows, i, j) && ValidShard(shard)
    ensures |ChosenBefore(rows, shard, i, j)| == IdsOnShard(shard, |Earlier(rows, i, j)|)
    decreases i, j
  {
    if j > 0 {
      ChosenIds(rows, shard, i, j - 1);
      ChosenIdsNext(rows, shard, i, j - 1);
    } else if i > 0 {
      ChosenIds(rows, shard, i - 1, |rows[i - 1]|);
    }
  }

  lemma ChosenIdsNext(rows: seq<seq<bool>>, shard: Shard, i: nat, j: nat)
    requires i < |rows| && j < |rows[i]| && ValidShard(shard)
    requires |ChosenBefore(rows, shard, i, j)| == IdsOnShard(shard, |Earlier(rows, i, j)|)
    ensures |ChosenBefore(rows, shard, i, j + 1)| == IdsOnShard(shard, |Earlier(rows, i, j + 1)|)
  {
    ChosenStep(rows, shard, i, j);
  }

  /** The number of chosen tests depends on the number of runnable ones alone. */
  lemma ChosenCount(rows: seq<seq<bool>>, shard: Shard)
    requires ValidShard(shard)
    ensures |AllChosen(rows, shard)| == ShardSize(shard, |InRunningOrder(rows)|)
  {
    ChosenIds(rows, shard, |rows|, 0);
    IdsAreEven(shard, |InRunningOrder(rows)|);
  }

  /** Whatever the number of shards, every runnable test is chosen by one of them and no other. */
  lemma ShardsPartition(rows: seq<seq<bool>>, total: int, i: int, j: int)
    requires total >= 1
    ensures RunnableAt(rows, i, j) <==> exists index :: 0 <= index < total && ChosenBy(rows, total, index, i, j)
    ensures forall a, b :: ChosenBy(rows, total, a, i, j) && ChosenBy(rows, total, b, i, j) ==> a == b
  {
    if RunnableAt(rows, i, j) {
      var index := |Earlier(rows, i, j)| % total;
      assert ChosenBy(rows, total, index, i, j);
    }
  }

  ghost predicate ChosenBy(rows: seq<seq<bool>>, total: int, index: int, i: int, j: int) {
    0 <= index < total && Chosen(rows, Some((total, index)), i, j)
  }

  /** No two shards differ by more than one test. */
  lemma ShardsAreEven(rows: seq<seq<bool>>, total: int, a: int, b: int)
    requires 0 <= a < total && 0 <= b < total
    ensures |AllChosen(rows, Some((total, a)))| <= |AllChosen(rows, Some((total, b)))| + 1
  {
    ChosenCount(rows, Some((total, a)));
    ChosenCount(rows, Some((total, b)));
  }

  // ----- FilterTests

  /** What the marks say of each test when all are made. */
  lemma MarksMean(cases: seq<TestCase>, flags: Flags, shard: Shard, i: nat, j: nat)
    requires ValidShard(shard) && CasesMarked(cases, flags, shard, Runnables(cases, flags), |cases|)
    requires i < |cases| && j < |cases[i].testInfoList|
    ensures var test := cases[i].testInfoList[j];
      && (test.shouldRun <==> exists id: nat ::
           && id < |InRunningOrder(Runnables(cases, flags))| && InRunningOrder(Runnables(cases, flags))[id] == (i, j)
           && (shard.Some? ==> id % shard.value.0 == shard.value.1))
      && (test.shouldRun ==> test.matchesFilter && (flags.alsoRunDisabled || !test.isDisabled))
      && (shard.None? ==> (test.shouldRun <==> test.matchesFilter && (flags.alsoRunDisabled || !test.isDisabled)))
      && (test.isDisabled <==> Disabled(cases[i].name, test.name))
      && (test.matchesFilter <==> Selects(Text(flags.filter), Text(cases[i].name + "." + Text(test.name))))
    ensures cases[i].shouldRun <==> exists k :: 0 <= k < |cases[i].testInfoList| && cases[i].testInfoList[k].shouldRun
  {
    var rows := Runnables(cases, flags);
    var chosen := ChosenOf(rows, shard, i, |rows[i]|);
    assert CaseMarked(cases[i], flags, chosen);
    ChosenByPlace(rows, shard, i, j);
    if k :| 0 <= k < |chosen| && chosen[k] {
      assert cases[i].testInfoList[k].shouldRun;
    }
    forall k | 0 <= k < |cases[i].testInfoList| ensures cases[i].testInfoList[k].shouldRun ==> true in chosen {
      assert chosen[k] in chosen;
    }
  }

  ghost function Infos(testCase: TestCase): set<TestInfo> {
    set t | t in testCase.testInfoList
  }

  ghost function AllInfos(cases: seq<TestCase>): set<TestInfo> {
    set i, t | 0 <= i < |cases| && t in Infos(cases[i]) :: t
  }

  /** Every test object belongs to one place of one case. */
  ghost predicate Owned(cases: seq<TestCase>) {
    && (forall a, b :: 0 <= a < b < |cases| ==> cases[a] != cases[b] && Infos(cases[a]) !! Infos(cases[b]))
    && forall a :: 0 <= a < |cases| ==> Apart(cases[a].testInfoList)
  }

  ghost predicate Apart(tests: seq<TestInfo>) {
    forall j, k :: 0 <= j < k < |tests| ==> tests[j] != tests[k]
  }

  /** The marks of one test say what they should. */
  ghost predicate Marked(testCase: TestCase, testInfo: TestInfo, flags: Flags, chosen: bool)
    reads testInfo
  {
    && testInfo.isDisabled == Disabled(testCase.name, testInfo.name)
    && testInfo.matchesFilter == MatchesFlag(testCase.name, testInfo.name, flags)
    && testInfo.shouldRun == chosen
  }

  /** The first n tests of a case are marked, and the case runs if one of them does. */
  ghost predicate CaseMarked(testCase: TestCase, flags: Flags, chosen: seq<bool>)
    requires |chosen| <= |testCase.testInfoList|
    reads testCase, Infos(testCase)
  {
    && (forall j :: 0 <= j < |chosen| ==> Marked(testCase, testCase.testInfoList[j], flags, chosen[j]))
    && (testCase.shouldRun <==> true in chosen)
  }

  /** Which of the first n tests of case i are chosen. */
  ghost function ChosenOf(rows: seq<seq<bool>>, shard: Shard, i: nat, n: nat): (chosen: seq<bool>)
    requires i < |rows| && n <= |rows[i]| && ValidShard(shard)
    ensures |chosen| == n && forall j :: 0 <= j < n ==> chosen[j] == Chosen(rows, shard, i, j)
  {
    if n == 0 then [] else ChosenOf(rows, shard, i, n - 1) + [Chosen(rows, shard, i, n - 1)]
  }

  method FilterTests(cases: seq<TestCase>, flags: Flags, shard: Shard) returns (selected: nat)
    requires Owned(cases) && ValidShard(shard)
    modifies cases, AllInfos(cases)
    ensures CasesMarked(cases, flags, shard, Runnables(cases, flags), |cases|)
    ensures selected == |AllChosen(Runnables(cases, flags), shard)|
  {
    ghost var rows := Runnables(cases, flags);
    var runnable: nat := 0;
    selected := 0;
    for i := 0 to |cases|
      invariant CasesMarked(cases, flags, shard, rows, i)
      invariant Counted(rows, shard, i, 0, runnable, selected)
    {
      OwnInfos(cases, i);
      runnable, selected := FilterCase(cases[i], flags, shard, runnable, selected, rows, i);
    }
  }

  /** The first n cases are marked. */
  ghost predicate CasesMarked(cases: seq<TestCase>, flags: Flags, shard: Shard, rows: seq<seq<bool>>, n: nat)
    requires ValidShard(shard) && n <= |cases| == |rows|
    requires forall k :: 0 <= k < |cases| ==> |rows[k]| == |cases[k].testInfoList|
    reads cases, AllInfos(cases)
  {
    forall k :: 0 <= k < n ==> CaseMarked(cases[k], flags, ChosenOf(rows, shard, k, |rows[k]|))
  }

  lemma OwnInfos(cases: seq<TestCase>, i: nat)
    requires i < |cases|
    ensures Infos(cases[i]) <= AllInfos(cases)
  {
  }

  method FilterCase(testCase: TestCase, flags: Flags, shard: Shard, runnable0: nat, selected0: nat,
                    ghost rows: seq<seq<bool>>, ghost i: nat)
    returns (runnable: nat, selected: nat)
    requires i < |rows| && IsRow(rows[i], testCase, flags) && Apart(testCase.testInfoList) && ValidShard(shard)
    requires Counted(rows, shard, i, 0, runnable0, selected0)
    modifies testCase, Infos(testCase)
    ensures CaseMarked(testCase, flags, ChosenOf(rows, shard, i, |rows[i]|))
    ensures Counted(rows, shard, i + 1, 0, runnable, selected)
  {
    testCase.shouldRun := false;
    runnable, selected := FilterInfos(testCase, flags, shard, runnable0, selected0, rows, i);
    CountNextCase(rows, shard, i, runnable, selected);
  }

  method FilterInfos(testCase: TestCase, flags: Flags, shard: Shard, runnable0: nat, selected0: nat,
                     ghost rows: seq<seq<bool>>, ghost i: nat)
    returns (runnable: nat, selected: nat)
    requires i < |rows| && IsRow(rows[i], testCase, flags) && Apart(testCase.testInfoList) && ValidShard(shard)
    requires Upto(testCase, flags, shard, rows, i, 0, runnable0, selected0)
    modifies testCase, Infos(testCase)
    ensures Upto(testCase, flags, shard, rows, i, |rows[i]|, runnable, selected)
  {
    runnable, selected := runnable0, selected0;
    for j := 0 to |testCase.testInfoList|
      invariant Upto(testCase, flags, shard, rows, i, j, runnable, selected)
    {
      runnable, selected := FilterAndCount(testCase, flags, shard, runnable, selected, rows, i, j);
    }
  }

  /** The tests of case i before test j are marked and counted. */
  ghost predicate Upto(testCase: TestCase, flags: Flags, shard: Shard, rows: seq<seq<bool>>, i: nat, j: nat,
                       runnable: nat, selected: nat)
    requires ValidShard(shard) && i < |rows| && j <= |rows[i]| == |testCase.testInfoList|
    reads testCase, Infos(testCase)
  {
    CaseMarked(testCase, flags, ChosenOf(rows, shard, i, j)) && Counted(rows, shard, i, j, runnable, selected)
  }

  method FilterAndCount(testCase: TestCase, flags: Flags, shard: Shard, runnable0: nat, selected0: nat,
                        ghost rows: seq<seq<bool>>, ghost i: nat, j: nat)
    returns (runnable: nat, selected: nat)
    requires i < |rows| && IsRow(rows[i], testCase, flags) && Apart(testCase.testInfoList) && ValidShard(shard)
    requires j < |testCase.testInfoList| && Upto(testCase, flags, shard, rows, i, j, runnable0, selected0)
    modifies testCase, Infos(testCase)
    ensures Upto(testCase, flags, shard, rows, i, j + 1, runnable, selected)
  {
    var isRunnable, isSelected := FilterNext(testCase, j, flags, shard, runnable0, ChosenOf(rows, shard, i, j));
    CountStep(rows, shard, i, j, runnable0, selected0);
    runnable := runnable0 + if isRunnable then 1 else 0;
    selected := selected0 + if isSelected then 1 else 0;
  }

  /** The counters after the tests before test j of case i. */
  ghost predicate Counted(rows: seq<seq<bool>>, shard: Shard, i: int, j: int, runnable: int, selected: int)
    requires ValidShard(shard)
  {
    IsPlace(rows, i, j) && runnable == |Earlier(rows, i, j)| && selected == |ChosenBefore(rows, shard, i, j)|
  }

  lemma CountStep(rows: seq<seq<bool>>, shard: Shard, i: nat, j: nat, runnable: nat, selected: nat)
    requires ValidShard(shard) && i < |rows| && j < |rows[i]| && Counted(rows, shard, i, j, runnable, selected)
    ensures var isSelected := rows[i][j] && OnShard(shard, runnable);
      && ChosenOf(rows, shard, i, j + 1) == ChosenOf(rows, shard, i, j) + [isSelected]
      && Counted(rows, shard, i, j + 1, runnable + (if rows[i][j] then 1 else 0),
                 selected + if isSelected then 1 else 0)
  {
    ChosenStep(rows, shard, i, j);
  }

  lemma CountNextCase(rows: seq<seq<bool>>, shard: Shard, i: nat, runnable: nat, selected: nat)
    requires ValidShard(shard) && i < |rows| && Counted(rows, shard, i, |rows[i]|, runnable, selected)
    ensures Counted(rows, shard, i + 1, 0, runnable, selected)
  {
  }

  /** One more test is marked, and the case with it. */
  method FilterNext(testCase: TestCase, j: nat, flags: Flags, shard: Shard, id: nat, ghost chosen: seq<bool>)
    returns (isRunnable: bool, isSelected: bool)
    requires ValidShard(shard) && j < |testCase.testInfoList| && Apart(testCase.testInfoList)
    requires |chosen| == j && CaseMarked(testCase, flags, chosen)
    modifies testCase, testCase.testInfoList[j]
    ensures isRunnable == Runnable(testCase.name, testCase.testInfoList[j].name, flags)
    ensures isSelected == (isRunnable && OnShard(shard, id))
    ensures CaseMarked(testCase, flags, chosen + [isSelected])
  {
    isRunnable, isSelected := FilterTest(testCase, testCase.testInfoList[j], flags, shard, id);
    testCase.shouldRun := testCase.shouldRun || isSelected;
  }

  method FilterTest(testCase: TestCase, testInfo: TestInfo, flags: Flags, shard: Shard, id: nat)
    returns (isRunnable: bool, isSelected: bool)
    requires ValidShard(shard)
    modifies testInfo
    ensures isRunnable == Runnable(testCase.name, testInfo.name, flags)
    ensures isSelected == (isRunnable && OnShard(shard, id))
    ensures Marked(testCase, testInfo, flags, isSelected)
  {
    var isDisabled := IsDisabled(testCase.name, testInfo.name);
    testInfo.isDisabled := isDisabled;
    var matchesFilter := FilterMatchesTest(testCase.name, testInfo.name, flags.filter);
    testInfo.matchesFilter := matchesFilter;
    isRunnable := (flags.alsoRunDisabled || !isDisabled) && matchesFilter;
    isSelected := isRunnable && (shard.None? || ShouldRunTestOnShard(shard.value.0, shard.value.1, id));
    testInfo.shouldRun := isSelected;
  }

  method IsDisabled(caseName: string, testName: string) returns (isDisabled: bool)
    ensures isDisabled == Disabled(caseName, testName)
  {
    NoEndInside(DISABLE_TEST_FILTER);
    isDisabled := MatchesFilter(caseName, DISABLE_TEST_FILTER);
    if !isDisabled {
      isDisabled := MatchesFilter(testName, DISABLE_TEST_FILTER);
    }
  }
}
