/**
  The edit script between two lists by dynamic programming, in exact arithmetic: the table, the path traced back
  through it, what the path is worth, and when it is optimal.
 */
module EditScripts {

  datatype EditType = Match | Add | Remove | Replace

  /** Replacing is a little dearer than adding or removing. */
  const REPLACE_COST: real := 1.00001

  function CostOf(edit: EditType): real {
    match edit
    case Match => 0.0
    case Add => 1.0
    case Remove => 1.0
    case Replace => REPLACE_COST
  }

  function Weight(path: seq<EditType>): real {
    if path == [] then 0.0 else Weight(path[..|path| - 1]) + CostOf(path[|path| - 1])
  }

  // ----- what a script is

  /** `path` turns `left` into `right`: every element is consumed once, in order, and matches pair equals. */
  predicate IsScript<T(==)>(left: seq<T>, right: seq<T>, path: seq<EditType>) {
    if path == [] then left == [] && right == []
    else
      match path[0]
      case Match => left != [] && right != [] && left[0] == right[0] && IsScript(left[1..], right[1..], path[1..])
      case Add => right != [] && IsScript(left, right[1..], path[1..])
      case Remove => left != [] && IsScript(left[1..], right, path[1..])
      case Replace => left != [] && right != [] && IsScript(left[1..], right[1..], path[1..])
  }

  lemma {:induction false} ScriptExtended<T>(left: seq<T>, right: seq<T>, path: seq<EditType>, edit: EditType,
                                             l: seq<T>, r: seq<T>)
    requires IsScript(left, right, path)
    requires |l| == (if edit.Add? then 0 else 1) && |r| == (if edit.Remove? then 0 else 1)
    requires edit.Match? ==> l == r
    ensures IsScript(left + l, right + r, path + [edit])
  {
    if path == [] {
      assert left + l == l && right + r == r && path + [edit] == [edit];
      assert [edit][1..] == [];
    } else {
      assert (path + [edit])[0] == path[0] && (path + [edit])[1..] == path[1..] + [edit];
      var dl, dr := if path[0].Add? then 0 else 1, if path[0].Remove? then 0 else 1;
      ScriptExtended(left[dl..], right[dr..], path[1..], edit, l, r);
      assert (left + l)[dl..] == left[dl..] + l && (right + r)[dr..] == right[dr..] + r;
    }
  }

  /** The last edit of a script, and the script before it. */
  lemma {:induction false} ScriptShortened<T>(left: seq<T>, right: seq<T>, path: seq<EditType>)
    requires path != [] && IsScript(left, right, path)
    ensures var edit := path[|path| - 1];
      && (!edit.Add? ==> left != []) && (!edit.Remove? ==> right != [])
      && (edit.Match? ==> left[|left| - 1] == right[|right| - 1])
      && IsScript(if edit.Add? then left else left[..|left| - 1], if edit.Remove? then right else right[..|right| - 1],
                  path[..|path| - 1])
  {
    if |path| == 1 {
      assert path[1..] == [];
    } else {
      var dl, dr := if path[0].Add? then 0 else 1, if path[0].Remove? then 0 else 1;
      ScriptShortened(left[dl..], right[dr..], path[1..]);
      var edit := path[|path| - 1];
      assert path[1..][|path| - 2] == edit;
      assert path[..|path| - 1][1..] == path[1..][..|path| - 2];
      if !edit.Add? {
        assert left[..|left| - 1][dl..] == left[dl..][..|left| - dl - 1];
      }
      if !edit.Remove? {
        assert right[..|right| - 1][dr..] == right[dr..][..|right| - dr - 1];
      }
    }
  }

  // ----- the table

  function Min(a: nat, b: nat): nat { if a < b then a else b }

  /** The choice made for two unequal elements. */
  function Choice(add: real, remove: real, replace: real): EditType {
    if add < remove && add < replace then Add
    else if remove < add && remove < replace then Remove
    else Replace
  }

  function BestMove<T(==)>(left: seq<T>, right: seq<T>, i: nat, j: nat): EditType
    requires i <= |left| && j <= |right|
    decreases i, j
  {
    if j == 0 then Remove
    else if i == 0 then Add
    else if left[i - 1] == right[j - 1] then Match
    else
      Choice(TableCost(left, right, i, j - 1), TableCost(left, right, i - 1, j), TableCost(left, right, i - 1, j - 1))
  }

  function TableCost<T(==)>(left: seq<T>, right: seq<T>, i: nat, j: nat): real
    requires i <= |left| && j <= |right|
    decreases i, j
  {
    if j == 0 then i as real
    else if i == 0 then j as real
    else if left[i - 1] == right[j - 1] then TableCost(left, right, i - 1, j - 1)
    else
      var add, remove, replace :=
        TableCost(left, right, i, j - 1), TableCost(left, right, i - 1, j), TableCost(left, right, i - 1, j - 1);
      match Choice(add, remove, replace)
      case Add => add + 1.0
      case Remove => remove + 1.0
      case _ => replace + REPLACE_COST
  }

  /** Between unequal elements, the one neighbour that is cheapest is taken, one dearer; failing that, the diagonal one,
      dearer by the price of a replacement. A cheaper neighbour is passed over for more than the difference of the two
      prices only if adding and removing tie. */
  lemma CheapestNeighbourTaken<T>(left: seq<T>, right: seq<T>, i: nat, j: nat)
    requires 0 < i <= |left| && 0 < j <= |right| && left[i - 1] != right[j - 1]
    ensures var add, remove, replace :=
        TableCost(left, right, i, j - 1), TableCost(left, right, i - 1, j), TableCost(left, right, i - 1, j - 1);
      var cost, move := TableCost(left, right, i, j), BestMove(left, right, i, j);
      && (add < remove && add < replace ==> cost == add + 1.0 && move == Add)
      && (remove < add && remove < replace ==> cost == remove + 1.0 && move == Remove)
      && (add == remove || (replace <= add && replace <= remove) ==> cost == replace + 1.00001 && move == Replace)
      && (add != remove ==> cost <= add + 1.00001 && cost <= remove + 1.00001 && cost <= replace + 1.00001)
      && (add + 1.0 <= cost || remove + 1.0 <= cost || replace + 1.00001 <= cost)
  {
  }

  /** Equal elements are matched at no cost, and at the borders all is added or all removed. */
  lemma EqualsAndBorders<T>(left: seq<T>, right: seq<T>, i: nat, j: nat)
    requires i <= |left| && j <= |right| && i + j > 0
    ensures i > 0 && j > 0 && left[i - 1] == right[j - 1] ==>
      TableCost(left, right, i, j) == TableCost(left, right, i - 1, j - 1) && BestMove(left, right, i, j) == Match
    ensures i == 0 ==> TableCost(left, right, i, j) == j as real && BestMove(left, right, i, j) == Add
    ensures j == 0 ==> TableCost(left, right, i, j) == i as real && BestMove(left, right, i, j) == Remove
  {
  }

  /** The path traced back from cell `(i, j)`. */
  function Trace<T(==)>(left: seq<T>, right: seq<T>, i: nat, j: nat): seq<EditType>
    requires i <= |left| && j <= |right|
    decreases i + j
  {
    if i == 0 && j == 0 then []
    else
      var move := BestMove(left, right, i, j);
      Trace(left, right, if move.Add? then i else i - 1, if move.Remove? then j else j - 1) + [move]
  }

  /** The traced path is a script for the two prefixes. */
  lemma {:induction false} TraceIsScript<T>(left: seq<T>, right: seq<T>, i: nat, j: nat)
    requires i <= |left| && j <= |right|
    ensures IsScript(left[..i], right[..j], Trace(left, right, i, j))
    decreases i + j
  {
    if i > 0 || j > 0 {
      var move := BestMove(left, right, i, j);
      var i', j' := if move.Add? then i else i - 1, if move.Remove? then j else j - 1;
      TraceIsScript(left, right, i', j');
      PrefixesGrow(left, right, i, j, move, Trace(left, right, i', j'));
    }
  }

  lemma PrefixesGrow<T>(left: seq<T>, right: seq<T>, i: nat, j: nat, edit: EditType, path: seq<EditType>)
    requires i <= |left| && j <= |right| && (edit.Add? || i > 0) && (edit.Remove? || j > 0)
    requires edit.Match? ==> left[i - 1] == right[j - 1]
    requires IsScript(left[..if edit.Add? then i else i - 1], right[..if edit.Remove? then j else j - 1], path)
    ensures IsScript(left[..i], right[..j], path + [edit])
  {
    var i', j' := if edit.Add? then i else i - 1, if edit.Remove? then j else j - 1;
    assert left[..i] == left[..i'] + left[i'..i] && right[..j] == right[..j'] + right[j'..j];
    assert edit.Match? ==> left[i'..i] == [left[i - 1]] && right[j'..j] == [right[j - 1]];
    ScriptExtended(left[..i'], right[..j'], path, edit, left[i'..i], right[j'..j]);
  }

  lemma WeightSnoc(path: seq<EditType>, edit: EditType)
    ensures Weight(path + [edit]) == Weight(path) + CostOf(edit)
  {
    assert (path + [edit])[..|path|] == path;
  }

  /** In exact arithmetic the traced path weighs what the table says. */
  lemma {:induction false} TraceWeighsTheCost<T>(left: seq<T>, right: seq<T>, i: nat, j: nat)
    requires i <= |left| && j <= |right|
    ensures Weight(Trace(left, right, i, j)) == TableCost(left, right, i, j)
    decreases i + j
  {
    if i > 0 || j > 0 {
      var move := BestMove(left, right, i, j);
      var i', j' := if move.Add? then i else i - 1, if move.Remove? then j else j - 1;
      TraceWeighsTheCost(left, right, i', j');
      WeightSnoc(Trace(left, right, i', j'), move);
    }
  }

  /** Replacing all that can be paired and adding or removing the rest is never beaten by the table. */
  lemma {:induction false} CostBound<T>(left: seq<T>, right: seq<T>, i: nat, j: nat)
    requires i <= |left| && j <= |right|
    ensures 0.0 <= TableCost(left, right, i, j)
         <= REPLACE_COST * Min(i, j) as real + (if i < j then j - i else i - j) as real
    decreases i, j
  {
    if i > 0 && j > 0 {
      CostBound(left, right, i - 1, j - 1);
      assert Min(i, j) == Min(i - 1, j - 1) + 1;
      if left[i - 1] != right[j - 1] {
        CostBound(left, right, i, j - 1);
        CostBound(left, right, i - 1, j);
      }
    }
  }

  // ----- optimality

  ghost predicate OptimalAt<T(!new)>(left: seq<T>, right: seq<T>, i: nat, j: nat)
    requires i <= |left| && j <= |right|
  {
    forall path :: IsScript(left[..i], right[..j], path) ==> TableCost(left, right, i, j) <= Weight(path)
  }

  /** Adding or removing would have been cheaper, but a tie keeps both from being chosen. */
  predicate Tie<T(==)>(left: seq<T>, right: seq<T>, i: nat, j: nat)
    requires 0 < i <= |left| && 0 < j <= |right|
  {
    var add, remove, replace :=
      TableCost(left, right, i, j - 1), TableCost(left, right, i - 1, j), TableCost(left, right, i - 1, j - 1);
    && left[i - 1] != right[j - 1]
    && (add == remove || (replace <= add && replace <= remove))
    && (add + 1.0 < replace + REPLACE_COST || remove + 1.0 < replace + REPLACE_COST)
  }

  ghost predicate NoTies<T(!new)>(left: seq<T>, right: seq<T>) {
    forall i: nat, j: nat :: 0 < i <= |left| && 0 < j <= |right| ==> !Tie(left, right, i, j)
  }

  /** Without ties, neighbouring cells differ by one at most. */
  lemma {:induction false} NeighbouringCosts<T(!new)>(left: seq<T>, right: seq<T>, i: nat, j: nat)
    requires NoTies(left, right) && i <= |left| && j <= |right|
    ensures i > 0 ==>
      TableCost(left, right, i - 1, j) - 1.0 <= TableCost(left, right, i, j) <= TableCost(left, right, i - 1, j) + 1.0
    ensures j > 0 ==>
      TableCost(left, right, i, j - 1) - 1.0 <= TableCost(left, right, i, j) <= TableCost(left, right, i, j - 1) + 1.0
    decreases i + j
  {
    if i > 0 && j > 0 {
      NeighbouringCosts(left, right, i - 1, j);
      NeighbouringCosts(left, right, i, j - 1);
      assert !Tie(left, right, i, j);
      NextCosts(left, right, i, j);
    } else {
      BorderCosts(left, right, i, j);
    }
  }

  lemma BorderCosts<T(!new)>(left: seq<T>, right: seq<T>, i: nat, j: nat)
    requires i <= |left| && j <= |right| && (i == 0 || j == 0)
    ensures i > 0 ==> TableCost(left, right, i, j) == TableCost(left, right, i - 1, j) + 1.0
    ensures j > 0 ==> TableCost(left, right, i, j) == TableCost(left, right, i, j - 1) + 1.0
  {
  }

  lemma NextCosts<T(!new)>(left: seq<T>, right: seq<T>, i: nat, j: nat)
    requires 0 < i <= |left| && 0 < j <= |right| && !Tie(left, right, i, j)
    requires var corner, add, remove :=
        TableCost(left, right, i - 1, j - 1), TableCost(left, right, i, j - 1), TableCost(left, right, i - 1, j);
      corner - 1.0 <= add <= corner + 1.0 && corner - 1.0 <= remove <= corner + 1.0
    ensures TableCost(left, right, i - 1, j) - 1.0 <= TableCost(left, right, i, j)
    ensures TableCost(left, right, i, j) <= TableCost(left, right, i - 1, j) + 1.0
    ensures TableCost(left, right, i, j - 1) - 1.0 <= TableCost(left, right, i, j)
    ensures TableCost(left, right, i, j) <= TableCost(left, right, i, j - 1) + 1.0
  {
  }

  /** Without ties, no edit leads to a cell more cheaply than the table does. */
  lemma EditNotCheaper<T(!new)>(left: seq<T>, right: seq<T>, i: nat, j: nat, edit: EditType)
    requires NoTies(left, right) && i <= |left| && j <= |right| && (edit.Add? || i > 0) && (edit.Remove? || j > 0)
    requires edit.Match? ==> left[i - 1] == right[j - 1]
    ensures TableCost(left, right, i, j)
         <= TableCost(left, right, if edit.Add? then i else i - 1, if edit.Remove? then j else j - 1) + CostOf(edit)
  {
    NeighbouringCosts(left, right, i, j);
    if i > 0 && j > 0 {
      NeighbouringCosts(left, right, i - 1, j);
      assert !Tie(left, right, i, j);
    }
  }

  lemma {:induction false} NoTiesOptimal<T(!new)>(left: seq<T>, right: seq<T>, i: nat, j: nat, path: seq<EditType>)
    requires NoTies(left, right) && i <= |left| && j <= |right| && IsScript(left[..i], right[..j], path)
    ensures TableCost(left, right, i, j) <= Weight(path)
    decreases |path|
  {
    if path != [] {
      var edit, front := path[|path| - 1], path[..|path| - 1];
      ScriptShortened(left[..i], right[..j], path);
      assert !edit.Add? ==> left[..i][..i - 1] == left[..i - 1];
      assert !edit.Remove? ==> right[..j][..j - 1] == right[..j - 1];
      NoTiesOptimal(left, right, if edit.Add? then i else i - 1, if edit.Remove? then j else j - 1, front);
      EditNotCheaper(left, right, i, j, edit);
    }
  }

  /** A tie costs the optimum of its own cell. */
  lemma TieNotOptimal<T(!new)>(left: seq<T>, right: seq<T>, i: nat, j: nat)
    requires 0 < i <= |left| && 0 < j <= |right| && Tie(left, right, i, j)
    ensures !OptimalAt(left, right, i, j)
  {
    var add := TableCost(left, right, i, j - 1) + 1.0 < TableCost(left, right, i - 1, j - 1) + REPLACE_COST;
    var edit := if add then Add else Remove;
    var i', j' := if add then i else i - 1, if add then j - 1 else j;
    TraceIsScript(left, right, i', j');
    TraceWeighsTheCost(left, right, i', j');
    PrefixesGrow(left, right, i, j, edit, Trace(left, right, i', j'));
    WeightSnoc(Trace(left, right, i', j'), edit);
  }

  /** The table is optimal for every pair of prefixes exactly when no cell has a tie. */
  lemma OptimalIffNoTies<T(!new)>(left: seq<T>, right: seq<T>)
    ensures NoTies(left, right) <==>
      forall i: nat, j: nat :: i <= |left| && j <= |right| ==> OptimalAt(left, right, i, j)
  {
    if NoTies(left, right) {
      forall i: nat, j: nat, path | i <= |left| && j <= |right| && IsScript(left[..i], right[..j], path)
        ensures TableCost(left, right, i, j) <= Weight(path)
      {
        NoTiesOptimal(left, right, i, j, path);
      }
    }
    forall i: nat, j: nat | 0 < i <= |left| && 0 < j <= |right| && Tie(left, right, i, j)
      ensures !OptimalAt(left, right, i, j)
    {
      TieNotOptimal(left, right, i, j);
    }
  }

  /** With a tie the whole script can be worse than need be: an addition and a removal would do for three
      replacements. */
  lemma TiesCanCost(left: seq<nat>, right: seq<nat>)
    requires left == [1, 0, 1] && right == [0, 1, 0]
    ensures Trace(left, right, 3, 3) == [Replace, Replace, Replace]
    ensures IsScript(left, right, [Add, Match, Match, Remove]) && Weight([Add, Match, Match, Remove]) == 2.0
    ensures TableCost(left, right, 3, 3) == 3.00003 && !OptimalAt(left, right, 3, 3)
  {
    TiedRows(left, right);
    TiedTrace(left, right);
    BetterScript();
    BetterWeight();
    assert left[..3] == left && right[..3] == right;
  }

  lemma TiedRows(left: seq<nat>, right: seq<nat>)
    requires left == [1, 0, 1] && right == [0, 1, 0]
    ensures TableCost(left, right, 1, 1) == REPLACE_COST && TableCost(left, right, 2, 2) == 2.0 * REPLACE_COST
    ensures TableCost(left, right, 1, 2) == TableCost(left, right, 2, 1) == 1.0
    ensures TableCost(left, right, 2, 3) == TableCost(left, right, 3, 2) == 1.0
    ensures TableCost(left, right, 3, 3) == 3.0 * REPLACE_COST
  {
    TiedRow(left, right, 1);
    assert TableCost(left, right, 1, 1) == REPLACE_COST;
    assert TableCost(left, right, 1, 2) == TableCost(left, right, 0, 1) == 1.0;
    assert TableCost(left, right, 2, 1) == TableCost(left, right, 1, 0) == 1.0;
    TiedRow(left, right, 2);
    assert TableCost(left, right, 2, 3) == TableCost(left, right, 1, 2);
    assert TableCost(left, right, 3, 2) == TableCost(left, right, 2, 1);
    TiedRow(left, right, 3);
  }

  /** On the diagonal the elements differ, and a tie of adding and removing makes for a replacement. */
  lemma TiedRow(left: seq<nat>, right: seq<nat>, i: nat)
    requires 0 < i <= |left| && i <= |right| && left[i - 1] != right[i - 1]
    requires TableCost(left, right, i, i - 1) == TableCost(left, right, i - 1, i)
    ensures TableCost(left, right, i, i) == TableCost(left, right, i - 1, i - 1) + REPLACE_COST
    ensures BestMove(left, right, i, i) == Replace
  {
  }

  lemma TiedTrace(left: seq<nat>, right: seq<nat>)
    requires left == [1, 0, 1] && right == [0, 1, 0]
    ensures Trace(left, right, 3, 3) == [Replace, Replace, Replace]
  {
    TiedRows(left, right);
    TiedRow(left, right, 1);
    TiedRow(left, right, 2);
    TiedRow(left, right, 3);
    assert Trace(left, right, 1, 1) == [Replace];
    assert Trace(left, right, 2, 2) == [Replace, Replace];
  }

  lemma BetterScript()
    ensures IsScript<nat>([1, 0, 1], [0, 1, 0], [Add, Match, Match, Remove])
  {
    var left, right, path: seq<EditType> := [1, 0, 1], [0, 1, 0], [Add, Match, Match, Remove];
    assert left[2..] == [1] && path[3..] == [Remove];
    assert IsScript(left[3..], right[3..], path[4..]);
    ScriptFrom(left, right, path, 2, 3, 3);
    ScriptFrom(left, right, path, 1, 2, 2);
    ScriptFrom(left, right, path, 0, 1, 1);
    ScriptFrom(left, right, path, 0, 0, 0);
    assert left[0..] == left && right[0..] == right && path[0..] == path;
  }

  /** One edit more at the front. */
  lemma ScriptFrom(left: seq<nat>, right: seq<nat>, path: seq<EditType>, l: nat, r: nat, e: nat)
    requires l <= |left| && r <= |right| && e < |path|
    requires (path[e].Add? || l < |left|) && (path[e].Remove? || r < |right|)
    requires path[e].Match? ==> left[l] == right[r]
    requires IsScript(left[if path[e].Add? then l else l + 1..], right[if path[e].Remove? then r else r + 1..],
                      path[e + 1..])
    ensures IsScript(left[l..], right[r..], path[e..])
  {
    assert path[e..][1..] == path[e + 1..];
    assert l < |left| ==> left[l..][1..] == left[l + 1..];
    assert r < |right| ==> right[r..][1..] == right[r + 1..];
  }

  lemma BetterWeight()
    ensures Weight([Add, Match, Match, Remove]) == 2.0
  {
    WeightSnoc([], Add);
    WeightSnoc([Add], Match);
    WeightSnoc([Add, Match], Match);
    WeightSnoc([Add, Match, Match], Remove);
    assert [] + [Add] == [Add] && [Add] + [Match] == [Add, Match] && [Add, Match] + [Match] == [Add, Match, Match];
    assert [Add, Match, Match] + [Remove] == [Add, Match, Match, Remove];
  }

  /** A list that has lost its first element and gained a last one is mended by just that. */
  lemma ShiftedList<T>(a: T, b: T, c: T)
    requires a != b && b != c && a != c
    ensures Trace([a, b], [b, c], 2, 2) == [Remove, Match, Add] && TableCost([a, b], [b, c], 2, 2) == 2.0
  {
    var left, right := [a, b], [b, c];
    assert TableCost(left, right, 1, 1) == REPLACE_COST;
    assert TableCost(left, right, 2, 1) == TableCost(left, right, 1, 0) == 1.0;
    assert TableCost(left, right, 1, 2) == 1.0 + REPLACE_COST by {
      assert TableCost(left, right, 0, 2) == 2.0;
    }
    assert BestMove(left, right, 2, 2) == Add && BestMove(left, right, 2, 1) == Match;
    assert Trace(left, right, 0, 0) == [];
    assert Trace(left, right, 1, 0) == [Remove];
    assert Trace(left, right, 2, 1) == [Remove, Match];
  }

  // ----- CalculateOptimalEdits

  method CalculateOptimalEdits(left: seq<nat>, right: seq<nat>) returns (bestPath: seq<EditType>)
    ensures bestPath == Trace(left, right, |left|, |right|)
    ensures IsScript(left, right, bestPath)
    ensures Weight(bestPath) == TableCost(left, right, |left|, |right|)
    ensures Weight(bestPath) <= REPLACE_COST * Min(|left|, |right|) as real
      + (if |left| < |right| then |right| - |left| else |left| - |right|) as real
  {
    var costs := new real[|left| + 1, |right| + 1];
    var bestMove := new EditType[|left| + 1, |right| + 1];
    FillBorders(left, right, costs, bestMove);
    var i := 0;
    while i < |left|
      invariant i <= |left|
      invariant forall a, b :: 0 <= a <= i && 0 <= b <= |right| ==>
        CellDone(left, right, a, b, costs[a, b], bestMove[a, b])
      invariant forall a :: 0 <= a <= |left| ==> CellDone(left, right, a, 0, costs[a, 0], bestMove[a, 0])
    {
      FillRow(left, right, costs, bestMove, i);
      i := i + 1;
    }
    bestPath := TraceBack(left, right, costs, bestMove);
    TraceIsScript(left, right, |left|, |right|);
    TraceWeighsTheCost(left, right, |left|, |right|);
    CostBound(left, right, |left|, |right|);
    assert left[..|left|] == left && right[..|right|] == right;
  }

  /** Cell `(i, j)` holds its cost and its best move. */
  predicate CellDone(left: seq<nat>, right: seq<nat>, i: nat, j: nat, cost: real, move: EditType)
    requires i <= |left| && j <= |right|
  {
    cost == TableCost(left, right, i, j) && move == BestMove(left, right, i, j)
  }

  predicate TableFor(left: seq<nat>, right: seq<nat>, costs: array2<real>, bestMove: array2<EditType>) {
    costs.Length0 == bestMove.Length0 == |left| + 1 && costs.Length1 == bestMove.Length1 == |right| + 1
  }

  method FillBorders(left: seq<nat>, right: seq<nat>, costs: array2<real>, bestMove: array2<EditType>)
    requires TableFor(left, right, costs, bestMove)
    modifies costs, bestMove
    ensures forall i :: 0 <= i <= |left| ==> CellDone(left, right, i, 0, costs[i, 0], bestMove[i, 0])
    ensures forall j :: 0 <= j <= |right| ==> CellDone(left, right, 0, j, costs[0, j], bestMove[0, j])
  {
    var i := 0;
    while i < costs.Length0
      invariant i <= costs.Length0
      invariant forall a :: 0 <= a < i ==> CellDone(left, right, a, 0, costs[a, 0], bestMove[a, 0])
    {
      costs[i, 0], bestMove[i, 0] := i as real, Remove;
      i := i + 1;
    }
    var j := 1;
    while j < costs.Length1
      invariant 1 <= j <= costs.Length1
      invariant forall a :: 0 <= a <= |left| ==> CellDone(left, right, a, 0, costs[a, 0], bestMove[a, 0])
      invariant forall b :: 0 <= b < j ==> CellDone(left, right, 0, b, costs[0, b], bestMove[0, b])
    {
      costs[0, j], bestMove[0, j] := j as real, Add;
      j := j + 1;
    }
  }

  method FillRow(left: seq<nat>, right: seq<nat>, costs: array2<real>, bestMove: array2<EditType>, i: nat)
    requires i < |left|
    requires TableFor(left, right, costs, bestMove)
    requires forall a, b :: 0 <= a <= i && 0 <= b <= |right| ==>
      CellDone(left, right, a, b, costs[a, b], bestMove[a, b])
    requires forall a :: 0 <= a <= |left| ==> CellDone(left, right, a, 0, costs[a, 0], bestMove[a, 0])
    modifies costs, bestMove
    ensures forall a, b :: 0 <= a <= i + 1 && 0 <= b <= |right| ==>
      CellDone(left, right, a, b, costs[a, b], bestMove[a, b])
    ensures forall a :: 0 <= a <= |left| ==> CellDone(left, right, a, 0, costs[a, 0], bestMove[a, 0])
  {
    var j := 0;
    while j < |right|
      invariant j <= |right|
      invariant forall a, b :: 0 <= a <= i && 0 <= b <= |right| ==>
        CellDone(left, right, a, b, costs[a, b], bestMove[a, b])
      invariant forall a, b :: a == i + 1 && 0 <= b <= j ==> CellDone(left, right, a, b, costs[a, b], bestMove[a, b])
      invariant forall a :: 0 <= a <= |left| ==> CellDone(left, right, a, 0, costs[a, 0], bestMove[a, 0])
    {
      FillCell(left, right, costs, bestMove, i, j);
      j := j + 1;
    }
  }

  method FillCell(left: seq<nat>, right: seq<nat>, costs: array2<real>, bestMove: array2<EditType>, i: nat, j: nat)
    requires i < |left| && j < |right| && TableFor(left, right, costs, bestMove)
    requires CellDone(left, right, i, j, costs[i, j], bestMove[i, j])
    requires CellDone(left, right, i + 1, j, costs[i + 1, j], bestMove[i + 1, j])
    requires CellDone(left, right, i, j + 1, costs[i, j + 1], bestMove[i, j + 1])
    modifies costs, bestMove
    ensures CellDone(left, right, i + 1, j + 1, costs[i + 1, j + 1], bestMove[i + 1, j + 1])
    ensures forall a, b :: 0 <= a <= |left| && 0 <= b <= |right| && (a, b) != (i + 1, j + 1) ==>
      costs[a, b] == old(costs[a, b]) && bestMove[a, b] == old(bestMove[a, b])
  {
    if left[i] == right[j] {
      costs[i + 1, j + 1], bestMove[i + 1, j + 1] := costs[i, j], Match;
    } else {
      var add, remove, replace := costs[i + 1, j], costs[i, j + 1], costs[i, j];
      if add < remove && add < replace {
        costs[i + 1, j + 1], bestMove[i + 1, j + 1] := add + 1.0, Add;
      } else if remove < add && remove < replace {
        costs[i + 1, j + 1], bestMove[i + 1, j + 1] := remove + 1.0, Remove;
      } else {
        costs[i + 1, j + 1], bestMove[i + 1, j + 1] := replace + REPLACE_COST, Replace;
      }
    }
  }

  /** Reconstructs the path in reverse order; each move found is put in front of those found before. */
  method TraceBack(left: seq<nat>, right: seq<nat>, costs: array2<real>, bestMove: array2<EditType>)
    returns (path: seq<EditType>)
    requires TableFor(left, right, costs, bestMove)
    requires forall a, b :: 0 <= a <= |left| && 0 <= b <= |right| ==>
      CellDone(left, right, a, b, costs[a, b], bestMove[a, b])
    ensures path == Trace(left, right, |left|, |right|)
  {
    var i, j := |left|, |right|;
    path := [];
    while i > 0 || j > 0
      invariant 0 <= i <= |left| && 0 <= j <= |right|
      invariant Trace(left, right, i, j) + path == Trace(left, right, |left|, |right|)
      decreases i + j
    {
      assert CellDone(left, right, i, j, costs[i, j], bestMove[i, j]);
      var move := bestMove[i, j];
      path := [move] + path;
      if move != Add {
        i := i - 1;
      }
      if move != Remove {
        j := j - 1;
      }
    }
  }

  // ----- strings

  /** Numbers strings so that equal strings, and only they, get equal numbers. */
  class InternalStrings {
    var ids: map<string, nat>

    ghost predicate Valid()
      reads this
    {
      && (forall s :: s in ids ==> ids[s] < |ids|)
      && (forall s, t :: s in ids && t in ids && ids[s] == ids[t] ==> s == t)
    }

    constructor ()
      ensures Valid() && ids == map[]
    {
      ids := map[];
    }

    method GetId(str: string) returns (id: nat)
      requires Valid()
      modifies this
      ensures Valid() && str in ids && id == ids[str]
      ensures forall s :: s in old(ids) ==> s in ids && ids[s] == old(ids)[s]
      ensures forall s :: s in ids ==> s in old(ids) || s == str
    {
      if str in ids {
        return ids[str];
      }
      id := |ids|;
      ids := ids[str := id];
    }

    /** The numbers of a list of strings. */
    method GetIds(strings: seq<string>) returns (numbers: seq<nat>)
      requires Valid()
      modifies this
      ensures Valid() && |numbers| == |strings|
      ensures forall k :: 0 <= k < |strings| ==> strings[k] in ids && numbers[k] == ids[strings[k]]
      ensures forall s :: s in old(ids) ==> s in ids && ids[s] == old(ids)[s]
    {
      numbers := [];
      var i := 0;
      while i < |strings|
        invariant Valid() && i == |numbers| <= |strings|
        invariant forall k :: 0 <= k < i ==> strings[k] in ids && numbers[k] == ids[strings[k]]
        invariant forall s :: s in old(ids) ==> s in ids && ids[s] == old(ids)[s]
      {
        var id := GetId(strings[i]);
        numbers := numbers + [id];
        i := i + 1;
      }
    }
  }

  ghost predicate Numbers(ids: map<string, nat>, strings: seq<string>, numbers: seq<nat>) {
    |numbers| == |strings| && forall k :: 0 <= k < |strings| ==> strings[k] in ids && numbers[k] == ids[strings[k]]
  }

  /** The numbers pair up as the strings do, so table and path are those of the strings. */
  lemma {:induction false} CostOfNumbers(ids: map<string, nat>, left: seq<string>, right: seq<string>,
                                         l: seq<nat>, r: seq<nat>, i: nat, j: nat)
    requires forall s, t :: s in ids && t in ids && ids[s] == ids[t] ==> s == t
    requires Numbers(ids, left, l) && Numbers(ids, right, r) && i <= |left| && j <= |right|
    ensures TableCost(l, r, i, j) == TableCost(left, right, i, j) && BestMove(l, r, i, j) == BestMove(left, right, i, j)
    decreases i, j
  {
    if i > 0 && j > 0 {
      CostOfNumbers(ids, left, right, l, r, i - 1, j - 1);
      CostOfNumbers(ids, left, right, l, r, i, j - 1);
      CostOfNumbers(ids, left, right, l, r, i - 1, j);
      SameCell(left, right, l, r, i, j);
    }
  }

  /** Cells with the same neighbours, at elements that are equal on both sides or on neither, are the same. */
  lemma SameCell<T, U>(left: seq<T>, right: seq<T>, l: seq<U>, r: seq<U>, i: nat, j: nat)
    requires 0 < i <= |left| == |l| && 0 < j <= |right| == |r|
    requires l[i - 1] == r[j - 1] <==> left[i - 1] == right[j - 1]
    requires TableCost(l, r, i - 1, j - 1) == TableCost(left, right, i - 1, j - 1)
    requires TableCost(l, r, i, j - 1) == TableCost(left, right, i, j - 1)
    requires TableCost(l, r, i - 1, j) == TableCost(left, right, i - 1, j)
    ensures TableCost(l, r, i, j) == TableCost(left, right, i, j) && BestMove(l, r, i, j) == BestMove(left, right, i, j)
  {
  }

  lemma {:induction false} TraceOfNumbers(ids: map<string, nat>, left: seq<string>, right: seq<string>,
                                          l: seq<nat>, r: seq<nat>, i: nat, j: nat)
    requires forall s, t :: s in ids && t in ids && ids[s] == ids[t] ==> s == t
    requires Numbers(ids, left, l) && Numbers(ids, right, r) && i <= |left| && j <= |right|
    ensures Trace(l, r, i, j) == Trace(left, right, i, j)
    decreases i + j
  {
    if i > 0 || j > 0 {
      CostOfNumbers(ids, left, right, l, r, i, j);
      var move := BestMove(l, r, i, j);
      TraceOfNumbers(ids, left, right, l, r, if move.Add? then i else i - 1, if move.Remove? then j else j - 1);
    }
  }

  /** Equal lists give nothing but matches. */
  lemma {:induction false} EqualListsMatch<T>(left: seq<T>, i: nat)
    requires i <= |left|
    ensures |Trace(left, left, i, i)| == i && forall k :: 0 <= k < i ==> Trace(left, left, i, i)[k] == Match
  {
    if i > 0 {
      EqualListsMatch(left, i - 1);
    }
  }

  method CalculateStringEdits(left: seq<string>, right: seq<string>) returns (path: seq<EditType>)
    ensures path == Trace(left, right, |left|, |right|)
    ensures IsScript(left, right, path)
    ensures Weight(path) == TableCost(left, right, |left|, |right|)
    ensures Weight(path) <= REPLACE_COST * Min(|left|, |right|) as real
      + (if |left| < |right| then |right| - |left| else |left| - |right|) as real
    ensures left == right ==> forall k :: 0 <= k < |path| ==> path[k] == Match
  {
    var table := new InternalStrings();
    var leftIds := table.GetIds(left);
    var rightIds := table.GetIds(right);
    path := CalculateOptimalEdits(leftIds, rightIds);
    StringEdits(table.ids, left, right, leftIds, rightIds);
  }

  lemma StringEdits(ids: map<string, nat>, left: seq<string>, right: seq<string>, l: seq<nat>, r: seq<nat>)
    requires forall s, t :: s in ids && t in ids && ids[s] == ids[t] ==> s == t
    requires Numbers(ids, left, l) && Numbers(ids, right, r)
    ensures Trace(l, r, |l|, |r|) == Trace(left, right, |left|, |right|)
    ensures TableCost(l, r, |l|, |r|) == TableCost(left, right, |left|, |right|)
    ensures IsScript(left, right, Trace(left, right, |left|, |right|))
    ensures left == right ==>
      forall k :: 0 <= k < |Trace(left, right, |left|, |right|)| ==> Trace(left, right, |left|, |right|)[k] == Match
  {
    CostOfNumbers(ids, left, right, l, r, |left|, |right|);
    TraceOfNumbers(ids, left, right, l, r, |left|, |right|);
    TraceIsScript(left, right, |left|, |right|);
    assert left[..|left|] == left && right[..|right|] == right;
    if left == right {
      EqualListsMatch(left, |left|);
    }
  }
}
