/**
  Maximum bipartite matching by augmenting paths, each left node being tried once: elements on the left, matchers
  on the right, and an edge where the matcher accepts the element.
 */
module Matching {

  datatype MatchMatrix = MatchMatrix(lhs: nat, rhs: nat, edges: set<(nat, nat)>)
  {
    predicate HasEdge(l: nat, r: nat) {
      (l, r) in edges
    }
  }

  /** `kUnused` */
  const UNUSED := -1

  // ----- matchings, and why a closed set bounds them

  ghost predicate IsMatching(g: MatchMatrix, m: set<(nat, nat)>) {
    && (forall e :: e in m ==> e.0 < g.lhs && e.1 < g.rhs && g.HasEdge(e.0, e.1))
    && (forall d, e :: d in m && e in m && (d.0 == e.0 || d.1 == e.1) ==> d == e)
  }

  /** A set of left nodes and a set of right nodes touch every edge. */
  ghost predicate Covers(g: MatchMatrix, ls: set<nat>, rs: set<nat>) {
    forall l: nat, r: nat :: l < g.lhs && r < g.rhs && g.HasEdge(l, r) ==> l in ls || r in rs
  }

  lemma {:induction false} InjectiveLeft(m: set<(nat, nat)>, ls: set<nat>)
    requires forall e :: e in m ==> e.0 in ls
    requires forall d, e :: d in m && e in m && d.0 == e.0 ==> d == e
    ensures |m| <= |ls|
    decreases m
  {
    if m != {} {
      var e :| e in m;
      InjectiveLeft(m - {e}, ls - {e.0});
    }
  }

  lemma {:induction false} InjectiveRight(m: set<(nat, nat)>, rs: set<nat>)
    requires forall e :: e in m ==> e.1 in rs
    requires forall d, e :: d in m && e in m && d.1 == e.1 ==> d == e
    ensures |m| <= |rs|
    decreases m
  {
    if m != {} {
      var e :| e in m;
      InjectiveRight(m - {e}, rs - {e.1});
    }
  }

  /** No matching is larger than a cover. */
  lemma CoverBoundsMatching(g: MatchMatrix, m: set<(nat, nat)>, ls: set<nat>, rs: set<nat>)
    requires IsMatching(g, m) && Covers(g, ls, rs)
    ensures |m| <= |ls| + |rs|
  {
    var right := set e | e in m && e.1 in rs;
    var left := m - right;
    InjectiveRight(right, rs);
    forall e | e in left ensures e.0 in ls {
      assert g.HasEdge(e.0, e.1);
    }
    InjectiveLeft(left, ls);
    assert m == left + right;
  }

  // ----- the state of the search, as sequences

  ghost predicate InRange(g: MatchMatrix, left: seq<int>, right: seq<int>) {
    && |left| == g.lhs && |right| == g.rhs
    && (forall l :: 0 <= l < |left| ==> left[l] == UNUSED || (0 <= left[l] < g.rhs && g.HasEdge(l, left[l])))
    && (forall r :: 0 <= r < |right| ==> right[r] == UNUSED || 0 <= right[r] < g.lhs)
  }

  /** `left` and `right` refer to each other, except that `right[hole]` is out of date. */
  ghost predicate Mutual(g: MatchMatrix, left: seq<int>, right: seq<int>, hole: int) {
    && InRange(g, left, right)
    && (forall l :: 0 <= l < |left| && left[l] != UNUSED ==> right[left[l]] == l)
    && (forall r :: 0 <= r < |right| && r != hole && right[r] != UNUSED ==> left[right[r]] == r)
  }

  /** Every right node of `d` is taken, by a left node whose edges all lead into `d`. */
  ghost predicate Closed(g: MatchMatrix, right: seq<int>, d: set<nat>) {
    forall r :: r in d ==> r < |right| && right[r] >= 0 && Neighbours(g, right[r], d)
  }

  ghost predicate Neighbours(g: MatchMatrix, l: int, d: set<nat>) {
    forall r: nat :: r < g.rhs && l >= 0 && g.HasEdge(l, r) ==> r in d
  }

  ghost predicate Agree(a: seq<int>, b: seq<int>, d: set<nat>) {
    |a| == |b| && forall r :: r in d && r < |a| ==> a[r] == b[r]
  }

  ghost function Marked(seen: seq<bool>): set<nat> {
    set r: nat | r < |seen| && seen[r]
  }

  ghost function Unmarked(seen: seq<bool>): set<nat> {
    set r: nat | r < |seen| && !seen[r]
  }

  /** Everything that `now` has marked beyond `before` is taken, by a left node whose edges lead to marked nodes. */
  ghost predicate DeadEnds(g: MatchMatrix, right: seq<int>, before: seq<bool>, now: seq<bool>) {
    && |before| == |now| == |right|
    && (forall r :: 0 <= r < |now| && before[r] ==> now[r])
    && (forall r :: 0 <= r < |now| && now[r] && !before[r] ==> right[r] >= 0 && Neighbours(g, right[r], Marked(now)))
  }

  lemma NeighboursGrow(g: MatchMatrix, l: int, now: seq<bool>, later: seq<bool>)
    requires |now| == |later| && (forall r :: 0 <= r < |now| && now[r] ==> later[r]) && Neighbours(g, l, Marked(now))
    ensures Neighbours(g, l, Marked(later))
  {
    forall r: nat | r < g.rhs && l >= 0 && g.HasEdge(l, r) ensures r in Marked(later) {
      assert r in Marked(now);
    }
  }

  lemma DeadEndsJoin(g: MatchMatrix, right: seq<int>, before: seq<bool>, now: seq<bool>, later: seq<bool>)
    requires DeadEnds(g, right, before, now) && DeadEnds(g, right, now, later)
    ensures DeadEnds(g, right, before, later)
  {
    forall r | 0 <= r < |later| && later[r] && !before[r]
      ensures right[r] >= 0 && Neighbours(g, right[r], Marked(later))
    {
      if now[r] {
        NeighboursGrow(g, right[r], now, later);
      }
    }
  }

  lemma FewerUnmarked(before: seq<bool>, now: seq<bool>)
    requires |before| == |now| && forall r :: 0 <= r < |now| && before[r] ==> now[r]
    ensures Unmarked(now) < Unmarked(before) || now == before
  {
    if r :| 0 <= r < |now| && now[r] && !before[r] {
      assert r in Unmarked(before) && r !in Unmarked(now);
    }
  }

  /** What a successful search from `l` has done: `l` left `left[l]`, if it had one, for another right node. */
  ghost predicate Augmented(g: MatchMatrix, left: seq<int>, right: seq<int>, left': seq<int>, right': seq<int>,
                            l: nat, kept: set<nat>)
    requires l < |left|
  {
    && Mutual(g, left', right', left[l]) && |left'| == |left|
    && left'[l] != UNUSED && left'[l] != left[l]
    && (forall k :: 0 <= k < |left| && k != l ==> (left'[k] == UNUSED <==> left[k] == UNUSED))
    && Agree(right', right, kept)
  }

  /** `r` is free: one edge makes the path. */
  lemma AugmentDirectly(g: MatchMatrix, left: seq<int>, right: seq<int>, l: nat, r: nat, kept: set<nat>)
    requires Mutual(g, left, right, UNUSED) && l < g.lhs && r < g.rhs && g.HasEdge(l, r)
    requires right[r] == UNUSED && r !in kept
    ensures Augmented(g, left, right, left[l := r], right[r := l], l, kept)
  {
  }

  /** `r` was taken by `right[r]`, which has found itself another. */
  lemma AugmentThrough(g: MatchMatrix, left: seq<int>, right: seq<int>, left': seq<int>, right': seq<int>,
                       l: nat, r: nat, kept: set<nat>)
    requires Mutual(g, left, right, UNUSED) && l < g.lhs && r < g.rhs && g.HasEdge(l, r) && right[r] != UNUSED
    requires r !in kept && (left[l] != UNUSED ==> left[l] in kept)
    requires Augmented(g, left, right, left', right', right[r], kept + {r})
    ensures Augmented(g, left, right, left'[l := r], right'[r := l], l, kept)
  {
    if left[l] != UNUSED {
      assert right'[left[l]] == right[left[l]] == l;
      assert left'[l] == left[l];
    }
    assert right'[r] == right[r];
  }

  class MaxBipartiteMatchState {
    const graph: MatchMatrix
    const left: array<int>
    const right: array<int>

    constructor (g: MatchMatrix)
      ensures graph == g && fresh(left) && fresh(right) && left != right
      ensures Mutual(g, left[..], right[..], UNUSED)
      ensures forall l :: 0 <= l < g.lhs ==> left[l] == UNUSED
      ensures forall r :: 0 <= r < g.rhs ==> right[r] == UNUSED
    {
      graph := g;
      left := new int[g.lhs](_ => UNUSED);
      right := new int[g.rhs](_ => UNUSED);
    }

    /** Depth-first search for an augmenting path from `l`. On success `l` and everybody matched before is matched;
        on failure nothing changed, and what was seen is closed. A closed set `d` is never entered with success. */
    method TryAugment(l: nat, seen: array<bool>, ghost d: set<nat>) returns (found: bool)
      requires left != right && l < graph.lhs && seen.Length == graph.rhs
      requires Mutual(graph, left[..], right[..], UNUSED) && Closed(graph, right[..], d)
      requires left[l] != UNUSED ==> seen[left[l]]
      modifies left, right, seen
      ensures found ==>
        Augmented(graph, old(left[..]), old(right[..]), left[..], right[..], l, Marked(old(seen[..])) + d)
      ensures !found ==> left[..] == old(left[..]) && right[..] == old(right[..])
      ensures !found ==> DeadEnds(graph, right[..], old(seen[..]), seen[..]) && Neighbours(graph, l, Marked(seen[..]))
      ensures Neighbours(graph, l, d) ==> !found
      decreases Unmarked(seen[..]), 1
    {
      var r := 0;
      while r < graph.rhs
        invariant r <= graph.rhs
        invariant left[..] == old(left[..]) && right[..] == old(right[..])
        invariant DeadEnds(graph, right[..], old(seen[..]), seen[..])
        invariant forall k :: 0 <= k < r && graph.HasEdge(l, k) ==> seen[k]
      {
        if !seen[r] && graph.HasEdge(l, r) {
          ghost var now := seen[..];
          FewerUnmarked(old(seen[..]), now);
          found := FollowEdge(l, r, seen, d);
          if found {
            KeptLess(graph, old(left[..]), old(right[..]), left[..], right[..], l,
                     Marked(now) + d, Marked(old(seen[..])) + d);
            return;
          }
          DeadEndsJoin(graph, right[..], old(seen[..]), now, seen[..]);
        }
        r := r + 1;
      }
      found := false;
    }

    /** Marks `r`, and takes it if it is free or can be freed. */
    method FollowEdge(l: nat, r: nat, seen: array<bool>, ghost d: set<nat>) returns (found: bool)
      requires left != right && l < graph.lhs && seen.Length == graph.rhs
      requires Mutual(graph, left[..], right[..], UNUSED) && Closed(graph, right[..], d)
      requires left[l] != UNUSED ==> seen[left[l]]
      requires r < graph.rhs && graph.HasEdge(l, r) && !seen[r]
      modifies left, right, seen
      ensures found ==>
        Augmented(graph, old(left[..]), old(right[..]), left[..], right[..], l, Marked(old(seen[..])) + d)
      ensures !found ==> left[..] == old(left[..]) && right[..] == old(right[..])
      ensures !found ==> DeadEnds(graph, right[..], old(seen[..]), seen[..]) && seen[r]
      ensures Neighbours(graph, l, d) ==> !found
      decreases Unmarked(seen[..]), 0
    {
      ghost var kept := Marked(seen[..]) + d;
      seen[r] := true;
      FewerUnmarked(old(seen[..]), seen[..]);
      if right[r] == UNUSED {
        AugmentDirectly(graph, left[..], right[..], l, r, kept);
        left[l], right[r] := r, l;
        return true;
      }
      var next := right[r];
      ghost var marked := Marked(seen[..]);
      found := TryAugment(next, seen, d);
      if found {
        KeptLess(graph, old(left[..]), old(right[..]), left[..], right[..], next, marked + d, kept + {r});
        AugmentThrough(graph, old(left[..]), old(right[..]), left[..], right[..], l, r, kept);
        left[l], right[r] := r, l;
      }
    }

    /** Tries every left node once, then lists the edges found. The result is a matching, and none is larger. */
    method Compute() returns (pairs: seq<(nat, nat)>)
      requires left != right && Mutual(graph, left[..], right[..], UNUSED)
      requires forall l :: 0 <= l < graph.lhs ==> left[l] == UNUSED
      modifies left, right
      ensures Mutual(graph, left[..], right[..], UNUSED)
      ensures IsMaximum(graph, pairs)
    {
      ghost var d: set<nat> := {};
      var l := 0;
      while l < graph.lhs
        invariant l <= graph.lhs && Mutual(graph, left[..], right[..], UNUSED)
        invariant forall k :: l <= k < graph.lhs ==> left[k] == UNUSED
        invariant Closed(graph, right[..], d) && Hopeless(graph, left[..], l, d)
      {
        d := Visit(l, d);
        l := l + 1;
      }
      pairs := Edges();
      assert PairSet(pairs) == MatchedPairs(left[..]);
      ClosedSetBounds(graph, left[..], right[..], d);
    }

    /** One round: afterwards `l` is matched, or all its edges lead into the closed set. */
    method Visit(l: nat, ghost d: set<nat>) returns (ghost d': set<nat>)
      requires left != right && l < graph.lhs && Mutual(graph, left[..], right[..], UNUSED) && left[l] == UNUSED
      requires Closed(graph, right[..], d) && Hopeless(graph, left[..], l, d)
      modifies left, right
      ensures Mutual(graph, left[..], right[..], UNUSED)
      ensures forall k :: l < k < graph.lhs ==> (left[k] == UNUSED <==> old(left[k]) == UNUSED)
      ensures Closed(graph, right[..], d') && Hopeless(graph, left[..], l + 1, d')
    {
      var seen := new bool[graph.rhs](_ => false);
      var found := TryAugment(l, seen, d);
      d' := d;
      if !found {
        d' := d + Marked(seen[..]);
        ClosedTogether(graph, right[..], d, Marked(seen[..]));
      }
    }

    method Edges() returns (pairs: seq<(nat, nat)>)
      requires InRange(graph, left[..], right[..])
      ensures forall e :: e in pairs <==> e in MatchedPairs(left[..])
      ensures |pairs| == |MatchedPairs(left[..])|
    {
      pairs := [];
      ghost var found: set<(nat, nat)> := {};
      var l := 0;
      while l < left.Length
        invariant l <= left.Length && |pairs| == |found|
        invariant forall e :: e in pairs <==> e in found
        invariant forall e :: e in found <==> e in MatchedPairs(left[..]) && e.0 < l
      {
        if left[l] != UNUSED {
          pairs := pairs + [(l, left[l])];
          found := found + {(l, left[l])};
        }
        l := l + 1;
      }
      assert found == MatchedPairs(left[..]);
    }
  }

  // ----- why the result is maximum

  ghost function MatchedPairs(left: seq<int>): set<(nat, nat)> {
    set l: nat | l < |left| && left[l] >= 0 :: (l, left[l])
  }

  function Range(n: nat): (s: set<nat>)
    ensures |s| == n && forall k: nat :: k in s <==> k < n
  {
    if n == 0 then {} else Range(n - 1) + {n - 1}
  }

  ghost function PairSet(pairs: seq<(nat, nat)>): set<(nat, nat)> {
    set e | e in pairs
  }

  /** The pairs are a matching, listed without repetition, and no matching has more edges. */
  ghost predicate IsMaximum(g: MatchMatrix, pairs: seq<(nat, nat)>) {
    && IsMatching(g, PairSet(pairs)) && |PairSet(pairs)| == |pairs|
    && (forall m :: IsMatching(g, m) ==> |m| <= |pairs|)
  }

  /** Every unmatched left node below `l` has all its edges in `d`. */
  ghost predicate Hopeless(g: MatchMatrix, left: seq<int>, l: nat, d: set<nat>) {
    |left| == g.lhs && forall k :: 0 <= k < l && k < |left| && left[k] == UNUSED ==> Neighbours(g, k, d)
  }

  lemma ClosedTogether(g: MatchMatrix, right: seq<int>, d: set<nat>, e: set<nat>)
    requires Closed(g, right, d) && Closed(g, right, e)
    ensures Closed(g, right, d + e)
    ensures forall l: int :: Neighbours(g, l, d) || Neighbours(g, l, e) ==> Neighbours(g, l, d + e)
  {
  }

  ghost predicate TakenRight(m: set<(nat, nat)>, r: nat) {
    exists e :: e in m && e.1 == r
  }

  ghost predicate TakenLeft(m: set<(nat, nat)>, l: nat) {
    exists e :: e in m && e.0 == l
  }

  lemma {:induction false} HitsRight(m: set<(nat, nat)>, rs: set<nat>)
    requires forall r :: r in rs ==> TakenRight(m, r)
    ensures |rs| <= |m|
    decreases rs
  {
    if rs != {} {
      var r :| r in rs;
      assert TakenRight(m, r);
      var e :| e in m && e.1 == r;
      forall s | s in rs - {r} ensures TakenRight(m - {e}, s) {
        assert TakenRight(m, s);
        var f :| f in m && f.1 == s;
        assert f in m - {e};
      }
      HitsRight(m - {e}, rs - {r});
    }
  }

  lemma {:induction false} HitsLeft(m: set<(nat, nat)>, ls: set<nat>)
    requires forall l :: l in ls ==> TakenLeft(m, l)
    ensures |ls| <= |m|
    decreases ls
  {
    if ls != {} {
      var l :| l in ls;
      assert TakenLeft(m, l);
      var e :| e in m && e.0 == l;
      forall s | s in ls - {l} ensures TakenLeft(m - {e}, s) {
        assert TakenLeft(m, s);
        var f :| f in m && f.0 == s;
        assert f in m - {e};
      }
      HitsLeft(m - {e}, ls - {l});
    }
  }

  /** The closed set, with the left nodes matched outside it, is a cover no larger than the matching found. */
  lemma ClosedSetBounds(g: MatchMatrix, left: seq<int>, right: seq<int>, d: set<nat>)
    requires Mutual(g, left, right, UNUSED) && Closed(g, right, d) && Hopeless(g, left, g.lhs, d)
    ensures IsMatching(g, MatchedPairs(left))
    ensures forall m :: IsMatching(g, m) ==> |m| <= |MatchedPairs(left)|
  {
    var found := MatchedPairs(left);
    var inside := set e | e in found && e.1 in d;
    var outside := found - inside;
    var ls := set e | e in outside :: e.0;
    forall l: nat | l < |left| && left[l] >= 0 && left[l] !in d ensures l in ls {
      assert (l, left[l] as nat) in outside;
    }
    CoverOfClosedSet(g, left, right, d, ls);
    CoverSize(g, left, right, d, inside, outside, ls);
    forall m | IsMatching(g, m) ensures |m| <= |found| {
      CoverBoundsMatching(g, m, ls, d);
    }
  }

  lemma CoverSize(g: MatchMatrix, left: seq<int>, right: seq<int>, d: set<nat>,
                  inside: set<(nat, nat)>, outside: set<(nat, nat)>, ls: set<nat>)
    requires Mutual(g, left, right, UNUSED) && Closed(g, right, d)
    requires inside == (set e | e in MatchedPairs(left) && e.1 in d)
    requires outside == MatchedPairs(left) - inside && ls == set e | e in outside :: e.0
    ensures |ls| + |d| <= |MatchedPairs(left)|
  {
    InsideHitsClosedSet(g, left, right, d, inside);
    HitsRight(inside, d);
    forall l | l in ls ensures TakenLeft(outside, l) {
    }
    HitsLeft(outside, ls);
    assert MatchedPairs(left) == inside + outside;
  }

  lemma InsideHitsClosedSet(g: MatchMatrix, left: seq<int>, right: seq<int>, d: set<nat>, inside: set<(nat, nat)>)
    requires Mutual(g, left, right, UNUSED) && Closed(g, right, d)
    requires inside == (set e | e in MatchedPairs(left) && e.1 in d)
    ensures forall r :: r in d ==> TakenRight(inside, r)
  {
    forall r | r in d ensures TakenRight(inside, r) {
      var l: nat := right[r];
      assert (l, r) in inside;
    }
  }

  lemma CoverOfClosedSet(g: MatchMatrix, left: seq<int>, right: seq<int>, d: set<nat>, ls: set<nat>)
    requires Mutual(g, left, right, UNUSED) && Closed(g, right, d) && Hopeless(g, left, g.lhs, d)
    requires forall l: nat :: l < |left| && left[l] >= 0 && left[l] !in d ==> l in ls
    ensures Covers(g, ls, d)
  {
    forall l: nat, r: nat | l < g.lhs && r < g.rhs && g.HasEdge(l, r) ensures l in ls || r in d {
      if left[l] != UNUSED && left[l] in d {
        assert right[left[l]] == l && Neighbours(g, l, d);
      } else if left[l] == UNUSED {
        assert Neighbours(g, l, d);
      }
    }
  }

  // ----- FindMaxBipartiteMatching, FindPairing

  /** A matching, in terms of the edges alone. */
  lemma MatchingMeans(g: MatchMatrix, m: set<(nat, nat)>)
    ensures IsMatching(g, m) <==>
      && (forall e :: e in m ==> e in g.edges && e.0 < g.lhs && e.1 < g.rhs)
      && (forall d, e :: d in m && e in m && d != e ==> d.0 != e.0 && d.1 != e.1)
  {
    forall e | e in m ensures g.HasEdge(e.0, e.1) <==> e in g.edges {
      assert (e.0, e.1) == e;
    }
  }

  /** The pairs are edges of the graph, no node is in two of them, and no set of edges with that property is larger. */
  method FindMaxBipartiteMatching(g: MatchMatrix) returns (pairs: seq<(nat, nat)>)
    ensures IsMaximum(g, pairs)
    ensures forall e :: e in pairs ==> e in g.edges && e.0 < g.lhs && e.1 < g.rhs
    ensures forall j, k :: 0 <= j < k < |pairs| ==> pairs[j].0 != pairs[k].0 && pairs[j].1 != pairs[k].1
    ensures forall m: set<(nat, nat)> ::
      && (forall e :: e in m ==> e in g.edges && e.0 < g.lhs && e.1 < g.rhs)
      && (forall d, e :: d in m && e in m && d != e ==> d.0 != e.0 && d.1 != e.1)
      ==> |m| <= |pairs|
  {
    var state := new MaxBipartiteMatchState(g);
    pairs := state.Compute();
    MatchingMeans(g, PairSet(pairs));
    ListedOnce(pairs);
    forall m: set<(nat, nat)> |
      && (forall e :: e in m ==> e in g.edges && e.0 < g.lhs && e.1 < g.rhs)
      && (forall d, e :: d in m && e in m && d != e ==> d.0 != e.0 && d.1 != e.1)
      ensures |m| <= |pairs|
    {
      MatchingMeans(g, m);
    }
  }

  /** A list with as many places as members names each of them once. */
  lemma {:induction false} ListedOnce(pairs: seq<(nat, nat)>)
    requires |PairSet(pairs)| == |pairs|
    ensures forall j, k :: 0 <= j < k < |pairs| ==> pairs[j] != pairs[k]
  {
    if pairs != [] {
      var front, last := pairs[..|pairs| - 1], pairs[|pairs| - 1];
      assert PairSet(pairs) == PairSet(front) + {last};
      FewerMembers(front);
      ListedOnce(front);
    }
  }

  lemma {:induction false} FewerMembers(pairs: seq<(nat, nat)>)
    ensures |PairSet(pairs)| <= |pairs|
  {
    if pairs == [] {
      assert PairSet(pairs) == {};
    } else {
      var front, last := pairs[..|pairs| - 1], pairs[|pairs| - 1];
      FewerMembers(front);
      assert PairSet(pairs) == PairSet(front) + {last};
    }
  }

  /** A matching that gives every matcher an element of its own. */
  ghost predicate GivesEach(g: MatchMatrix, m: set<(nat, nat)>) {
    IsMatching(g, m) && forall r: nat :: r < g.rhs ==> TakenRight(m, r)
  }

  /** In terms of the edges: element `pick[r]` goes to matcher `r`. */
  lemma PickGivesEach(g: MatchMatrix, pick: seq<nat>)
    requires |pick| == g.rhs && forall r :: 0 <= r < g.rhs ==> pick[r] < g.lhs && (pick[r], r) in g.edges
    requires forall q, r :: 0 <= q < r < g.rhs ==> pick[q] != pick[r]
    ensures exists m :: GivesEach(g, m)
  {
    var m := set r: nat | r < |pick| :: (pick[r], r);
    MatchingMeans(g, m);
    forall r: nat | r < g.rhs ensures TakenRight(m, r) {
      assert (pick[r], r) in m;
    }
    assert GivesEach(g, m);
  }

  lemma EachIsPicked(g: MatchMatrix, m: set<(nat, nat)>)
    requires GivesEach(g, m)
    ensures exists pick: seq<nat> ::
      && |pick| == g.rhs && (forall r :: 0 <= r < g.rhs ==> pick[r] < g.lhs && (pick[r], r) in g.edges)
      && (forall q, r :: 0 <= q < r < g.rhs ==> pick[q] != pick[r])
  {
    MatchingMeans(g, m);
    var pick := PickFrom(g, m, g.rhs);
    forall q, r | 0 <= q < r < g.rhs ensures pick[q] != pick[r] {
      assert (pick[q], q) in m && (pick[r], r) in m;
    }
  }

  ghost function PickFrom(g: MatchMatrix, m: set<(nat, nat)>, n: nat): (pick: seq<nat>)
    requires GivesEach(g, m) && n <= g.rhs
    ensures |pick| == n && forall r :: 0 <= r < n ==> (pick[r], r) in m
  {
    if n == 0 then []
    else
      assert TakenRight(m, n - 1);
      var e :| e in m && e.1 == n - 1;
      assert (e.0, n - 1) == e;
      PickFrom(g, m, n - 1) + [e.0]
  }

  /** Finds a pairing exactly when every matcher can be given an element of its own. */
  method FindPairing(g: MatchMatrix) returns (result: bool, matches: seq<(nat, nat)>)
    ensures result <==> exists pick: seq<nat> ::
      && |pick| == g.rhs && (forall r :: 0 <= r < g.rhs ==> pick[r] < g.lhs && (pick[r], r) in g.edges)
      && (forall q, r :: 0 <= q < r < g.rhs ==> pick[q] != pick[r])
    ensures result <==> exists m :: GivesEach(g, m)
    ensures result ==> GivesEach(g, PairSet(matches)) && |matches| == g.rhs
    ensures !result ==> |matches| < g.rhs && IsMaximum(g, matches)
  {
    matches := FindMaxBipartiteMatching(g);
    result := |matches| == g.rhs;
    FullMatchingGivesEach(g, PairSet(matches));
    forall m | GivesEach(g, m) ensures |m| >= g.rhs {
      HitsRight(m, Range(g.rhs));
    }
    if result {
      EachIsPicked(g, PairSet(matches));
    }
    forall pick: seq<nat> |
      && |pick| == g.rhs && (forall r :: 0 <= r < g.rhs ==> pick[r] < g.lhs && (pick[r], r) in g.edges)
      && (forall q, r :: 0 <= q < r < g.rhs ==> pick[q] != pick[r])
      ensures exists m :: GivesEach(g, m)
    {
      PickGivesEach(g, pick);
    }
  }

  lemma FullMatchingGivesEach(g: MatchMatrix, m: set<(nat, nat)>)
    requires IsMatching(g, m)
    ensures |m| <= g.rhs
    ensures |m| == g.rhs ==> GivesEach(g, m)
  {
    InjectiveRight(m, Range(g.rhs));
    forall r: nat | r < g.rhs && |m| == g.rhs ensures TakenRight(m, r) {
      if !TakenRight(m, r) {
        InjectiveRight(m, Range(g.rhs) - {r});
      }
    }
  }

  lemma KeptLess(g: MatchMatrix, left: seq<int>, right: seq<int>, left': seq<int>, right': seq<int>,
                 l: nat, kept: set<nat>, fewer: set<nat>)
    requires l < |left| && Augmented(g, left, right, left', right', l, kept) && fewer <= kept
    ensures Augmented(g, left, right, left', right', l, fewer)
  {
  }
}
