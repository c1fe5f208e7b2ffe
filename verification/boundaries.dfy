/**
 Retagging to boundary versions (src/store/lance/commit.rs, io_retag_to_boundaries).

 All commit tags of a dataset are put in version order. Positions 0, 3, 12,
 39, ... and the last one keep their version; every commit in between is moved
 down to the version of the nearest boundary below it.
 */
module Boundaries {
  import opened Digits
  import opened Collections

  type Commit = string

  /** The k-th boundary position: the partial sums of 3, 9, 27, ... */
  function Bound(k: nat): nat {
    if k == 0 then 0 else Bound(k - 1) + Pow(3, k)
  }

  ghost predicate IsBoundary(p: nat) {
    exists k: nat :: p == Bound(k)
  }

  /** 0, 3, 12, 39, ... = 3 (3^k - 1) / 2. */
  lemma {:induction false} BoundClosedForm(k: nat)
    ensures 2 * Bound(k) == 3 * (Pow(3, k) - 1)
  {
    if k > 0 {
      BoundClosedForm(k - 1);
    }
  }

  lemma {:induction false} BoundIncreases(j: nat, k: nat)
    requires j < k
    ensures Bound(j) < Bound(k)
  {
    if j < k - 1 {
      BoundIncreases(j, k - 1);
    }
  }

  ghost function BoundsBelow(k: nat): set<nat> {
    set j: nat | j < k :: Bound(j)
  }

  lemma {:induction false} BoundsBelowSize(k: nat)
    ensures |BoundsBelow(k)| == k
  {
    if k > 0 {
      BoundsBelowSize(k - 1);
      OneMoreBound(k - 1);
    }
  }

  lemma OneMoreBound(k: nat)
    ensures BoundsBelow(k + 1) == BoundsBelow(k) + {Bound(k)} && Bound(k) !in BoundsBelow(k)
  {
    forall j: nat | j < k ensures Bound(j) != Bound(k) { BoundIncreases(j, k); }
  }

  lemma BoundsBelowAre(k: nat, total: nat)
    requires Bound(k) >= total && (k > 0 ==> Bound(k - 1) < total)
    ensures forall p: nat :: p in BoundsBelow(k) <==> p < total && IsBoundary(p)
  {
    forall p: nat ensures p in BoundsBelow(k) <==> p < total && IsBoundary(p) {
      if p in BoundsBelow(k) {
        var j: nat :| j < k && p == Bound(j);
        if j < k - 1 { BoundIncreases(j, k - 1); }
      }
      if p < total && IsBoundary(p) {
        var j: nat :| p == Bound(j);
        if k < j { BoundIncreases(k, j); }
        assert j < k;
      }
    }
  }

  /** The boundary positions below `total`; `k` of them, so k is about log3(total). */
  method BoundaryPositions(total: nat) returns (positions: set<nat>, ghost k: nat)
    ensures forall p: nat :: p in positions <==> p < total && IsBoundary(p)
    ensures |positions| == k
    ensures Bound(k) >= total && (k > 0 ==> Bound(k - 1) < total)
  {
    positions := {};
    k := 0;
    var pos, step := 0, 1;
    while pos < total
      invariant pos == Bound(k) && step == Pow(3, k)
      invariant positions == BoundsBelow(k)
      invariant k > 0 ==> Bound(k - 1) < total
      decreases total - pos
    {
      OneMoreBound(k);
      positions := positions + {pos};
      pos := pos + step * 3;
      step := step * 3;
      k := k + 1;
    }
    BoundsBelowSize(k);
    BoundsBelowAre(k, total);
  }

  /** The nearest boundary at or below position i. */
  function NearestBelow(positions: set<nat>, i: nat): (b: nat)
    requires 0 in positions
    ensures b in positions && b <= i
  {
    if i in positions then i else NearestBelow(positions, i - 1)
  }

  lemma {:induction false} NearestBelowMonotone(positions: set<nat>, i: nat, j: nat)
    requires 0 in positions && i <= j
    ensures NearestBelow(positions, i) <= NearestBelow(positions, j)
    ensures NearestBelow(positions, NearestBelow(positions, i)) == NearestBelow(positions, i)
  {
    if i < j && j !in positions {
      NearestBelowMonotone(positions, i, j - 1);
    }
  }

  /** `order` lists every commit once, by ascending version; ties may fall either way. */
  ghost predicate VersionOrder(order: seq<Commit>, tags: map<Commit, nat>) {
    && Enumerates(order, tags.Keys)
    && forall i, j :: 0 <= i < j < |order| ==> tags[order[i]] <= tags[order[j]]
  }

  /** Boundary positions for `total` commits: the generated ones and the last. */
  ghost predicate Kept(positions: set<nat>, total: nat) {
    forall p: nat :: p in positions <==> p < total && (IsBoundary(p) || p == total - 1)
  }

  /** The commit at position i ends at the version of its nearest boundary. */
  ghost predicate Retagged(tags: map<Commit, nat>, order: seq<Commit>, positions: set<nat>, tags': map<Commit, nat>)
    requires VersionOrder(order, tags) && Kept(positions, |order|)
  {
    && tags'.Keys == tags.Keys
    && (|order| > 0 ==> 0 in positions)
    && forall i :: 0 <= i < |order| ==> tags'[order[i]] == tags[order[NearestBelow(positions, i)]]
  }

  lemma ZeroIsKept(positions: set<nat>, total: nat)
    requires Kept(positions, total) && total > 0
    ensures 0 in positions
  {
    assert Bound(0) == 0;
  }

  /** The moves planned for the first n positions: (commit, new version). */
  function PlanOf(tags: map<Commit, nat>, order: seq<Commit>, positions: set<nat>, n: nat): seq<(Commit, nat)>
    requires n <= |order| && 0 in positions
    requires forall i :: 0 <= i < |order| ==> order[i] in tags
  {
    if n == 0 then []
    else if n - 1 in positions then PlanOf(tags, order, positions, n - 1)
    else PlanOf(tags, order, positions, n - 1) + [(order[n - 1], tags[order[NearestBelow(positions, n - 1)]])]
  }

  /** The tag map after executing a plan. */
  function Moved(tags: map<Commit, nat>, plan: seq<(Commit, nat)>): map<Commit, nat> {
    if plan == [] then tags
    else Moved(tags, plan[..|plan| - 1])[plan[|plan| - 1].0 := plan[|plan| - 1].1]
  }

  /** What one more planned move does to the commits listed in `order`. */
  lemma {:induction false} PlanMoves(tags: map<Commit, nat>, order: seq<Commit>, positions: set<nat>, n: nat)
    requires n <= |order| && 0 in positions && Distinct(order)
    requires forall i :: 0 <= i < |order| ==> order[i] in tags
    ensures var moved := Moved(tags, PlanOf(tags, order, positions, n));
            && moved.Keys == tags.Keys
            && (forall i :: 0 <= i < n ==> moved[order[i]] == tags[order[NearestBelow(positions, i)]])
            && (forall i :: n <= i < |order| ==> moved[order[i]] == tags[order[i]])
  {
    if n > 0 {
      PlanMoves(tags, order, positions, n - 1);
      if n - 1 !in positions {
        MovedStep(tags, order, positions, n);
      }
    }
  }

  lemma MovedStep(tags: map<Commit, nat>, order: seq<Commit>, positions: set<nat>, n: nat)
    requires 0 < n <= |order| && 0 in positions && n - 1 !in positions
    requires forall i :: 0 <= i < |order| ==> order[i] in tags
    ensures Moved(tags, PlanOf(tags, order, positions, n)) ==
            Moved(tags, PlanOf(tags, order, positions, n - 1))[order[n - 1] := tags[order[NearestBelow(positions, n - 1)]]]
  {
    var longer := PlanOf(tags, order, positions, n);
    assert longer[..|longer| - 1] == PlanOf(tags, order, positions, n - 1);
  }

  lemma {:induction false} PlanSize(tags: map<Commit, nat>, order: seq<Commit>, positions: set<nat>, n: nat)
    requires n <= |order| && 0 in positions
    requires forall i :: 0 <= i < |order| ==> order[i] in tags
    ensures |PlanOf(tags, order, positions, n)| + |set p | p in positions && p < n| == n
    ensures forall j :: 0 <= j < |PlanOf(tags, order, positions, n)| ==> PlanOf(tags, order, positions, n)[j].0 in tags
  {
    var below := set p | p in positions && p < n;
    if n == 0 {
      assert below == {};
    } else {
      PlanSize(tags, order, positions, n - 1);
      var before := set p | p in positions && p < n - 1;
      assert below == before + (if n - 1 in positions then {n - 1} else {});
    }
  }

  lemma OrderInTable(tags: map<Commit, nat>, order: seq<Commit>)
    requires VersionOrder(order, tags)
    ensures |order| == |tags| && Distinct(order) && forall i :: 0 <= i < |order| ==> order[i] in tags
  {
    assert |tags| == |tags.Keys|;
    assert forall i :: 0 <= i < |order| ==> order[i] in order;
  }

  /** All commits by version, ties in whatever order the hash map yields. */
  method SortedByVersion(tags: map<Commit, nat>) returns (order: seq<Commit>)
    ensures VersionOrder(order, tags)
  {
    var entries := Drain(tags.Items);
    var sorted := SortBy(entries, (a: (Commit, nat), b: (Commit, nat)) => a.1 <= b.1);
    PermutationEnumerates(entries, sorted, tags.Items);
    order := seq(|sorted|, i requires 0 <= i < |sorted| => sorted[i].0);
    EntriesToKeys(tags, sorted, order);
  }

  /** The greatest kept position at or below i. */
  predicate NearestOf(positions: set<nat>, i: int, p: nat) {
    p in positions && p <= i && forall q :: q in positions && q <= i ==> q <= p
  }

  lemma {:induction false} NearestIs(positions: set<nat>, i: nat, p: nat)
    requires 0 in positions
    ensures NearestOf(positions, i, p) <==> p == NearestBelow(positions, i)
  {
    if i !in positions {
      NearestIs(positions, i - 1, p);
      assert forall q :: q in positions && q <= i ==> q <= i - 1;
    }
  }

  /** 3 + 9 + ... up to some power of 3, in closed form. */
  ghost predicate IsPowerSum(p: nat) {
    exists k: nat :: 2 * p == 3 * (Pow(3, k) - 1)
  }

  lemma BoundariesArePowerSums(p: nat)
    ensures IsBoundary(p) <==> IsPowerSum(p)
  {
    if IsBoundary(p) {
      var k: nat :| p == Bound(k);
      BoundClosedForm(k);
    }
    if IsPowerSum(p) {
      var k: nat :| 2 * p == 3 * (Pow(3, k) - 1);
      BoundClosedForm(k);
      assert p == Bound(k);
    }
  }

  lemma RetaggedMeans(tags: map<Commit, nat>, order: seq<Commit>, positions: set<nat>, tags': map<Commit, nat>)
    requires VersionOrder(order, tags) && Kept(positions, |order|) && Retagged(tags, order, positions, tags')
    ensures |order| == |tags| && tags'.Keys == tags.Keys && forall i :: 0 <= i < |order| ==> order[i] in tags
    ensures forall i, j :: 0 <= i < j < |order| ==> order[i] != order[j] && tags[order[i]] <= tags[order[j]]
    ensures forall p: nat :: p in positions <==> p < |order| && (p == |order| - 1 || IsPowerSum(p))
    ensures forall i, p: nat :: 0 <= i < |order| && NearestOf(positions, i, p) ==> tags'[order[i]] == tags[order[p]]
  {
    OrderInTable(tags, order);
    forall p: nat ensures p in positions <==> p < |order| && (p == |order| - 1 || IsPowerSum(p)) {
      BoundariesArePowerSums(p);
    }
    forall i, p: nat | 0 <= i < |order| && NearestOf(positions, i, p) ensures tags'[order[i]] == tags[order[p]] {
      NearestIs(positions, i, p);
    }
  }

  /** Carrying out the plan is the retagging, and every position is either kept or planned. */
  lemma PlanRetags(tags: map<Commit, nat>, order: seq<Commit>, positions: set<nat>)
    requires VersionOrder(order, tags) && |order| > 0 && Kept(positions, |order|)
    requires forall i :: 0 <= i < |order| ==> order[i] in tags
    ensures 0 in positions
    ensures var plan := PlanOf(tags, order, positions, |order|);
            && Retagged(tags, order, positions, Moved(tags, plan))
            && |plan| + |positions| == |order|
            && forall j :: 0 <= j < |plan| ==> plan[j].0 in tags
  {
    ZeroIsKept(positions, |order|);
    PlanMoves(tags, order, positions, |order|);
    PlanSize(tags, order, positions, |order|);
    assert (set p | p in positions && p < |order|) == positions;
  }

  /** A dataset's commit tags on one branch. */
  class TagTable {
    var tags: map<Commit, nat>

    constructor (initial: map<Commit, nat>)
      ensures tags == initial
    {
      tags := initial;
    }

    /** Lance's tag deletion; the tag must exist. */
    method Delete(commit: Commit)
      requires commit in tags
      modifies this
      ensures tags == old(tags) - {commit}
    {
      tags := tags - {commit};
    }

    /** Lance's tag creation; the name must be free. */
    method Create(commit: Commit, version: nat)
      requires commit !in tags
      modifies this
      ensures tags == old(tags)[commit := version]
    {
      tags := tags[commit := version];
    }

    /**
     Every commit ends at the version of the nearest kept position at or below
     its own; kept are the positions 3 (3^k - 1) / 2 and the last. Returns the
     number of commits and how many were moved.
     */
    method RetagToBoundaries() returns (total: nat, retagged: nat, ghost order: seq<Commit>, ghost positions: set<nat>)
      modifies this
      ensures total == |old(tags)|
      ensures VersionOrder(order, old(tags)) && Kept(positions, total)
      ensures Retagged(old(tags), order, positions, tags)
      ensures retagged + |positions| == total
      ensures |order| == total && tags.Keys == old(tags).Keys && forall i :: 0 <= i < total ==> order[i] in old(tags)
      ensures forall i, j :: 0 <= i < j < total ==> order[i] != order[j] && old(tags)[order[i]] <= old(tags)[order[j]]
      ensures forall p: nat :: p in positions <==> p < total && (p == total - 1 || IsPowerSum(p))
      ensures forall i, p: nat :: 0 <= i < total && NearestOf(positions, i, p) ==> tags[order[i]] == old(tags)[order[p]]
    {
      ghost var was := tags;
      total, retagged, order, positions := Retag();
      RetaggedMeans(was, order, positions, tags);
    }

    method Retag() returns (total: nat, retagged: nat, ghost order: seq<Commit>, ghost positions: set<nat>)
      modifies this
      ensures total == |old(tags)|
      ensures VersionOrder(order, old(tags)) && Kept(positions, total)
      ensures Retagged(old(tags), order, positions, tags)
      ensures retagged + |positions| == total
    {
      total := |tags|;
      var sorted := SortedByVersion(tags);
      order := sorted;
      OrderInTable(tags, order);
      if total <= 2 {
        positions := SmallTables(tags, order);
        return total, 0, order, positions;
      }
      retagged, positions := RetagSorted(sorted);
    }

    /** The boundaries and the last position stay; every other commit moves down to its nearest boundary. */
    method RetagSorted(sorted: seq<Commit>) returns (retagged: nat, ghost positions: set<nat>)
      requires VersionOrder(sorted, tags) && |sorted| > 0
      modifies this
      ensures Kept(positions, |sorted|) && Retagged(old(tags), sorted, positions, tags)
      ensures retagged + |positions| == |sorted|
    {
      ghost var was := tags;
      var total := |sorted|;
      OrderInTable(was, sorted);
      var kept, k := BoundaryPositions(total);
      kept := kept + {total - 1};
      positions := kept;
      PlanRetags(was, sorted, kept);
      var plan := MakePlan(sorted, kept);
      ExecutePlan(plan);
      retagged := |plan|;
    }

    /** Delete and recreate each planned tag in turn. */
    method ExecutePlan(plan: seq<(Commit, nat)>)
      requires forall j :: 0 <= j < |plan| ==> plan[j].0 in tags
      modifies this
      ensures tags == Moved(old(tags), plan)
    {
      for j := 0 to |plan|
        invariant tags == Moved(old(tags), plan[..j])
        invariant tags.Keys == old(tags.Keys)
      {
        assert plan[..j + 1][..j] == plan[..j];
        Delete(plan[j].0);
        Create(plan[j].0, plan[j].1);
      }
      assert plan[..|plan|] == plan;
    }

    /** One pass down the sorted list, carrying the last boundary's version. */
    method MakePlan(sorted: seq<Commit>, kept: set<nat>) returns (plan: seq<(Commit, nat)>)
      requires sorted != [] && 0 in kept
      requires forall i :: 0 <= i < |sorted| ==> sorted[i] in tags
      ensures plan == PlanOf(tags, sorted, kept, |sorted|)
    {
      plan := [];
      var last := tags[sorted[0]];
      for i := 0 to |sorted|
        invariant last == tags[sorted[if i == 0 then 0 else NearestBelow(kept, i - 1)]]
        invariant plan == PlanOf(tags, sorted, kept, i)
      {
        if i in kept {
          last := tags[sorted[i]];
        } else {
          plan := plan + [(sorted[i], last)];
        }
      }
    }
  }

  lemma EntriesToKeys(tags: map<Commit, nat>, sorted: seq<(Commit, nat)>, order: seq<Commit>)
    requires Enumerates(sorted, tags.Items)
    requires forall i, j :: 0 <= i < j < |sorted| ==> sorted[i].1 <= sorted[j].1
    requires |order| == |sorted| && forall i :: 0 <= i < |order| ==> order[i] == sorted[i].0
    ensures VersionOrder(order, tags)
  {
    forall i | 0 <= i < |sorted| ensures order[i] in tags && tags[order[i]] == sorted[i].1 {
      assert sorted[i] in tags.Items;
    }
    assert Distinct(order);
    forall c ensures c in order <==> c in tags.Keys {
      if c in tags {
        assert (c, tags[c]) in tags.Items;
        assert (c, tags[c]) in sorted;
      }
    }
    assert (set x | x in order) == tags.Keys;
    DistinctSize(order);
  }

  /** With at most two commits every position is kept. */
  lemma SmallTables(tags: map<Commit, nat>, order: seq<Commit>) returns (positions: set<nat>)
    requires VersionOrder(order, tags) && |order| <= 2
    ensures Kept(positions, |order|) && Retagged(tags, order, positions, tags)
    ensures |positions| == |order|
  {
    assert IsBoundary(0) by { assert Bound(0) == 0; }
    positions := if |order| == 0 then {} else if |order| == 1 then {0} else {0, 1};
  }

  // ── What retagging preserves ───────────────────────────────────────────────

  lemma PositionOf(order: seq<Commit>, tags: map<Commit, nat>, c: Commit) returns (i: nat)
    requires VersionOrder(order, tags) && c in tags
    ensures i < |order| && order[i] == c
  {
    assert c in order;
    i :| i < |order| && order[i] == c;
  }

  /** No commit is lost and none moves to a newer version. */
  lemma NeverNewer(tags: map<Commit, nat>, order: seq<Commit>, positions: set<nat>, tags': map<Commit, nat>, c: Commit)
    requires VersionOrder(order, tags) && Kept(positions, |order|) && Retagged(tags, order, positions, tags')
    requires c in tags
    ensures c in tags' && tags'[c] <= tags[c]
  {
    var i := PositionOf(order, tags, c);
    var b := NearestBelow(positions, i);
    assert b == i || tags[order[b]] <= tags[order[i]];
  }

  /** A commit at an older version never ends at a newer one than a later commit. */
  lemma OrderPreserved(tags: map<Commit, nat>, order: seq<Commit>, positions: set<nat>, tags': map<Commit, nat>, c: Commit, d: Commit)
    requires VersionOrder(order, tags) && Kept(positions, |order|) && Retagged(tags, order, positions, tags')
    requires c in tags && d in tags && tags[c] < tags[d]
    ensures tags'[c] <= tags'[d]
  {
    var i := PositionOf(order, tags, c);
    var j := PositionOf(order, tags, d);
    OlderIsEarlier(order, tags, i, j);
    RetaggedIsSorted(tags, order, positions, tags', i, j);
  }

  lemma OlderIsEarlier(order: seq<Commit>, tags: map<Commit, nat>, i: nat, j: nat)
    requires VersionOrder(order, tags) && i < |order| && j < |order|
    requires order[i] in tags && order[j] in tags && tags[order[i]] < tags[order[j]]
    ensures i < j
  {
  }

  lemma RetaggedIsSorted(tags: map<Commit, nat>, order: seq<Commit>, positions: set<nat>, tags': map<Commit, nat>, i: nat, j: nat)
    requires VersionOrder(order, tags) && Kept(positions, |order|) && Retagged(tags, order, positions, tags')
    requires i < j < |order|
    ensures tags'[order[i]] <= tags'[order[j]]
  {
    NearestBelowMonotone(positions, i, j);
    var a, b := NearestBelow(positions, i), NearestBelow(positions, j);
    assert a == b || tags[order[a]] <= tags[order[b]];
  }

  /** Only boundary versions stay in use. */
  lemma FewVersions(tags: map<Commit, nat>, order: seq<Commit>, positions: set<nat>, tags': map<Commit, nat>)
    requires VersionOrder(order, tags) && Kept(positions, |order|) && Retagged(tags, order, positions, tags')
    ensures |tags'.Values| <= |positions|
  {
    var vs := VersionsAlong(tags, order);
    forall v | v in tags'.Values ensures v in At(vs, positions) {
      var c :| c in tags' && tags'[c] == v;
      var i := PositionOf(order, tags, c);
      var b := NearestBelow(positions, i);
      AlongAt(tags, order, b);
      assert vs[b] == v;
    }
    AtSize(vs, positions);
    SubsetSize(tags'.Values, At(vs, positions));
  }

  function At(vs: seq<nat>, positions: set<nat>): set<nat> {
    set p | p in positions && p < |vs| :: vs[p]
  }

  lemma {:induction false} AtSize(vs: seq<nat>, positions: set<nat>)
    ensures |At(vs, positions)| <= |positions|
  {
    if positions == {} {
      assert At(vs, positions) == {};
    } else {
      var x :| x in positions;
      AtSize(vs, positions - {x});
      assert At(vs, positions) == At(vs, positions - {x}) + (if x < |vs| then {vs[x]} else {});
    }
  }

  /** The number of distinct versions left is logarithmic: more than k + 1 of them need 3 (3^k - 1) / 2 < commits. */
  lemma VersionsAreLogarithmic(tags: map<Commit, nat>, order: seq<Commit>, positions: set<nat>, tags': map<Commit, nat>, k: nat)
    requires VersionOrder(order, tags) && Kept(positions, |order|) && Retagged(tags, order, positions, tags')
    requires 3 * (Pow(3, k) - 1) >= 2 * |tags|
    ensures |tags'.Values| <= k + 1
  {
    FewVersions(tags, order, positions, tags');
    BoundClosedForm(k);
    assert |order| == |tags| by { assert |tags.Keys| == |tags|; }
    var bound := BoundsBelow(k) + {|order| - 1};
    forall p | p in positions ensures p in bound {
      if p != |order| - 1 {
        var j: nat :| p == Bound(j);
        if j >= k && j != k { BoundIncreases(k, j); }
      }
    }
    BoundsBelowSize(k);
    NatSubsetSize(positions, k, |order|);
  }

  lemma NatSubsetSize(positions: set<nat>, k: nat, n: nat)
    requires forall p :: p in positions ==> p in BoundsBelow(k) || p == n - 1
    ensures |positions| <= k + 1
  {
    BoundsBelowSize(k);
    if n == 0 {
      SubsetSize(positions, BoundsBelow(k));
    } else {
      SubsetSize(positions, BoundsBelow(k) + {n - 1});
    }
  }

  // ── Running it twice ───────────────────────────────────────────────────────

  function VersionOf(tags: map<Commit, nat>, c: Commit): nat {
    if c in tags then tags[c] else 0
  }

  /** The versions met walking down a list of commits. */
  function VersionsAlong(tags: map<Commit, nat>, order: seq<Commit>): (vs: seq<nat>)
    ensures |vs| == |order|
  {
    if order == [] then [] else [VersionOf(tags, order[0])] + VersionsAlong(tags, order[1..])
  }

  lemma {:induction false} AlongAt(tags: map<Commit, nat>, order: seq<Commit>, i: nat)
    requires i < |order|
    ensures VersionsAlong(tags, order)[i] == VersionOf(tags, order[i])
  {
    if i > 0 {
      AlongAt(tags, order[1..], i - 1);
    }
  }

  lemma {:induction false} AlongConcat(tags: map<Commit, nat>, s: seq<Commit>, r: seq<Commit>)
    ensures VersionsAlong(tags, s + r) == VersionsAlong(tags, s) + VersionsAlong(tags, r)
  {
    if s == [] {
      assert s + r == r;
    } else {
      assert (s + r)[1..] == s[1..] + r;
      AlongConcat(tags, s[1..], r);
    }
  }

  lemma SameElementsSameMultiset<T(!new)>(s: seq<T>, r: seq<T>)
    requires Distinct(s) && Distinct(r)
    requires forall x :: x in s <==> x in r
    ensures multiset(s) == multiset(r)
  {
    DistinctCounts(s);
    DistinctCounts(r);
    forall x ensures multiset(s)[x] == multiset(r)[x] {
      assert x in s <==> x in multiset(s);
      assert x in r <==> x in multiset(r);
    }
  }

  lemma {:induction false} VersionsPermute(tags: map<Commit, nat>, s: seq<Commit>, r: seq<Commit>)
    requires multiset(s) == multiset(r)
    ensures multiset(VersionsAlong(tags, s)) == multiset(VersionsAlong(tags, r))
    decreases |s|
  {
    if s == [] {
      assert |multiset(r)| == |r|;
    } else {
      var j := FoundIn(s, r);
      var rest := r[..j] + r[j + 1..];
      MoveToFront(tags, r, j);
      VersionsPermute(tags, s[1..], rest);
    }
  }

  lemma FoundIn<T>(s: seq<T>, r: seq<T>) returns (j: nat)
    requires s != [] && multiset(s) == multiset(r)
    ensures j < |r| && r[j] == s[0]
    ensures multiset(s[1..]) == multiset(r) - multiset{s[0]}
  {
    assert s == [s[0]] + s[1..];
    assert s[0] in multiset(r);
    j :| 0 <= j < |r| && r[j] == s[0];
  }

  lemma MoveToFront(tags: map<Commit, nat>, r: seq<Commit>, j: nat)
    requires j < |r|
    ensures var rest := r[..j] + r[j + 1..];
            && multiset(rest) == multiset(r) - multiset{r[j]}
            && multiset(VersionsAlong(tags, r)) == multiset{VersionOf(tags, r[j])} + multiset(VersionsAlong(tags, rest))
  {
    var left, x, right := r[..j], r[j], r[j + 1..];
    assert r == left + ([x] + right);
    AlongConcat(tags, left, [x] + right);
    AlongConcat(tags, [x], right);
    AlongConcat(tags, left, right);
    assert [x][1..] == [];
    assert VersionsAlong(tags, [x]) == [VersionOf(tags, x)];
  }

  lemma {:induction false} SortedAgree(s: seq<nat>, r: seq<nat>)
    requires multiset(s) == multiset(r)
    requires forall i, j :: 0 <= i < j < |s| ==> s[i] <= s[j]
    requires forall i, j :: 0 <= i < j < |r| ==> r[i] <= r[j]
    ensures s == r
    decreases |s|
  {
    assert |s| == |multiset(s)| == |multiset(r)| == |r|;
    if s != [] {
      assert s[0] in multiset(r) && r[0] in multiset(s);
      assert s[0] == r[0];
      assert s == [s[0]] + s[1..] && r == [r[0]] + r[1..];
      assert multiset(s[1..]) == multiset(s) - multiset{s[0]};
      assert multiset(r[1..]) == multiset(r) - multiset{r[0]};
      SortedAgree(s[1..], r[1..]);
    }
  }

  lemma KeptIsUnique(p: set<nat>, q: set<nat>, total: nat)
    requires Kept(p, total) && Kept(q, total)
    ensures p == q
  {
    forall x: nat ensures x in p <==> x in q {}
  }

  /** A second run changes no commit's version, however either run broke ties. */
  lemma RetaggingIsIdempotent(
      tags: map<Commit, nat>, order: seq<Commit>, positions: set<nat>, tags1: map<Commit, nat>,
      order1: seq<Commit>, positions1: set<nat>, tags2: map<Commit, nat>)
    requires VersionOrder(order, tags) && Kept(positions, |order|) && Retagged(tags, order, positions, tags1)
    requires VersionOrder(order1, tags1) && Kept(positions1, |order1|) && Retagged(tags1, order1, positions1, tags2)
    ensures tags2 == tags1
  {
    SameVersionsAlong(tags, order, positions, tags1, order1);
    KeptIsUnique(positions, positions1, |order|);
    forall c | c in tags1 ensures VersionOf(tags2, c) == VersionOf(tags1, c) {
      SecondRunKeeps(tags, order, positions, tags1, order1, tags2, c);
    }
    SameTable(tags1, tags2);
  }

  lemma SameTable(a: map<Commit, nat>, b: map<Commit, nat>)
    requires a.Keys == b.Keys && forall c :: c in a ==> VersionOf(b, c) == VersionOf(a, c)
    ensures a == b
  {
    forall c | c in a ensures c in b && a[c] == b[c] {
      assert VersionOf(b, c) == VersionOf(a, c);
    }
  }

  lemma SecondRunKeeps(tags: map<Commit, nat>, order: seq<Commit>, positions: set<nat>, tags1: map<Commit, nat>,
                       order1: seq<Commit>, tags2: map<Commit, nat>, c: Commit)
    requires VersionOrder(order, tags) && Kept(positions, |order|) && Retagged(tags, order, positions, tags1)
    requires |order| == |order1| && VersionsAlong(tags1, order) == VersionsAlong(tags1, order1)
    requires VersionOrder(order1, tags1) && Retagged(tags1, order1, positions, tags2) && c in tags1
    ensures VersionOf(tags2, c) == VersionOf(tags1, c)
  {
    var j := PositionOf(order1, tags1, c);
    BlockVersion(tags, order, positions, tags1, order1, j);
    SecondMove(tags1, order1, positions, tags2, j);
  }

  /** Along the second order, too, every position carries its boundary's version. */
  lemma BlockVersion(tags: map<Commit, nat>, order: seq<Commit>, positions: set<nat>, tags1: map<Commit, nat>,
                     order1: seq<Commit>, j: nat)
    requires VersionOrder(order, tags) && Kept(positions, |order|) && Retagged(tags, order, positions, tags1)
    requires |order| == |order1| && VersionsAlong(tags1, order) == VersionsAlong(tags1, order1) && j < |order|
    ensures NearestBelow(positions, j) < |order|
    ensures VersionOf(tags1, order1[NearestBelow(positions, j)]) == VersionOf(tags1, order1[j])
  {
    var b := NearestBelow(positions, j);
    BlocksAreConstant(tags, order, positions, tags1, j);
    AlongAt(tags1, order, b);
    AlongAt(tags1, order, j);
    AlongAt(tags1, order1, b);
    AlongAt(tags1, order1, j);
  }

  lemma SecondMove(tags: map<Commit, nat>, order: seq<Commit>, positions: set<nat>, after: map<Commit, nat>, j: nat)
    requires VersionOrder(order, tags) && Kept(positions, |order|) && Retagged(tags, order, positions, after)
    requires j < |order|
    ensures VersionOf(after, order[j]) == VersionOf(tags, order[NearestBelow(positions, j)])
  {
    assert order[j] in order && order[NearestBelow(positions, j)] in order;
  }

  /** After a run, every position carries its boundary's version. */
  lemma BlocksAreConstant(tags: map<Commit, nat>, order: seq<Commit>, positions: set<nat>, tags1: map<Commit, nat>, j: nat)
    requires VersionOrder(order, tags) && Kept(positions, |order|) && Retagged(tags, order, positions, tags1)
    requires j < |order|
    ensures NearestBelow(positions, j) < |order|
    ensures VersionOf(tags1, order[NearestBelow(positions, j)]) == VersionOf(tags1, order[j])
  {
    NearestBelowMonotone(positions, j, j);
    assert order[j] in order && order[NearestBelow(positions, j)] in order;
  }

  /** Whatever order the second sort picks, the versions along it are the same. */
  lemma SameVersionsAlong(
      tags: map<Commit, nat>, order: seq<Commit>, positions: set<nat>, tags1: map<Commit, nat>, order1: seq<Commit>)
    requires VersionOrder(order, tags) && Kept(positions, |order|) && Retagged(tags, order, positions, tags1)
    requires VersionOrder(order1, tags1)
    ensures |order| == |order1|
    ensures VersionsAlong(tags1, order) == VersionsAlong(tags1, order1)
  {
    SameElementsSameMultiset(order, order1);
    VersionsPermute(tags1, order, order1);
    forall i, j | 0 <= i < j < |order| ensures tags1[order[i]] <= tags1[order[j]] {
      RetaggedIsSorted(tags, order, positions, tags1, i, j);
    }
    AlongSorted(tags1, order);
    AlongSorted(tags1, order1);
    SortedAgree(VersionsAlong(tags1, order), VersionsAlong(tags1, order1));
  }

  lemma AlongSorted(tags: map<Commit, nat>, order: seq<Commit>)
    requires VersionOrder(order, tags)
    ensures forall i, j :: 0 <= i < j < |order| ==> VersionsAlong(tags, order)[i] <= VersionsAlong(tags, order)[j]
  {
    forall i, j | 0 <= i < j < |order| ensures VersionsAlong(tags, order)[i] <= VersionsAlong(tags, order)[j] {
      AlongAt(tags, order, i);
      AlongAt(tags, order, j);
      assert order[i] in order && order[j] in order;
    }
  }
}
