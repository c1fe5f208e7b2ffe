/**
 Near-duplicate pairs (src/store/lance/dedup.rs): chunk observations reduced to
 document pairs, the result depending on nothing but which pairs were seen at
 which distances.
 */
module Duplicates {
  import opened Outcomes
  import opened Collections
  import opened Lexical

  type Id = string

  /** Two chunks' documents and distance, with their texts when collected. */
  datatype Observation = Observation(docA: Id, docB: Id, distance: real, contentA: Option<string>, contentB: Option<string>)

  /** An observation with the lower id first and the texts along with it. */
  datatype Group = Group(lo: Id, hi: Id, distance: real, snippetLo: Option<string>, snippetHi: Option<string>)

  /** A pair and its distance: what order and truncation look at. */
  datatype Key = Key(distance: real, lo: Id, hi: Id)

  function Canonical(o: Observation): Group {
    if StrLe(o.docA, o.docB) then Group(o.docA, o.docB, o.distance, o.contentA, o.contentB)
    else Group(o.docB, o.docA, o.distance, o.contentB, o.contentA)
  }

  function KeyOf(g: Group): Key {
    Key(g.distance, g.lo, g.hi)
  }

  predicate Kept(o: Observation, threshold: real) {
    o.distance <= threshold && o.docA != o.docB
  }

  predicate KeyLe(a: Key, b: Key) {
    a.distance < b.distance ||
    (a.distance == b.distance && (StrLt(a.lo, b.lo) || (a.lo == b.lo && StrLe(a.hi, b.hi))))
  }

  lemma KeyLeIsOrder()
    ensures TotalPreorder(KeyLe)
    ensures forall a, b :: KeyLe(a, b) && KeyLe(b, a) ==> a == b
  {
    StrIsOrder();
  }

  /** The pairs seen and the distances they were seen at. */
  function Observed(observations: seq<Observation>, threshold: real): set<Key> {
    set i | 0 <= i < |observations| && Kept(observations[i], threshold) :: KeyOf(Canonical(observations[i]))
  }

  /** Every pair at its least distance. */
  function LeastOf(seen: set<Key>): set<Key> {
    set k | k in seen && forall l :: l in seen && l.lo == k.lo && l.hi == k.hi ==> k.distance <= l.distance
  }

  /** No earlier kept observation of the pair is as near. */
  ghost predicate FirstAt(observations: seq<Observation>, threshold: real, g: Group, i: int) {
    forall j :: 0 <= j < i && j < |observations| && Kept(observations[j], threshold)
                && Canonical(observations[j]).lo == g.lo && Canonical(observations[j]).hi == g.hi ==>
      observations[j].distance > g.distance
  }

  /** The group is one of the kept observations, texts included, and the first of its pair as near. */
  ghost predicate Seen(observations: seq<Observation>, threshold: real, g: Group) {
    exists i :: 0 <= i < |observations| && Kept(observations[i], threshold) && Canonical(observations[i]) == g
                && FirstAt(observations, threshold, g, i)
  }

  /** Every pair kept so far, by its nearest observation. */
  ghost predicate BestPairs(best: map<(Id, Id), Group>, observations: seq<Observation>, threshold: real) {
    && (forall p :: p in best ==> best[p].lo == p.0 && best[p].hi == p.1 && Seen(observations, threshold, best[p]))
    && (forall i :: 0 <= i < |observations| && Kept(observations[i], threshold) ==>
          var g := Canonical(observations[i]);
          (g.lo, g.hi) in best && best[(g.lo, g.hi)].distance <= g.distance)
  }

  /** One step of the fold. */
  function Absorbed(best: map<(Id, Id), Group>, o: Observation, threshold: real): map<(Id, Id), Group> {
    if !Kept(o, threshold) then best
    else
      var g := Canonical(o);
      if (g.lo, g.hi) in best && best[(g.lo, g.hi)].distance <= g.distance then best
      else best[(g.lo, g.hi) := g]
  }

  method BestPerPair(observations: seq<Observation>, threshold: real) returns (best: map<(Id, Id), Group>)
    ensures BestPairs(best, observations, threshold)
  {
    best := map[];
    for i := 0 to |observations|
      invariant BestPairs(best, observations[..i], threshold)
    {
      BestPairsStep(best, observations[..i], observations[i], threshold);
      assert observations[..i + 1] == observations[..i] + [observations[i]];
      best := Absorbed(best, observations[i], threshold);
    }
    assert observations[..|observations|] == observations;
  }

  lemma BestPairsStep(best: map<(Id, Id), Group>, observations: seq<Observation>, o: Observation, threshold: real)
    requires BestPairs(best, observations, threshold)
    ensures BestPairs(Absorbed(best, o, threshold), observations + [o], threshold)
  {
    var more, after := observations + [o], Absorbed(best, o, threshold);
    forall p | p in after ensures Seen(more, threshold, after[p]) {
      if p in best && after[p] == best[p] {
        var i :| 0 <= i < |observations| && Kept(observations[i], threshold) && Canonical(observations[i]) == best[p]
                 && FirstAt(observations, threshold, best[p], i);
        assert more[i] == observations[i] && FirstAt(more, threshold, best[p], i);
      } else {
        assert more[|observations|] == o && FirstAt(more, threshold, after[p], |observations|);
      }
    }
  }

  /** The kept observations' best groups are the least keys. */
  lemma BestAreLeast(best: map<(Id, Id), Group>, observations: seq<Observation>, threshold: real)
    requires BestPairs(best, observations, threshold)
    ensures forall k :: k in LeastOf(Observed(observations, threshold)) <==> (k.lo, k.hi) in best && KeyOf(best[(k.lo, k.hi)]) == k
  {
    var seen := Observed(observations, threshold);
    forall p | p in best ensures KeyOf(best[p]) in seen {
      var i :| 0 <= i < |observations| && Kept(observations[i], threshold) && Canonical(observations[i]) == best[p];
    }
    forall k | k in seen ensures (k.lo, k.hi) in best && best[(k.lo, k.hi)].distance <= k.distance {
      var i :| 0 <= i < |observations| && Kept(observations[i], threshold) && KeyOf(Canonical(observations[i])) == k;
    }
    forall k ensures k in LeastOf(seen) <==> (k.lo, k.hi) in best && KeyOf(best[(k.lo, k.hi)]) == k {
      if (k.lo, k.hi) in best {
        assert KeyOf(best[(k.lo, k.hi)]) in seen;
      }
    }
  }

  predicate GroupLe(a: Group, b: Group) {
    KeyLe(KeyOf(a), KeyOf(b))
  }

  function Keys(groups: seq<Group>): (r: seq<Key>)
    ensures |r| == |groups|
  {
    seq(|groups|, i requires 0 <= i < |groups| => KeyOf(groups[i]))
  }

  /** The map's groups, in any order: one for each key. */
  method Groups(best: map<(Id, Id), Group>, ghost keys: set<Key>) returns (groups: seq<Group>)
    requires forall p :: p in best ==> best[p].lo == p.0 && best[p].hi == p.1
    requires forall k: Key :: k in keys <==> (k.lo, k.hi) in best && KeyOf(best[(k.lo, k.hi)]) == k
    ensures Enumerates(Keys(groups), keys)
    ensures forall i :: 0 <= i < |groups| ==> (groups[i].lo, groups[i].hi) in best && best[(groups[i].lo, groups[i].hi)] == groups[i]
  {
    var pairs := Drain(best.Keys);
    assert forall i :: 0 <= i < |pairs| ==> pairs[i] in best;
    groups := seq(|pairs|, i requires 0 <= i < |pairs| && pairs[i] in best => best[pairs[i]]);
    forall k: Key | k in keys ensures k in Keys(groups) {
      var i :| 0 <= i < |pairs| && pairs[i] == (k.lo, k.hi);
      assert Keys(groups)[i] == k;
    }
    forall i, j | 0 <= i < j < |groups| ensures Keys(groups)[i] != Keys(groups)[j] {
      assert pairs[i] != pairs[j];
    }
    DistinctSetSize(Keys(groups), keys);
  }

  method SortGroups(unsorted: seq<Group>) returns (sorted: seq<Group>)
    ensures multiset(sorted) == multiset(unsorted) && |sorted| == |unsorted| && SortedBy(sorted, GroupLe)
  {
    KeyLeIsOrder();
    sorted := SortBy(unsorted, GroupLe);
  }

  /** All groups, in order. */
  method RankedGroups(observations: seq<Observation>, threshold: real) returns (sorted: seq<Group>)
    ensures Enumerates(Keys(sorted), LeastOf(Observed(observations, threshold))) && SortedBy(Keys(sorted), KeyLe)
    ensures forall i :: 0 <= i < |sorted| ==> Seen(observations, threshold, sorted[i])
  {
    ghost var keys := LeastOf(Observed(observations, threshold));
    var best := BestPerPair(observations, threshold);
    BestAreLeast(best, observations, threshold);
    var unsorted := Groups(best, keys);
    sorted := SortGroups(unsorted);
    SortedKeys(unsorted, sorted, keys);
    AllSeen(observations, threshold, best, unsorted, sorted);
  }

  /**
     One group per unordered in-threshold pair at its least distance, nearest
     first, then by ids; a cap keeps the first. `full` is the uncapped list of
     keys. Texts come from an observation of that pair at that distance.
     */
  method PairsFromNeighbours(observations: seq<Observation>, threshold: real, maxPairs: nat)
    returns (groups: seq<Group>, ghost full: seq<Key>)
    ensures Enumerates(full, LeastOf(Observed(observations, threshold))) && SortedBy(full, KeyLe)
    ensures Keys(groups) == Take(full, maxPairs)
    ensures forall i, j :: 0 <= i < j < |groups| ==>
              && groups[i].distance <= groups[j].distance
              && (groups[i].distance == groups[j].distance ==>
                    StrLt(groups[i].lo, groups[j].lo) || (groups[i].lo == groups[j].lo && StrLt(groups[i].hi, groups[j].hi)))
    ensures forall i, j :: 0 <= i < j < |groups| ==> (groups[i].lo, groups[i].hi) != (groups[j].lo, groups[j].hi)
    ensures forall i :: 0 <= i < |groups| ==> FromObservation(observations, threshold, groups[i])
    ensures |groups| <= maxPairs
    ensures forall n :: 0 <= n < |observations| && observations[n].distance <= threshold && observations[n].docA != observations[n].docB ==>
              || (exists i :: 0 <= i < |groups| && groups[i].distance <= observations[n].distance
                    && {groups[i].lo, groups[i].hi} == {observations[n].docA, observations[n].docB})
              || (|groups| == maxPairs && forall i :: 0 <= i < |groups| ==> groups[i].distance <= observations[n].distance)
  {
    var sorted := RankedGroups(observations, threshold);
    full := Keys(sorted);
    groups := Take(sorted, maxPairs);
    forall i, j | 0 <= i < j < |groups|
      ensures groups[i].distance <= groups[j].distance
      ensures groups[i].distance == groups[j].distance ==>
                StrLt(groups[i].lo, groups[j].lo) || (groups[i].lo == groups[j].lo && StrLt(groups[i].hi, groups[j].hi))
      ensures (groups[i].lo, groups[i].hi) != (groups[j].lo, groups[j].hi)
    {
      InOrder(full, LeastOf(Observed(observations, threshold)), i, j);
    }
    forall n | 0 <= n < |observations| && observations[n].distance <= threshold && observations[n].docA != observations[n].docB
      ensures || (exists i :: 0 <= i < |groups| && groups[i].distance <= observations[n].distance
                    && {groups[i].lo, groups[i].hi} == {observations[n].docA, observations[n].docB})
              || (|groups| == maxPairs && forall i :: 0 <= i < |groups| ==> groups[i].distance <= observations[n].distance)
    {
      ListedOrCut(observations, threshold, maxPairs, sorted, groups, n);
    }
    forall i | 0 <= i < |groups| ensures FromObservation(observations, threshold, groups[i]) {
      FirstSeen(observations, threshold, groups[i]);
    }
  }

  /**
     The group is two documents in order of their ids, at a distance within the
     threshold at which they were observed, with the texts of the first such
     observation beside their ids.
     */
  ghost predicate FromObservation(observations: seq<Observation>, threshold: real, g: Group) {
    && g.lo != g.hi && StrLe(g.lo, g.hi) && g.distance <= threshold
    && exists n :: 0 <= n < |observations| && observations[n].distance == g.distance
         && (forall m :: 0 <= m < n && {observations[m].docA, observations[m].docB} == {g.lo, g.hi} ==>
               observations[m].distance > g.distance)
         && (|| (observations[n].docA == g.lo && observations[n].docB == g.hi
                 && observations[n].contentA == g.snippetLo && observations[n].contentB == g.snippetHi)
             || (observations[n].docB == g.lo && observations[n].docA == g.hi
                 && observations[n].contentB == g.snippetLo && observations[n].contentA == g.snippetHi))
  }

  lemma InOrder(full: seq<Key>, least: set<Key>, i: nat, j: nat)
    requires Enumerates(full, least) && SortedBy(full, KeyLe) && i < j < |full|
    requires forall k, l :: k in least && l in least && k.lo == l.lo && k.hi == l.hi ==> k == l
    ensures full[i].distance <= full[j].distance
    ensures full[i].distance == full[j].distance ==>
              StrLt(full[i].lo, full[j].lo) || (full[i].lo == full[j].lo && StrLt(full[i].hi, full[j].hi))
    ensures (full[i].lo, full[i].hi) != (full[j].lo, full[j].hi)
  {
    assert full[i] in full && full[j] in full && full[i] != full[j];
    assert KeyLe(full[i], full[j]);
  }

  lemma FirstSeen(observations: seq<Observation>, threshold: real, g: Group)
    requires Seen(observations, threshold, g)
    ensures FromObservation(observations, threshold, g)
  {
    var n :| 0 <= n < |observations| && Kept(observations[n], threshold) && Canonical(observations[n]) == g
             && FirstAt(observations, threshold, g, n);
    StrTotal(observations[n].docA, observations[n].docB);
    forall m | 0 <= m < n && {observations[m].docA, observations[m].docB} == {g.lo, g.hi}
      ensures observations[m].distance > g.distance
    {
      SamePair(observations[m], observations[n]);
      if observations[m].distance <= g.distance {
        assert Kept(observations[m], threshold);
      }
    }
  }

  /** Two documents have one canonical order. */
  lemma SamePair(o: Observation, p: Observation)
    requires {o.docA, o.docB} == {p.docA, p.docB} && p.docA != p.docB
    ensures o.docA != o.docB && Canonical(o).lo == Canonical(p).lo && Canonical(o).hi == Canonical(p).hi
  {
    assert o.docA in {p.docA, p.docB} && o.docB in {p.docA, p.docB};
    assert p.docA in {o.docA, o.docB} && p.docB in {o.docA, o.docB};
    StrTotal(p.docA, p.docB);
  }

  /** A kept observation's pair is among the groups, or the cap is reached by groups as near. */
  lemma ListedOrCut(
      observations: seq<Observation>, threshold: real, maxPairs: nat, sorted: seq<Group>, groups: seq<Group>, n: nat)
    requires Enumerates(Keys(sorted), LeastOf(Observed(observations, threshold))) && SortedBy(Keys(sorted), KeyLe)
    requires groups == Take(sorted, maxPairs)
    requires n < |observations| && observations[n].distance <= threshold && observations[n].docA != observations[n].docB
    ensures || (exists i :: 0 <= i < |groups| && groups[i].distance <= observations[n].distance
                  && {groups[i].lo, groups[i].hi} == {observations[n].docA, observations[n].docB})
            || (|groups| == maxPairs && forall i :: 0 <= i < |groups| ==> groups[i].distance <= observations[n].distance)
  {
    var mine := KeyOf(Canonical(observations[n]));
    var seen := Observed(observations, threshold);
    var best := LeastWith(seen, mine);
    assert best in LeastOf(seen) && best in Keys(sorted);
    var i :| 0 <= i < |sorted| && Keys(sorted)[i] == best;
    if i < |groups| {
      assert groups[i].distance <= observations[n].distance;
    } else {
      forall j | 0 <= j < |groups| ensures groups[j].distance <= observations[n].distance {
        assert KeyLe(Keys(sorted)[j], Keys(sorted)[i]);
      }
    }
  }

  /** The least key of a seen key's pair. */
  lemma {:induction false} LeastWith(seen: set<Key>, k: Key) returns (best: Key)
    requires k in seen
    ensures best in LeastOf(seen) && best.lo == k.lo && best.hi == k.hi && best.distance <= k.distance
    decreases |set l | l in seen && l.lo == k.lo && l.hi == k.hi && l.distance < k.distance|
  {
    var nearer := set l | l in seen && l.lo == k.lo && l.hi == k.hi && l.distance < k.distance;
    if nearer == {} {
      best := k;
      forall l | l in seen && l.lo == k.lo && l.hi == k.hi ensures k.distance <= l.distance { assert l !in nearer; }
    } else {
      var l :| l in nearer;
      var still := set m | m in seen && m.lo == l.lo && m.hi == l.hi && m.distance < l.distance;
      assert still <= nearer - {l};
      SubsetSize(still, nearer - {l});
      best := LeastWith(seen, l);
    }
  }

  lemma AllSeen(observations: seq<Observation>, threshold: real, best: map<(Id, Id), Group>, unsorted: seq<Group>, sorted: seq<Group>)
    requires BestPairs(best, observations, threshold) && multiset(sorted) == multiset(unsorted)
    requires forall i :: 0 <= i < |unsorted| ==> (unsorted[i].lo, unsorted[i].hi) in best && best[(unsorted[i].lo, unsorted[i].hi)] == unsorted[i]
    ensures forall i :: 0 <= i < |sorted| ==> Seen(observations, threshold, sorted[i])
  {
    forall i | 0 <= i < |sorted| ensures Seen(observations, threshold, sorted[i]) {
      MovedFrom(unsorted, sorted, i);
    }
  }

  lemma MovedFrom<T>(unsorted: seq<T>, sorted: seq<T>, i: nat)
    requires multiset(sorted) == multiset(unsorted) && i < |sorted|
    ensures exists j :: 0 <= j < |unsorted| && unsorted[j] == sorted[i]
  {
    assert sorted[i] in multiset(sorted);
    assert sorted[i] in unsorted;
  }

  lemma KeysCount(a: seq<Group>, k: Key)
    ensures k in Keys(a) <==> exists g :: g in a && KeyOf(g) == k
  {
    if exists g :: g in a && KeyOf(g) == k {
      var g :| g in a && KeyOf(g) == k;
      var i :| 0 <= i < |a| && a[i] == g;
      assert Keys(a)[i] == k;
    }
    if k in Keys(a) {
      var i :| 0 <= i < |a| && Keys(a)[i] == k;
      assert a[i] in a;
    }
  }

  lemma SortedKeys(unsorted: seq<Group>, sorted: seq<Group>, all: set<Key>)
    requires Enumerates(Keys(unsorted), all)
    requires multiset(sorted) == multiset(unsorted) && |sorted| == |unsorted| && SortedBy(sorted, GroupLe)
    ensures Enumerates(Keys(sorted), all) && SortedBy(Keys(sorted), KeyLe)
  {
    forall k ensures k in Keys(sorted) <==> k in all {
      KeysCount(sorted, k);
      KeysCount(unsorted, k);
      assert forall g :: g in sorted <==> g in multiset(sorted);
      assert forall g :: g in unsorted <==> g in multiset(unsorted);
    }
    forall i, j | 0 <= i < j < |sorted| ensures KeyLe(Keys(sorted)[i], Keys(sorted)[j]) {
      assert GroupLe(sorted[i], sorted[j]);
    }
    FullSizeDistinct(Keys(sorted), all);
  }

  /** A list of a set's size with all its elements has no repeats. */
  lemma {:induction false} FullSizeDistinct<T(!new)>(s: seq<T>, all: set<T>)
    requires |s| == |all| && forall x :: x in s <==> x in all
    ensures Distinct(s)
  {
    if s != [] {
      var n := |s| - 1;
      assert s == s[..n] + [s[n]];
      if s[n] in s[..n] {
        assert forall x :: x in s[..n] <==> x in all;
        SizeBound(s[..n], all);
      } else {
        FullSizeDistinct(s[..n], all - {s[n]});
      }
    }
  }

  lemma {:induction false} SizeBound<T(!new)>(s: seq<T>, all: set<T>)
    requires forall x :: x in all ==> x in s
    ensures |all| <= |s|
  {
    if s != [] {
      var n := |s| - 1;
      assert s == s[..n] + [s[n]];
      SizeBound(s[..n], all - {s[n]});
      assert |all - {s[n]}| >= |all| - 1;
    } else {
      assert forall x :: x !in all;
      assert all == {};
    }
  }

  // ── What the result depends on ─────────────────────────────────────────────

  /** Two runs that saw the same pairs at the same distances report the same groups at the same distances. */
  lemma GroupsDependOnObserved(fullA: seq<Key>, fullB: seq<Key>, a: seq<Observation>, b: seq<Observation>, threshold: real)
    requires Observed(a, threshold) == Observed(b, threshold)
    requires Enumerates(fullA, LeastOf(Observed(a, threshold))) && SortedBy(fullA, KeyLe)
    requires Enumerates(fullB, LeastOf(Observed(b, threshold))) && SortedBy(fullB, KeyLe)
    ensures fullA == fullB
  {
    KeyLeIsOrder();
    SortedEnumerationsAgree(fullA, fullB, LeastOf(Observed(a, threshold)), KeyLe);
  }

  function Swapped(o: Observation): Observation {
    Observation(o.docB, o.docA, o.distance, o.contentB, o.contentA)
  }

  /** Which chunk of a pair came first makes no difference, texts included. */
  lemma OrientationIsIrrelevant(o: Observation)
    requires o.docA != o.docB
    ensures Canonical(Swapped(o)) == Canonical(o)
  {
    StrTotal(o.docA, o.docB);
  }

  /** Neither the order of the observations nor which of the two documents came first makes a difference. */
  lemma ObservedIgnoresOrder(a: seq<Observation>, b: seq<Observation>, swap: seq<bool>, threshold: real)
    requires |swap| == |b|
    requires multiset(a) == multiset(seq(|b|, i requires 0 <= i < |b| => if swap[i] then Swapped(b[i]) else b[i]))
    ensures Observed(a, threshold) == Observed(b, threshold)
  {
    var turned := seq(|b|, i requires 0 <= i < |b| => if swap[i] then Swapped(b[i]) else b[i]);
    forall k ensures k in Observed(a, threshold) <==> k in Observed(turned, threshold) {
      SameMembers(a, turned);
      SeenIn(a, threshold, k);
      SeenIn(turned, threshold, k);
    }
    forall i | 0 <= i < |b| ensures Kept(turned[i], threshold) == Kept(b[i], threshold)
      && (Kept(b[i], threshold) ==> KeyOf(Canonical(turned[i])) == KeyOf(Canonical(b[i])))
    {
      if b[i].docA != b[i].docB {
        OrientationIsIrrelevant(b[i]);
      }
    }
    assert Observed(turned, threshold) == Observed(b, threshold);
  }

  lemma SameMembers<T>(a: seq<T>, b: seq<T>)
    requires multiset(a) == multiset(b)
    ensures forall x :: x in a <==> x in b
  {
    assert forall x :: x in a <==> x in multiset(a);
    assert forall x :: x in b <==> x in multiset(b);
  }

  lemma SeenIn(a: seq<Observation>, threshold: real, k: Key)
    ensures k in Observed(a, threshold) <==> exists o :: o in a && Kept(o, threshold) && KeyOf(Canonical(o)) == k
  {
    if o :| o in a && Kept(o, threshold) && KeyOf(Canonical(o)) == k {
      var i :| 0 <= i < |a| && a[i] == o;
    }
  }
}

/** Reciprocal rank fusion of a vector leg and a text leg (src/store/lance/dedup.rs). */
module Fusion {
  import opened Outcomes
  import opened Collections
  import opened Lexical

  type Id = string

  /** One chunk hit; `chunk` stands for its position and text. */
  datatype Hit = Hit(docId: Id, distance: real, chunk: int)

  type Leg = seq<Hit>

  datatype Slot = Slot(rank: nat, hit: Hit)

  datatype FusedDoc = FusedDoc(score: real, vector: Option<Slot>, fts: Option<Slot>)

  datatype SearchHit = SearchHit(id: Id, distance: real, score: real, vector: Option<Slot>, fts: Option<Slot>, shown: Hit)

  const K: real := 60.0

  function Docs(leg: Leg): set<Id> {
    set i | 0 <= i < |leg| :: leg[i].docId
  }

  /** A document's first hit in a leg, ranked by the number of distinct documents before it. */
  function SlotIn(leg: Leg, id: Id): Option<Slot> {
    if leg == [] then None
    else
      var init, last := leg[..|leg| - 1], leg[|leg| - 1];
      if SlotIn(init, id).Some? then SlotIn(init, id)
      else if last.docId == id then Some(Slot(|Docs(init)|, last))
      else None
  }

  function Contribution(slot: Option<Slot>): real {
    if slot.None? then 0.0 else 1.0 / (K + slot.value.rank as real + 1.0)
  }

  function Score(vector: Option<Slot>, fts: Option<Slot>): real {
    Contribution(vector) + Contribution(fts)
  }

  function FusedDistance(score: real): real {
    var d := 1.0 - score / (2.0 / (K + 1.0));
    if d > 0.0 then d else 0.0
  }

  /** The result for a document in a leg or two; the vector leg's chunk is shown if there is one. */
  function HitOf(id: Id, v: Option<Slot>, f: Option<Slot>, score: real): SearchHit
    requires v.Some? || f.Some?
  {
    SearchHit(id, FusedDistance(score), score, v, f, if v.Some? then v.value.hit else f.value.hit)
  }

  function HitFor(vectorHits: Leg, ftsHits: Leg, id: Id): SearchHit
    requires id in Docs(vectorHits) + Docs(ftsHits)
  {
    SlotOfDoc(vectorHits, id);
    SlotOfDoc(ftsHits, id);
    var v, f := SlotIn(vectorHits, id), SlotIn(ftsHits, id);
    HitOf(id, v, f, Score(v, f))
  }

  lemma {:induction false} SlotOfDoc(leg: Leg, id: Id)
    ensures SlotIn(leg, id).Some? <==> id in Docs(leg)
  {
    if leg != [] {
      var n := |leg| - 1;
      SlotOfDoc(leg[..n], id);
      DocsSnoc(leg[..n], leg[n]);
      assert leg == leg[..n] + [leg[n]];
    }
  }

  lemma DocsSnoc(leg: Leg, hit: Hit)
    ensures Docs(leg + [hit]) == Docs(leg) + {hit.docId}
  {
    forall id | id in Docs(leg) ensures id in Docs(leg + [hit]) {
      var i :| 0 <= i < |leg| && leg[i].docId == id;
      assert (leg + [hit])[i].docId == id;
    }
    assert (leg + [hit])[|leg|] == hit;
  }

  // ── Ranks ──────────────────────────────────────────────────────────────────

  /** A document's slot holds its first hit; its rank counts the distinct documents before that hit. */
  lemma {:induction false} RankCountsDocuments(leg: Leg, i: nat)
    requires i < |leg| && leg[i].docId !in Docs(leg[..i])
    ensures SlotIn(leg, leg[i].docId) == Some(Slot(|Docs(leg[..i])|, leg[i]))
  {
    var n := |leg| - 1;
    if i < n {
      assert leg[..n][..i] == leg[..i];
      RankCountsDocuments(leg[..n], i);
    } else {
      SlotOfDoc(leg[..n], leg[i].docId);
    }
  }

  /** Ranks in a leg are below its number of documents and no two documents share one. */
  lemma {:induction false} RanksDiffer(leg: Leg, a: Id, b: Id)
    requires SlotIn(leg, a).Some? && SlotIn(leg, b).Some? && a != b
    ensures SlotIn(leg, a).value.rank != SlotIn(leg, b).value.rank
  {
    var n := |leg| - 1;
    SlotOfDoc(leg[..n], a);
    SlotOfDoc(leg[..n], b);
    if SlotIn(leg[..n], a).Some? && SlotIn(leg[..n], b).Some? {
      RanksDiffer(leg[..n], a, b);
    } else if SlotIn(leg[..n], a).Some? {
      RankBelowDocs(leg[..n], a);
    } else {
      RankBelowDocs(leg[..n], b);
    }
  }

  lemma {:induction false} RankBelowDocs(leg: Leg, id: Id)
    requires SlotIn(leg, id).Some?
    ensures SlotIn(leg, id).value.rank < |Docs(leg)|
  {
    var n := |leg| - 1;
    assert leg == leg[..n] + [leg[n]];
    DocsGrow(leg[..n], leg[n]);
    if SlotIn(leg[..n], id).Some? {
      RankBelowDocs(leg[..n], id);
    }
  }

  /** A later chunk of a document already in the leg changes no slot. */
  lemma {:induction false} LaterChunksDoNotMatter(leg: Leg, j: nat, id: Id)
    requires j < |leg| && leg[j].docId in Docs(leg[..j])
    ensures SlotIn(leg[..j] + leg[j + 1..], id) == SlotIn(leg, id)
    ensures Docs(leg[..j] + leg[j + 1..]) == Docs(leg)
    decreases |leg|
  {
    var n := |leg| - 1;
    var init, last := leg[..n], leg[n];
    assert leg == init + [last];
    DocsSnoc(init, last);
    if j == n {
      assert leg[..j] + leg[j + 1..] == init;
      SlotOfDoc(init, last.docId);
    } else {
      assert init[..j] == leg[..j];
      LaterChunksDoNotMatter(init, j, id);
      var shorter := init[..j] + init[j + 1..];
      assert leg[..j] + leg[j + 1..] == shorter + [last];
      assert (shorter + [last])[..|shorter|] == shorter;
      DocsSnoc(shorter, last);
    }
  }

  // ── Scores and distances ───────────────────────────────────────────────────

  lemma ContributionBounds(slot: Option<Slot>)
    ensures slot.Some? ==> 0.0 < Contribution(slot) <= 1.0 / 61.0
    ensures slot.Some? ==> (Contribution(slot) == 1.0 / 61.0 <==> slot.value.rank == 0)
    ensures slot.None? ==> Contribution(slot) == 0.0
  {
    if slot.Some? {
      var d := K + slot.value.rank as real + 1.0;
      var c := 1.0 / d;
      assert c * d == 1.0;
      ReciprocalBounds(c, d);
    }
  }

  lemma ReciprocalBounds(c: real, d: real)
    requires c * d == 1.0 && d >= 61.0
    ensures 0.0 < c <= 1.0 / 61.0
    ensures c == 1.0 / 61.0 <==> d == 61.0
  {
    assert c <= 0.0 ==> c * d <= 0.0;
    assert c > 0.0 ==> c * (d - 61.0) >= 0.0;
  }

  /** A fused distance is in [0, 1), and 0 exactly for a document first in both legs. */
  lemma FusedDistanceRange(vectorHits: Leg, ftsHits: Leg, id: Id)
    requires id in Docs(vectorHits) + Docs(ftsHits)
    ensures var h := HitFor(vectorHits, ftsHits, id);
            && 0.0 <= h.distance < 1.0
            && (h.distance == 0.0 <==> h.vector.Some? && h.fts.Some? && h.vector.value.rank == 0 && h.fts.value.rank == 0)
  {
    SlotOfDoc(vectorHits, id);
    SlotOfDoc(ftsHits, id);
    var v, f := SlotIn(vectorHits, id), SlotIn(ftsHits, id);
    ContributionBounds(v);
    ContributionBounds(f);
    ScaledScore(Score(v, f));
  }

  lemma ScaledScore(score: real)
    ensures score / (2.0 / (K + 1.0)) == score * 61.0 / 2.0
  {
  }

  /** Only one document can be first in both legs. */
  lemma OneDocumentAtZero(vectorHits: Leg, ftsHits: Leg, a: Id, b: Id)
    requires a in Docs(vectorHits) + Docs(ftsHits) && b in Docs(vectorHits) + Docs(ftsHits)
    requires HitFor(vectorHits, ftsHits, a).distance == 0.0 == HitFor(vectorHits, ftsHits, b).distance
    ensures a == b
  {
    FusedDistanceRange(vectorHits, ftsHits, a);
    FusedDistanceRange(vectorHits, ftsHits, b);
    if a != b {
      RanksDiffer(vectorHits, a, b);
    }
  }

  lemma DistanceFallsWithScore(x: real, y: real)
    requires x <= y
    ensures FusedDistance(y) <= FusedDistance(x)
  {
    ScaledScore(x);
    ScaledScore(y);
  }

  // ── The fusion ─────────────────────────────────────────────────────────────

  type Slots = Id -> Option<Slot>

  /** The map while a leg is absorbed: the documents so far, with their slots and the score these give. */
  ghost predicate Fused(docs: map<Id, FusedDoc>, vector: Slots, fts: Slots) {
    forall id :: (id in docs <==> vector(id).Some? || fts(id).Some?)
                 && (id in docs ==> docs[id] == FusedDoc(Score(vector(id), fts(id)), vector(id), fts(id)))
  }

  /** The first slot offered to a document is kept. */
  function Offered(slots: Slots, id: Id, slot: Slot): Slots {
    x => if x == id && slots(x).None? then Some(slot) else slots(x)
  }

  ghost predicate FusedLeg(docs: map<Id, FusedDoc>, isVector: bool, slots: Slots, other: Slots) {
    Fused(docs, if isVector then slots else other, if isVector then other else slots)
  }

  method AbsorbHit(docs: map<Id, FusedDoc>, hit: Hit, rank: nat, isVector: bool, ghost slots: Slots, ghost other: Slots)
    returns (r: map<Id, FusedDoc>, ranked: bool)
    requires FusedLeg(docs, isVector, slots, other)
    ensures ranked == slots(hit.docId).None?
    ensures FusedLeg(r, isVector, Offered(slots, hit.docId, Slot(rank, hit)), other)
  {
    var entry := if hit.docId in docs then docs[hit.docId] else FusedDoc(0.0, None, None);
    r, ranked := docs, false;
    if (if isVector then entry.vector else entry.fts).None? {
      var slot := Some(Slot(rank, hit));
      var score := entry.score + Contribution(slot);
      r := docs[hit.docId := if isVector then FusedDoc(score, slot, entry.fts) else FusedDoc(score, entry.vector, slot)];
      ranked := true;
    }
  }

  lemma SlotStep(leg: Leg, hit: Hit, id: Id)
    ensures SlotIn(leg + [hit], id) == Offered(x => SlotIn(leg, x), hit.docId, Slot(|Docs(leg)|, hit))(id)
  {
    assert (leg + [hit])[..|leg|] == leg;
  }

  lemma SameLeg(docs: map<Id, FusedDoc>, isVector: bool, slots: Slots, same: Slots, other: Slots)
    requires FusedLeg(docs, isVector, slots, other) && forall id :: slots(id) == same(id)
    ensures FusedLeg(docs, isVector, same, other)
  {
  }

  lemma DocsGrow(leg: Leg, hit: Hit)
    ensures |Docs(leg + [hit])| == |Docs(leg)| + (if SlotIn(leg, hit.docId).None? then 1 else 0)
  {
    DocsSnoc(leg, hit);
    SlotOfDoc(leg, hit.docId);
    assert hit.docId in Docs(leg) ==> Docs(leg) + {hit.docId} == Docs(leg);
  }

  method Absorb(before: map<Id, FusedDoc>, hits: Leg, isVector: bool, ghost other: Slots) returns (docs: map<Id, FusedDoc>)
    requires FusedLeg(before, isVector, _ => None, other)
    ensures FusedLeg(docs, isVector, id => SlotIn(hits, id), other)
  {
    docs := before;
    var rank := 0;
    SameLeg(docs, isVector, _ => None, id => SlotIn(hits[..0], id), other);
    for i := 0 to |hits|
      invariant FusedLeg(docs, isVector, id => SlotIn(hits[..i], id), other)
      invariant rank == |Docs(hits[..i])|
    {
      ghost var slots: Slots := id => SlotIn(hits[..i], id);
      var ranked;
      docs, ranked := AbsorbHit(docs, hits[i], rank, isVector, slots, other);
      assert hits[..i + 1] == hits[..i] + [hits[i]];
      forall id ensures Offered(slots, hits[i].docId, Slot(rank, hits[i]))(id) == SlotIn(hits[..i + 1], id) {
        SlotStep(hits[..i], hits[i], id);
      }
      SameLeg(docs, isVector, Offered(slots, hits[i].docId, Slot(rank, hits[i])), id => SlotIn(hits[..i + 1], id), other);
      DocsGrow(hits[..i], hits[i]);
      if ranked {
        rank := rank + 1;
      }
    }
    assert hits[..|hits|] == hits;
  }

  /** Higher score first, then the smaller id. */
  predicate Better(a: SearchHit, b: SearchHit) {
    a.score > b.score || (a.score == b.score && StrLe(a.id, b.id))
  }

  lemma BetterIsOrder()
    ensures TotalPreorder(Better)
  {
    StrIsOrder();
  }

  function AllHits(vectorHits: Leg, ftsHits: Leg): set<SearchHit> {
    set id | id in Docs(vectorHits) + Docs(ftsHits) :: HitFor(vectorHits, ftsHits, id)
  }

  method ToHits(docs: map<Id, FusedDoc>, ghost vectorHits: Leg, ghost ftsHits: Leg) returns (hits: seq<SearchHit>)
    requires Fused(docs, id => SlotIn(vectorHits, id), id => SlotIn(ftsHits, id))
    ensures Enumerates(hits, AllHits(vectorHits, ftsHits))
  {
    var ids := Drain(docs.Keys);
    forall id ensures id in docs <==> id in Docs(vectorHits) + Docs(ftsHits) {
      SlotOfDoc(vectorHits, id);
      SlotOfDoc(ftsHits, id);
    }
    hits := [];
    for i := 0 to |ids|
      invariant |hits| == i
      invariant forall j :: 0 <= j < i ==> ids[j] in docs && hits[j] == HitFor(vectorHits, ftsHits, ids[j])
    {
      assert ids[i] in docs;
      var doc := docs[ids[i]];
      var hit := HitOf(ids[i], doc.vector, doc.fts, doc.score);
      assert hit == HitFor(vectorHits, ftsHits, ids[i]);
      hits := hits + [hit];
    }
    assert docs.Keys == Docs(vectorHits) + Docs(ftsHits);
    AreAllHits(ids, hits, vectorHits, ftsHits);
  }

  lemma AreAllHits(ids: seq<Id>, hits: seq<SearchHit>, vectorHits: Leg, ftsHits: Leg)
    requires Enumerates(ids, Docs(vectorHits) + Docs(ftsHits)) && |hits| == |ids|
    requires forall i :: 0 <= i < |ids| ==> ids[i] in ids && hits[i] == HitFor(vectorHits, ftsHits, ids[i])
    ensures Enumerates(hits, AllHits(vectorHits, ftsHits))
  {
    var all := AllHits(vectorHits, ftsHits);
    forall h ensures h in hits <==> h in all {
      if h in all {
        var i :| 0 <= i < |ids| && ids[i] == h.id;
        assert hits[i] == h;
      }
    }
    DistinctSetSize(hits, all);
  }

  /**
     Every document of either leg once, best score first, then by id: its slots
     hold its first hits, ranked by the distinct documents before them, the
     score sums 1 / (61 + rank), and the fused distances never decrease.
     */
  method RrfFuseDocuments(vectorHits: Leg, ftsHits: Leg) returns (results: seq<SearchHit>)
    ensures Enumerates(results, AllHits(vectorHits, ftsHits)) && SortedBy(results, Better)
    ensures forall i, j :: 0 <= i < j < |results| ==> results[i].distance <= results[j].distance
    ensures forall i, j :: 0 <= i < j < |results| ==>
              || results[i].score > results[j].score
              || (results[i].score == results[j].score && StrLt(results[i].id, results[j].id))
    ensures forall i :: 0 <= i < |results| ==>
              var h := results[i];
              && h.score == (if h.vector.None? then 0.0 else 1.0 / (61.0 + h.vector.value.rank as real))
                            + (if h.fts.None? then 0.0 else 1.0 / (61.0 + h.fts.value.rank as real))
              && h.distance == (if h.score < 2.0 / 61.0 then 1.0 - h.score * 61.0 / 2.0 else 0.0)
              && (h.vector.Some? || h.fts.Some?) && h.shown == (if h.vector.Some? then h.vector else h.fts).value.hit
              && (h.vector.Some? <==> exists n :: 0 <= n < |vectorHits| && vectorHits[n].docId == h.id)
              && (h.fts.Some? <==> exists n :: 0 <= n < |ftsHits| && ftsHits[n].docId == h.id)
    ensures forall i, n :: 0 <= i < |results| && 0 <= n < |vectorHits| && vectorHits[n].docId == results[i].id
                           && (forall m :: 0 <= m < n ==> vectorHits[m].docId != results[i].id) ==>
              results[i].vector == Some(Slot(|set m | 0 <= m < n :: vectorHits[m].docId|, vectorHits[n]))
    ensures forall i, n :: 0 <= i < |results| && 0 <= n < |ftsHits| && ftsHits[n].docId == results[i].id
                           && (forall m :: 0 <= m < n ==> ftsHits[m].docId != results[i].id) ==>
              results[i].fts == Some(Slot(|set m | 0 <= m < n :: ftsHits[m].docId|, ftsHits[n]))
  {
    results := FusedInOrder(vectorHits, ftsHits);
    forall i | 0 <= i < |results|
      ensures var h := results[i];
              && h.score == (if h.vector.None? then 0.0 else 1.0 / (61.0 + h.vector.value.rank as real))
                            + (if h.fts.None? then 0.0 else 1.0 / (61.0 + h.fts.value.rank as real))
              && h.distance == (if h.score < 2.0 / 61.0 then 1.0 - h.score * 61.0 / 2.0 else 0.0)
              && (h.vector.Some? || h.fts.Some?) && h.shown == (if h.vector.Some? then h.vector else h.fts).value.hit
              && (h.vector.Some? <==> exists n :: 0 <= n < |vectorHits| && vectorHits[n].docId == h.id)
              && (h.fts.Some? <==> exists n :: 0 <= n < |ftsHits| && ftsHits[n].docId == h.id)
    {
      assert results[i] in AllHits(vectorHits, ftsHits);
      HitMeans(vectorHits, ftsHits, results[i]);
    }
    forall i, n | 0 <= i < |results| && 0 <= n < |vectorHits| && vectorHits[n].docId == results[i].id
                  && (forall m :: 0 <= m < n ==> vectorHits[m].docId != results[i].id)
      ensures results[i].vector == Some(Slot(|set m | 0 <= m < n :: vectorHits[m].docId|, vectorHits[n]))
    {
      assert results[i] in AllHits(vectorHits, ftsHits);
      FirstSlot(vectorHits, n);
    }
    forall i, n | 0 <= i < |results| && 0 <= n < |ftsHits| && ftsHits[n].docId == results[i].id
                  && (forall m :: 0 <= m < n ==> ftsHits[m].docId != results[i].id)
      ensures results[i].fts == Some(Slot(|set m | 0 <= m < n :: ftsHits[m].docId|, ftsHits[n]))
    {
      assert results[i] in AllHits(vectorHits, ftsHits);
      FirstSlot(ftsHits, n);
    }
  }

  /** The documents, fused and sorted. */
  method FusedInOrder(vectorHits: Leg, ftsHits: Leg) returns (results: seq<SearchHit>)
    ensures Enumerates(results, AllHits(vectorHits, ftsHits)) && SortedBy(results, Better)
    ensures forall i, j :: 0 <= i < j < |results| ==>
              && results[i].distance <= results[j].distance
              && (results[i].score > results[j].score || (results[i].score == results[j].score && StrLt(results[i].id, results[j].id)))
  {
    var docs := Absorb(map[], vectorHits, true, _ => None);
    ghost var vector: Slots := id => SlotIn(vectorHits, id);
    docs := Absorb(docs, ftsHits, false, vector);
    var hits := ToHits(docs, vectorHits, ftsHits);
    BetterIsOrder();
    results := SortBy(hits, Better);
    PermutationEnumerates(hits, results, AllHits(vectorHits, ftsHits));
    forall i, j | 0 <= i < j < |results|
      ensures results[i].distance <= results[j].distance
      ensures results[i].score > results[j].score || (results[i].score == results[j].score && StrLt(results[i].id, results[j].id))
    {
      assert results[i] in AllHits(vectorHits, ftsHits) && results[j] in AllHits(vectorHits, ftsHits);
      assert Better(results[i], results[j]) && results[i] != results[j];
      DistanceFallsWithScore(results[j].score, results[i].score);
    }
  }

  lemma HitMeans(vectorHits: Leg, ftsHits: Leg, h: SearchHit)
    requires h in AllHits(vectorHits, ftsHits)
    ensures h.score == (if h.vector.None? then 0.0 else 1.0 / (61.0 + h.vector.value.rank as real))
                       + (if h.fts.None? then 0.0 else 1.0 / (61.0 + h.fts.value.rank as real))
    ensures h.distance == (if h.score < 2.0 / 61.0 then 1.0 - h.score * 61.0 / 2.0 else 0.0)
    ensures (h.vector.Some? || h.fts.Some?) && h.shown == (if h.vector.Some? then h.vector else h.fts).value.hit
    ensures h.vector.Some? <==> exists n :: 0 <= n < |vectorHits| && vectorHits[n].docId == h.id
    ensures h.fts.Some? <==> exists n :: 0 <= n < |ftsHits| && ftsHits[n].docId == h.id
  {
    SlotOfDoc(vectorHits, h.id);
    SlotOfDoc(ftsHits, h.id);
    ScaledScore(h.score);
    Reciprocal(SlotIn(vectorHits, h.id));
    Reciprocal(SlotIn(ftsHits, h.id));
  }

  lemma Reciprocal(slot: Option<Slot>)
    ensures Contribution(slot) == if slot.None? then 0.0 else 1.0 / (61.0 + slot.value.rank as real)
  {
    if slot.Some? {
      assert K + slot.value.rank as real + 1.0 == 61.0 + slot.value.rank as real;
    }
  }

  lemma FirstSlot(leg: Leg, n: nat)
    requires n < |leg| && forall m :: 0 <= m < n ==> leg[m].docId != leg[n].docId
    ensures SlotIn(leg, leg[n].docId) == Some(Slot(|set m | 0 <= m < n :: leg[m].docId|, leg[n]))
  {
    DocsBefore(leg, n);
    RankCountsDocuments(leg, n);
  }

  lemma DocsBefore(leg: Leg, n: nat)
    requires n <= |leg|
    ensures Docs(leg[..n]) == set m | 0 <= m < n :: leg[m].docId
  {
    forall m | 0 <= m < n ensures leg[..n][m] == leg[m] {}
  }

  lemma ShorterLeg(leg: Leg, j: nat)
    requires j < |leg| && leg[j].docId in Docs(leg[..j])
    ensures var shorter := leg[..j] + leg[j + 1..];
            Docs(shorter) == Docs(leg) && forall id :: SlotIn(shorter, id) == SlotIn(leg, id)
  {
    LaterChunksDoNotMatter(leg, j, leg[j].docId);
    forall id ensures SlotIn(leg[..j] + leg[j + 1..], id) == SlotIn(leg, id) {
      LaterChunksDoNotMatter(leg, j, id);
    }
  }

  /** Dropping a later chunk from the vector leg leaves the whole result as it was; likewise for the text leg. */
  lemma FanOutCannotBuyRank(vectorHits: Leg, ftsHits: Leg, j: nat, all: seq<SearchHit>, fewer: seq<SearchHit>)
    requires j < |vectorHits| && vectorHits[j].docId in Docs(vectorHits[..j])
    requires Enumerates(all, AllHits(vectorHits, ftsHits)) && SortedBy(all, Better)
    requires var shorter := vectorHits[..j] + vectorHits[j + 1..];
             Enumerates(fewer, AllHits(shorter, ftsHits)) && SortedBy(fewer, Better)
    ensures fewer == all
  {
    var shorter := vectorHits[..j] + vectorHits[j + 1..];
    ShorterLeg(vectorHits, j);
    SameHits(vectorHits, ftsHits, shorter, ftsHits, all, fewer);
  }

  lemma FanOutCannotBuyTextRank(vectorHits: Leg, ftsHits: Leg, j: nat, all: seq<SearchHit>, fewer: seq<SearchHit>)
    requires j < |ftsHits| && ftsHits[j].docId in Docs(ftsHits[..j])
    requires Enumerates(all, AllHits(vectorHits, ftsHits)) && SortedBy(all, Better)
    requires var shorter := ftsHits[..j] + ftsHits[j + 1..];
             Enumerates(fewer, AllHits(vectorHits, shorter)) && SortedBy(fewer, Better)
    ensures fewer == all
  {
    var shorter := ftsHits[..j] + ftsHits[j + 1..];
    ShorterLeg(ftsHits, j);
    SameHits(vectorHits, ftsHits, vectorHits, shorter, all, fewer);
  }

  /** The slots decide the result. */
  lemma SameHits(v: Leg, f: Leg, w: Leg, g: Leg, a: seq<SearchHit>, b: seq<SearchHit>)
    requires Docs(v) == Docs(w) && Docs(f) == Docs(g)
    requires forall id :: SlotIn(v, id) == SlotIn(w, id) && SlotIn(f, id) == SlotIn(g, id)
    requires Enumerates(a, AllHits(v, f)) && SortedBy(a, Better)
    requires Enumerates(b, AllHits(w, g)) && SortedBy(b, Better)
    ensures a == b
  {
    forall id | id in Docs(v) + Docs(f) ensures HitFor(v, f, id) == HitFor(w, g, id) {}
    assert AllHits(v, f) == AllHits(w, g);
    BetterIsOrder();
    StrIsOrder();
    SortedEnumerationsAgree(a, b, AllHits(v, f), Better);
  }
}
