/**
 Nearest-neighbour lists for entity resolution (src/store/lance/resolve.rs):
 exact top-k per chunk and the fold of a document's chunk lists into one.
 */
module TopK {
  import opened Outcomes
  import opened Collections
  import R = Resolve

  type Id = string

  type Vector = seq<real>

  type Neighbours = seq<R.Neighbour>

  datatype Candidate = Candidate(docId: Id, embedding: Vector)

  datatype Point = Point(docId: Id, embedding: Vector)

  datatype Search = Search(candidates: seq<Candidate>, k: nat, threshold: real, distance: (Vector, Vector) -> real)

  // ── The distance of every document from one chunk ──────────────────────────

  /** The in-threshold documents other than the chunk's own, each at its nearest chunk. */
  function BestPerDoc(s: Search, point: Point, n: nat): map<Id, real>
    requires n <= |s.candidates|
  {
    if n == 0 then map[]
    else
      var best, c := BestPerDoc(s, point, n - 1), s.candidates[n - 1];
      var d := s.distance(point.embedding, c.embedding);
      if c.docId == point.docId || d > s.threshold then best
      else if c.docId in best && best[c.docId] <= d then best
      else best[c.docId := d]
  }

  function Distances(s: Search, point: Point): map<Id, real> {
    BestPerDoc(s, point, |s.candidates|)
  }

  predicate Counts(s: Search, point: Point, id: Id, i: nat)
    requires i < |s.candidates|
  {
    && s.candidates[i].docId == id && id != point.docId
    && s.distance(point.embedding, s.candidates[i].embedding) <= s.threshold
  }

  /** A document's distance is attained by one of its chunks and no in-threshold chunk of it is nearer. */
  lemma {:induction false} DistanceIsLeast(s: Search, point: Point, n: nat, id: Id)
    requires n <= |s.candidates|
    ensures id in BestPerDoc(s, point, n) <==> exists i: nat :: i < n && Counts(s, point, id, i)
    ensures forall i: nat :: i < n && Counts(s, point, id, i) ==>
              BestPerDoc(s, point, n)[id] <= s.distance(point.embedding, s.candidates[i].embedding)
    ensures id in BestPerDoc(s, point, n) ==>
              exists i: nat :: i < n && Counts(s, point, id, i) && BestPerDoc(s, point, n)[id] == s.distance(point.embedding, s.candidates[i].embedding)
  {
    if n > 0 {
      DistanceIsLeast(s, point, n - 1, id);
      if Counts(s, point, id, n - 1) {
        assert id in BestPerDoc(s, point, n);
      }
    }
  }

  // ── Top-k of one chunk ─────────────────────────────────────────────────────

  /** The k nearest, in order; which of several equally near ones make the cut is left open. */
  ghost predicate TopKOf(r: Neighbours, all: map<Id, real>, k: nat) {
    && (forall i, j :: 0 <= i < j < |r| ==> r[i].id != r[j].id && r[i].distance <= r[j].distance)
    && (forall i :: 0 <= i < |r| ==> r[i].id in all && all[r[i].id] == r[i].distance)
    && |r| == (if |all| <= k then |all| else k)
    && (forall id, i :: id in all && 0 <= i < |r| && !R.Names(r, id) ==> r[i].distance <= all[id])
  }

  predicate NotFarther(a: R.Neighbour, b: R.Neighbour) {
    a.distance <= b.distance
  }

  /** A list of the k nearest in terms of the candidates. */
  lemma TopKMeans(s: Search, point: Point, r: Neighbours)
    requires TopKOf(r, Distances(s, point), s.k)
    ensures |r| <= s.k
    ensures forall i :: 0 <= i < |r| ==>
              && r[i].id != point.docId && r[i].distance <= s.threshold
              && exists j :: 0 <= j < |s.candidates| && s.candidates[j].docId == r[i].id
                             && s.distance(point.embedding, s.candidates[j].embedding) == r[i].distance
    ensures forall j :: 0 <= j < |s.candidates| && s.candidates[j].docId != point.docId
                        && s.distance(point.embedding, s.candidates[j].embedding) <= s.threshold ==>
              || (exists i :: 0 <= i < |r| && r[i].id == s.candidates[j].docId
                              && r[i].distance <= s.distance(point.embedding, s.candidates[j].embedding))
              || (|r| == s.k && forall i :: 0 <= i < |r| ==> r[i].distance <= s.distance(point.embedding, s.candidates[j].embedding))
  {
    var all := Distances(s, point);
    forall i | 0 <= i < |r|
      ensures r[i].id != point.docId && r[i].distance <= s.threshold
      ensures exists j :: 0 <= j < |s.candidates| && s.candidates[j].docId == r[i].id
                          && s.distance(point.embedding, s.candidates[j].embedding) == r[i].distance
    {
      DistanceIsLeast(s, point, |s.candidates|, r[i].id);
      var j: nat :| j < |s.candidates| && Counts(s, point, r[i].id, j)
                    && all[r[i].id] == s.distance(point.embedding, s.candidates[j].embedding);
    }
    forall j | 0 <= j < |s.candidates| && s.candidates[j].docId != point.docId
               && s.distance(point.embedding, s.candidates[j].embedding) <= s.threshold
      ensures || (exists i :: 0 <= i < |r| && r[i].id == s.candidates[j].docId
                              && r[i].distance <= s.distance(point.embedding, s.candidates[j].embedding))
              || (|r| == s.k && forall i :: 0 <= i < |r| ==> r[i].distance <= s.distance(point.embedding, s.candidates[j].embedding))
    {
      var id := s.candidates[j].docId;
      DistanceIsLeast(s, point, |s.candidates|, id);
      assert Counts(s, point, id, j);
      NotListed(r, all, s.k, id);
    }
  }

  /** A document that a list of the k nearest lacks is no nearer than any of a full list. */
  lemma NotListed(r: Neighbours, all: map<Id, real>, k: nat, id: Id)
    requires TopKOf(r, all, k) && id in all
    ensures || (exists i :: 0 <= i < |r| && r[i].id == id && r[i].distance == all[id])
            || (|r| == k && forall i :: 0 <= i < |r| ==> r[i].distance <= all[id])
  {
    if !R.Names(r, id) && |r| == |all| {
      IdCount(r);
      assert id !in IdsOf(r);
      assert IdsOf(r) <= all.Keys && |IdsOf(r)| == |all.Keys|;
      FullSubset(IdsOf(r), all.Keys);
    }
  }

  method FlatKnnTopK(s: Search, point: Point) returns (r: Neighbours)
    ensures TopKOf(r, Distances(s, point), s.k)
    ensures |r| <= s.k && forall i, j :: 0 <= i < j < |r| ==> r[i].id != r[j].id && r[i].distance <= r[j].distance
    ensures forall i :: 0 <= i < |r| ==>
              && r[i].id != point.docId && r[i].distance <= s.threshold
              && exists j :: 0 <= j < |s.candidates| && s.candidates[j].docId == r[i].id
                             && s.distance(point.embedding, s.candidates[j].embedding) == r[i].distance
    ensures forall j :: 0 <= j < |s.candidates| && s.candidates[j].docId != point.docId
                        && s.distance(point.embedding, s.candidates[j].embedding) <= s.threshold ==>
              || (exists i :: 0 <= i < |r| && r[i].id == s.candidates[j].docId
                              && r[i].distance <= s.distance(point.embedding, s.candidates[j].embedding))
              || (|r| == s.k && forall i :: 0 <= i < |r| ==> r[i].distance <= s.distance(point.embedding, s.candidates[j].embedding))
  {
    r := NearestK(s, point);
    TopKMeans(s, point, r);
  }

  method NearestK(s: Search, point: Point) returns (r: Neighbours)
    ensures TopKOf(r, Distances(s, point), s.k)
  {
    var best: map<Id, real> := map[];
    for n := 0 to |s.candidates|
      invariant best == BestPerDoc(s, point, n)
    {
      var c := s.candidates[n];
      if c.docId != point.docId {
        var d := s.distance(point.embedding, c.embedding);
        if d <= s.threshold {
          if c.docId !in best || d < best[c.docId] {
            best := best[c.docId := d];
          }
        }
      }
    }
    var entries := Entries(best);
    var sorted := SortBy(entries, NotFarther);
    SortedEntries(best, entries, sorted);
    r := Take(sorted, s.k);
    CutIsTopK(best, sorted, s.k);
  }

  ghost predicate EntriesOf(entries: Neighbours, best: map<Id, real>) {
    && |entries| == |best|
    && (forall i, j :: 0 <= i < j < |entries| ==> entries[i].id != entries[j].id)
    && (forall i :: 0 <= i < |entries| ==> entries[i].id in best && best[entries[i].id] == entries[i].distance)
  }

  /** The map's entries, in any order. */
  method Entries(best: map<Id, real>) returns (entries: Neighbours)
    ensures EntriesOf(entries, best)
  {
    var keys := Drain(best.Keys);
    assert forall i :: 0 <= i < |keys| ==> keys[i] in best;
    entries := seq(|keys|, i requires 0 <= i < |keys| && keys[i] in best => R.Neighbour(keys[i], best[keys[i]]));
    assert |best| == |best.Keys|;
  }

  lemma SortedEntries(best: map<Id, real>, entries: Neighbours, sorted: Neighbours)
    requires EntriesOf(entries, best) && multiset(sorted) == multiset(entries) && |sorted| == |entries|
    ensures EntriesOf(sorted, best)
  {
    DistinctCounts(entries);
    forall i | 0 <= i < |sorted| ensures sorted[i].id in best && best[sorted[i].id] == sorted[i].distance {
      assert sorted[i] in multiset(sorted);
      assert sorted[i] in entries;
    }
    forall i, j | 0 <= i < j < |sorted| ensures sorted[i].id != sorted[j].id {
      SameIdTwice(best, sorted, i, j);
    }
  }

  lemma SameIdTwice(best: map<Id, real>, sorted: Neighbours, i: nat, j: nat)
    requires i < j < |sorted| && (forall x :: multiset(sorted)[x] <= 1)
    requires forall n :: 0 <= n < |sorted| ==> sorted[n].id in best && best[sorted[n].id] == sorted[n].distance
    ensures sorted[i].id != sorted[j].id
  {
    if sorted[i] == sorted[j] {
      CountsTwice(sorted, i, j);
      assert false;
    }
  }

  lemma CutIsTopK(best: map<Id, real>, sorted: Neighbours, k: nat)
    requires EntriesOf(sorted, best) && SortedBy(sorted, NotFarther)
    ensures TopKOf(Take(sorted, k), best, k)
  {
    var r := Take(sorted, k);
    assert forall m :: 0 <= m < |r| ==> r[m] == sorted[m];
    forall i, j | 0 <= i < j < |r| ensures r[i].id != r[j].id && r[i].distance <= r[j].distance {
      assert NotFarther(sorted[i], sorted[j]);
    }
    forall id, i | id in best && 0 <= i < |r| && !R.Names(r, id) ensures r[i].distance <= best[id] {
      EveryEntryListed(sorted, best, id);
      var j :| 0 <= j < |sorted| && sorted[j].id == id;
      assert NotFarther(sorted[i], sorted[j]);
    }
  }

  lemma EveryEntryListed(entries: Neighbours, best: map<Id, real>, id: Id)
    requires EntriesOf(entries, best) && id in best
    ensures R.Names(entries, id)
  {
    IdCount(entries);
    var ids := IdsOf(entries);
    assert ids <= best.Keys && |ids| == |best.Keys|;
    FullSubset(ids, best.Keys);
  }

  function IdsOf(list: Neighbours): set<Id> {
    set i | 0 <= i < |list| :: list[i].id
  }

  lemma {:induction false} IdCount(list: Neighbours)
    requires forall i, j :: 0 <= i < j < |list| ==> list[i].id != list[j].id
    ensures |IdsOf(list)| == |list|
  {
    if list != [] {
      var n := |list| - 1;
      IdCount(list[..n]);
      assert IdsOf(list) == IdsOf(list[..n]) + {list[n].id};
    }
  }

  // ── The fold over a document's chunks ──────────────────────────────────────

  ghost predicate NoRepeats(list: Neighbours) {
    forall i, j :: 0 <= i < j < |list| ==> list[i].id != list[j].id
  }

  function Ids(list: Neighbours): (r: seq<Id>)
    ensures |r| == |list|
  {
    seq(|list|, i requires 0 <= i < |list| => list[i].id)
  }

  /** The documents of a list in the order of their first report. */
  function FirstReports(list: Neighbours): seq<Id> {
    if list == [] then []
    else
      var earlier, last := FirstReports(list[..|list| - 1]), list[|list| - 1].id;
      earlier + (if last in earlier then [] else [last])
  }

  /**
     The merged list names a document at the lesser of its two distances: the
     old entries in their places, then the new documents as they were reported.
     */
  ghost predicate MergeOf(r: Neighbours, existing: Neighbours, added: Neighbours) {
    && NoRepeats(r)
    && Ids(r) == FirstReports(existing + added)
    && (forall id :: R.LeastTo(r, id) == R.Least(R.LeastTo(existing, id), R.LeastTo(added, id)))
  }

  lemma {:induction false} FirstReportsOfDistinct(list: Neighbours)
    requires NoRepeats(list)
    ensures FirstReports(list) == Ids(list)
  {
    if list != [] {
      var n := |list| - 1;
      FirstReportsOfDistinct(list[..n]);
      assert Ids(list) == Ids(list[..n]) + [list[n].id];
      assert forall i :: 0 <= i < n ==> Ids(list[..n])[i] == list[i].id;
    }
  }

  /** A document has a first report iff it is named, and no document has two. */
  lemma {:induction false} FirstReportsNames(list: Neighbours)
    ensures forall id :: id in FirstReports(list) <==> id in IdsOf(list)
    ensures |FirstReports(list)| == |IdsOf(list)|
  {
    if list != [] {
      var n := |list| - 1;
      FirstReportsNames(list[..n]);
      IdsWithLast(list);
    }
  }

  lemma IdsWithLast(list: Neighbours)
    requires list != []
    ensures var n := |list| - 1;
            && IdsOf(list) == IdsOf(list[..n]) + {list[n].id}
            && |IdsOf(list)| == |IdsOf(list[..n])| + (if list[n].id in IdsOf(list[..n]) then 0 else 1)
  {
    var n := |list| - 1;
    assert IdsOf(list) == IdsOf(list[..n]) + {list[n].id};
    assert list[n].id in IdsOf(list[..n]) ==> IdsOf(list) == IdsOf(list[..n]);
  }

  /** Neither sorts again nor cuts at k. */
  method MergeNeighbours(existing: Neighbours, added: Neighbours) returns (r: Neighbours)
    requires NoRepeats(existing)
    ensures MergeOf(r, existing, added)
  {
    r := existing;
    MergeNothing(existing);
    for n := 0 to |added|
      invariant MergeOf(r, existing, added[..n])
    {
      assert added[..n + 1] == added[..n] + [added[n]];
      r := MergeOne(r, added[n], existing, added[..n]);
    }
    assert added[..|added|] == added;
  }

  method MergeOne(list: Neighbours, n: R.Neighbour, ghost existing: Neighbours, ghost added: Neighbours) returns (r: Neighbours)
    requires MergeOf(list, existing, added)
    ensures MergeOf(r, existing, added + [n])
  {
    r := list;
    var at := Find(list, n.id);
    if at.Some? {
      if n.distance < list[at.value].distance {
        r := list[at.value := n];
      }
    } else {
      r := list + [n];
    }
    MergeStep(r, list, existing, added, n, at);
  }

  lemma MergeNothing(list: Neighbours)
    requires NoRepeats(list)
    ensures MergeOf(list, list, []) && MergeOf(list, [], list)
  {
    FirstReportsOfDistinct(list);
    assert list + [] == list && [] + list == list;
  }

  method Find(list: Neighbours, id: Id) returns (at: Option<nat>)
    ensures at.Some? ==> at.value < |list| && list[at.value].id == id
    ensures at.None? ==> !R.Names(list, id)
  {
    for i := 0 to |list|
      invariant forall j :: 0 <= j < i ==> list[j].id != id
    {
      if list[i].id == id {
        return Some(i);
      }
    }
    at := None;
  }

  lemma {:induction false} LeastAt(list: Neighbours, i: nat)
    requires NoRepeats(list) && i < |list|
    ensures R.LeastTo(list, list[i].id) == Some(list[i].distance)
  {
    var n := |list| - 1;
    if i < n {
      LeastAt(list[..n], i);
    } else {
      R.LeastNames(list[..n], list[i].id);
    }
  }

  lemma LeastReplaced(list: Neighbours, i: nat, n: R.Neighbour, id: Id)
    requires NoRepeats(list) && i < |list| && n.id == list[i].id
    ensures R.LeastTo(list[i := n], id) == if id == n.id then Some(n.distance) else R.LeastTo(list, id)
  {
    var r := list[i := n];
    if id == n.id {
      LeastAt(r, i);
    } else {
      R.LeastNames(list, id);
      R.LeastNames(r, id);
      if R.Names(list, id) {
        var j :| 0 <= j < |list| && list[j].id == id;
        LeastAt(list, j);
        LeastAt(r, j);
      } else {
        assert forall j :: 0 <= j < |r| ==> r[j].id == list[j].id;
      }
    }
  }

  lemma MergeStep(r: Neighbours, before: Neighbours, existing: Neighbours, added: Neighbours, n: R.Neighbour, at: Option<nat>)
    requires MergeOf(before, existing, added)
    requires at.Some? ==> at.value < |before| && before[at.value].id == n.id
    requires at.Some? ==> r == if n.distance < before[at.value].distance then before[at.value := n] else before
    requires at.None? ==> !R.Names(before, n.id) && r == before + [n]
    ensures MergeOf(r, existing, added + [n])
  {
    MergeOrder(r, before, existing, added, n, at);
    assert (added + [n])[..|added|] == added;
    forall id ensures R.LeastTo(r, id) == R.Least(R.LeastTo(existing, id), R.LeastTo(added + [n], id)) {
      var a, b := R.LeastTo(existing, id), R.LeastTo(added, id);
      R.LeastAssociates(a, b, Some(n.distance));
      if at.Some? {
        LeastAt(before, at.value);
        LeastReplaced(before, at.value, n, id);
      } else {
        assert (before + [n])[..|before|] == before;
        R.LeastNames(before, id);
      }
    }
  }

  lemma MergeOrder(r: Neighbours, before: Neighbours, existing: Neighbours, added: Neighbours, n: R.Neighbour, at: Option<nat>)
    requires Ids(before) == FirstReports(existing + added)
    requires at.Some? ==> at.value < |before| && before[at.value].id == n.id
    requires at.Some? ==> r == if n.distance < before[at.value].distance then before[at.value := n] else before
    requires at.None? ==> !R.Names(before, n.id) && r == before + [n]
    ensures Ids(r) == FirstReports(existing + (added + [n]))
  {
    var so := existing + added;
    assert existing + (added + [n]) == so + [n] && (so + [n])[..|so|] == so;
    if at.Some? {
      assert Ids(before)[at.value] == n.id;
      assert Ids(r) == Ids(before);
    } else {
      assert forall i :: 0 <= i < |before| ==> Ids(before)[i] == before[i].id != n.id;
      assert Ids(r) == Ids(before) + [n.id];
    }
  }

  function ListOf(result: map<Id, Neighbours>, doc: Id): Neighbours {
    if doc in result then result[doc] else []
  }

  /** The least distance at which the lists of a document's chunks report another. */
  function LeastOver(points: seq<Point>, lists: seq<Neighbours>, doc: Id, id: Id): Option<real>
    requires |lists| == |points|
  {
    if points == [] then None
    else
      var n := |points| - 1;
      var earlier := LeastOver(points[..n], lists[..n], doc, id);
      if points[n].docId == doc then R.Least(earlier, R.LeastTo(lists[n], id)) else earlier
  }

  /** All reports of a document's chunks, list after list. */
  function Reports(points: seq<Point>, lists: seq<Neighbours>, doc: Id): Neighbours
    requires |lists| == |points|
  {
    if points == [] then []
    else
      var n := |points| - 1;
      Reports(points[..n], lists[..n], doc) + (if points[n].docId == doc then lists[n] else [])
  }

  ghost predicate AllTopK(s: Search, points: seq<Point>, lists: seq<Neighbours>) {
    && |lists| == |points|
    && forall i :: 0 <= i < |points| ==> TopKOf(lists[i], Distances(s, points[i]), s.k)
  }

  /** Every document's list names its neighbours once, in the order of first reports, at the least distance its chunks report. */
  ghost predicate Folded(result: map<Id, Neighbours>, points: seq<Point>, lists: seq<Neighbours>) {
    && |lists| == |points|
    && (forall doc :: Ids(ListOf(result, doc)) == FirstReports(Reports(points, lists, doc)))
    && (forall doc :: doc in result ==> result[doc] != [] && NoRepeats(result[doc]))
    && (forall doc, id :: R.LeastTo(ListOf(result, doc), id) == LeastOver(points, lists, doc, id))
  }

  method CollectTopK(s: Search, points: seq<Point>) returns (result: map<Id, Neighbours>, ghost lists: seq<Neighbours>)
    ensures AllTopK(s, points, lists)
    ensures Folded(result, points, lists)
  {
    result, lists := map[], [];
    for n := 0 to |points|
      invariant AllTopK(s, points[..n], lists)
      invariant Folded(result, points[..n], lists)
    {
      var neighbours := FlatKnnTopK(s, points[n]);
      result := FoldPoint(result, points[n], neighbours, points[..n], lists);
      assert points[..n + 1] == points[..n] + [points[n]];
      lists := lists + [neighbours];
    }
    assert points[..|points|] == points;
  }

  /** An empty list adds nothing; the first list of a document is taken as it is. */
  method FoldPoint(result: map<Id, Neighbours>, point: Point, neighbours: Neighbours,
                   ghost points: seq<Point>, ghost lists: seq<Neighbours>)
    returns (r: map<Id, Neighbours>)
    requires Folded(result, points, lists) && NoRepeats(neighbours)
    ensures Folded(r, points + [point], lists + [neighbours])
  {
    r := result;
    MergeNothing(neighbours);
    MergeNothing(ListOf(result, point.docId));
    if neighbours != [] {
      var merged := neighbours;
      if point.docId in result {
        merged := MergeNeighbours(result[point.docId], neighbours);
        StaysFilled(merged, result[point.docId], neighbours);
      }
      r := result[point.docId := merged];
    }
    FoldStep(result, r, point, neighbours, points, lists);
  }

  lemma StaysFilled(r: Neighbours, existing: Neighbours, added: Neighbours)
    requires MergeOf(r, existing, added) && existing != []
    ensures r != []
  {
    R.LeastNames(existing, existing[0].id);
    assert R.LeastTo(r, existing[0].id).Some?;
  }

  lemma FoldStep(result: map<Id, Neighbours>, r: map<Id, Neighbours>, point: Point, neighbours: Neighbours,
                 points: seq<Point>, lists: seq<Neighbours>)
    requires Folded(result, points, lists)
    requires forall doc :: doc != point.docId ==> ListOf(r, doc) == ListOf(result, doc)
    requires forall doc :: doc in r ==> r[doc] != []
    requires r.Keys <= result.Keys + {point.docId}
    requires MergeOf(ListOf(r, point.docId), ListOf(result, point.docId), neighbours)
    ensures Folded(r, points + [point], lists + [neighbours])
  {
    var ps, ls := points + [point], lists + [neighbours];
    assert ps[..|points|] == points && ls[..|lists|] == lists;
    forall doc ensures Ids(ListOf(r, doc)) == FirstReports(Reports(ps, ls, doc)) {
      FoldOrder(result, r, point, neighbours, points, lists, doc);
    }
    forall doc, id ensures R.LeastTo(ListOf(r, doc), id) == LeastOver(ps, ls, doc, id) {}
    forall doc | doc in r ensures NoRepeats(r[doc]) {
      assert ListOf(r, doc) == r[doc];
    }
  }

  lemma FoldOrder(result: map<Id, Neighbours>, r: map<Id, Neighbours>, point: Point, neighbours: Neighbours,
                  points: seq<Point>, lists: seq<Neighbours>, doc: Id)
    requires |lists| == |points| && NoRepeats(ListOf(result, doc))
    requires Ids(ListOf(result, doc)) == FirstReports(Reports(points, lists, doc))
    requires doc != point.docId ==> ListOf(r, doc) == ListOf(result, doc)
    requires doc == point.docId ==> Ids(ListOf(r, doc)) == FirstReports(ListOf(result, doc) + neighbours)
    ensures Ids(ListOf(r, doc)) == FirstReports(Reports(points + [point], lists + [neighbours], doc))
  {
    var before, reports := ListOf(result, doc), Reports(points, lists, doc);
    assert (points + [point])[..|points|] == points && (lists + [neighbours])[..|lists|] == lists;
    if doc == point.docId {
      FirstReportsOfDistinct(before);
      FirstReportsAppend(before, reports, neighbours);
    } else {
      assert reports + [] == reports;
    }
  }

  lemma {:induction false} FirstReportsAppend(a: Neighbours, b: Neighbours, tail: Neighbours)
    requires FirstReports(a) == FirstReports(b)
    ensures FirstReports(a + tail) == FirstReports(b + tail)
  {
    if tail == [] {
      assert a + tail == a && b + tail == b;
    } else {
      var n := |tail| - 1;
      FirstReportsAppend(a, b, tail[..n]);
      assert (a + tail)[..|a + tail| - 1] == a + tail[..n] && (b + tail)[..|b + tail| - 1] == b + tail[..n];
    }
  }

  // ── What the fold keeps ────────────────────────────────────────────────────

  /** A document's overall distance from another: over all its chunks. */
  function Overall(s: Search, points: seq<Point>, doc: Id, id: Id): Option<real> {
    if points == [] then None
    else
      var n := |points| - 1;
      var earlier := Overall(s, points[..n], doc, id);
      if points[n].docId == doc && id in Distances(s, points[n])
      then R.Least(earlier, Some(Distances(s, points[n])[id])) else earlier
  }

  function DocIds(s: Search): set<Id> {
    set i | 0 <= i < |s.candidates| :: s.candidates[i].docId
  }

  /** The other documents at least as near overall. */
  function AsNear(s: Search, points: seq<Point>, doc: Id, id: Id, d: real): set<Id> {
    set other | other in DocIds(s) && other != id && Overall(s, points, doc, other).Some? && Overall(s, points, doc, other).value <= d
  }

  /** In threshold, with fewer than k others at least as near. */
  ghost predicate AmongNearest(s: Search, points: seq<Point>, doc: Id, id: Id) {
    Overall(s, points, doc, id).Some? && |AsNear(s, points, doc, id, Overall(s, points, doc, id).value)| < s.k
  }

  lemma {:induction false} OverallIsLeast(s: Search, points: seq<Point>, doc: Id, id: Id, i: nat)
    requires i < |points| && points[i].docId == doc && id in Distances(s, points[i])
    ensures Overall(s, points, doc, id).Some? && Overall(s, points, doc, id).value <= Distances(s, points[i])[id]
  {
    var n := |points| - 1;
    if i < n {
      OverallIsLeast(s, points[..n], doc, id, i);
    }
  }

  lemma {:induction false} OverallAttained(s: Search, points: seq<Point>, doc: Id, id: Id) returns (i: nat)
    requires Overall(s, points, doc, id).Some?
    ensures i < |points| && points[i].docId == doc && id in Distances(s, points[i])
    ensures Distances(s, points[i])[id] == Overall(s, points, doc, id).value
  {
    var n := |points| - 1;
    if points[n].docId == doc && id in Distances(s, points[n]) && Distances(s, points[n])[id] == Overall(s, points, doc, id).value {
      i := n;
    } else {
      i := OverallAttained(s, points[..n], doc, id);
    }
  }

  lemma {:induction false} LeastOverAt(points: seq<Point>, lists: seq<Neighbours>, doc: Id, id: Id, i: nat)
    requires |lists| == |points| && i < |points| && points[i].docId == doc && R.LeastTo(lists[i], id).Some?
    ensures LeastOver(points, lists, doc, id).Some?
    ensures LeastOver(points, lists, doc, id).value <= R.LeastTo(lists[i], id).value
  {
    var n := |points| - 1;
    if i < n {
      LeastOverAt(points[..n], lists[..n], doc, id, i);
    }
  }

  /** No reported distance is below the overall one. */
  lemma {:induction false} NeverTooNear(s: Search, points: seq<Point>, lists: seq<Neighbours>, doc: Id, id: Id)
    requires AllTopK(s, points, lists) && LeastOver(points, lists, doc, id).Some?
    ensures Overall(s, points, doc, id).Some? && Overall(s, points, doc, id).value <= LeastOver(points, lists, doc, id).value
  {
    var n := |points| - 1;
    if LeastOver(points[..n], lists[..n], doc, id).Some? {
      NeverTooNear(s, points[..n], lists[..n], doc, id);
    }
    if points[n].docId == doc && R.LeastTo(lists[n], id).Some? {
      R.LeastNames(lists[n], id);
      OverallIsLeast(s, points, doc, id, n);
    }
  }

  lemma {:induction false} CandidatesOnly(s: Search, point: Point, n: nat)
    requires n <= |s.candidates|
    ensures BestPerDoc(s, point, n).Keys <= DocIds(s)
  {
    if n > 0 {
      CandidatesOnly(s, point, n - 1);
    }
  }

  /** A chunk's list that leaves a document out is full of documents as near. */
  lemma LeftOut(s: Search, points: seq<Point>, doc: Id, id: Id, i: nat, list: Neighbours)
    requires i < |points| && points[i].docId == doc && id in Distances(s, points[i])
    requires TopKOf(list, Distances(s, points[i]), s.k) && !R.Names(list, id)
    ensures |AsNear(s, points, doc, id, Distances(s, points[i])[id])| >= s.k
  {
    var all, d := Distances(s, points[i]), Distances(s, points[i])[id];
    IdCount(list);
    assert id !in IdsOf(list);
    CandidatesOnly(s, points[i], |s.candidates|);
    if |list| == |all| {
      assert IdsOf(list) <= all.Keys && |IdsOf(list)| == |all.Keys|;
      FullSubset(IdsOf(list), all.Keys);
    }
    forall j | 0 <= j < |list| ensures list[j].id in AsNear(s, points, doc, id, d) {
      OverallIsLeast(s, points, doc, list[j].id, i);
    }
    assert IdsOf(list) <= AsNear(s, points, doc, id, d);
    SubsetSize(IdsOf(list), AsNear(s, points, doc, id, d));
  }

  /**
     The fold of a document's chunk lists reports at its exact overall distance
     every in-threshold document with fewer than k others at least as near,
     however ties were cut.
     */
  lemma NearestAreKept(s: Search, points: seq<Point>, lists: seq<Neighbours>, doc: Id, id: Id)
    requires AllTopK(s, points, lists) && AmongNearest(s, points, doc, id)
    ensures LeastOver(points, lists, doc, id) == Overall(s, points, doc, id)
  {
    var i := OverallAttained(s, points, doc, id);
    if R.Names(lists[i], id) {
      ReportedExactly(s, points[i], lists[i], id);
      LeastOverAt(points, lists, doc, id, i);
      BoundedBelow(s, points, lists, doc, id, R.LeastTo(lists[i], id).value);
    } else {
      LeftOut(s, points, doc, id, i, lists[i]);
    }
  }

  /** A reported distance no greater than the overall one is the overall one. */
  lemma BoundedBelow(s: Search, points: seq<Point>, lists: seq<Neighbours>, doc: Id, id: Id, d: real)
    requires AllTopK(s, points, lists) && Overall(s, points, doc, id) == Some(d)
    requires LeastOver(points, lists, doc, id).Some? && LeastOver(points, lists, doc, id).value <= d
    ensures LeastOver(points, lists, doc, id) == Some(d)
  {
    NeverTooNear(s, points, lists, doc, id);
  }

  lemma ReportedExactly(s: Search, point: Point, list: Neighbours, id: Id)
    requires TopKOf(list, Distances(s, point), s.k) && R.Names(list, id)
    ensures id in Distances(s, point) && R.LeastTo(list, id) == Some(Distances(s, point)[id])
  {
    var j :| 0 <= j < |list| && list[j].id == id;
    LeastAt(list, j);
  }

  /** The i-th chunk, of that document, and the j-th candidate, of another, are at that distance within the threshold. */
  predicate Close(s: Search, points: seq<Point>, doc: Id, id: Id, i: int, j: int, d: real) {
    && 0 <= i < |points| && 0 <= j < |s.candidates| && points[i].docId == doc && s.candidates[j].docId == id && id != doc
    && d == s.distance(points[i].embedding, s.candidates[j].embedding) <= s.threshold
  }

  /** Some chunk of the document and some candidate of the other are at that distance within the threshold. */
  ghost predicate Attained(s: Search, points: seq<Point>, doc: Id, id: Id, d: real) {
    exists i, j :: Close(s, points, doc, id, i, j, d)
  }

  /** The other documents with a chunk at most that far from one of the document's. */
  ghost function CloseOthers(s: Search, points: seq<Point>, doc: Id, id: Id, d: real): set<Id> {
    set other | other in DocIds(s) && other != id && exists i, j, e :: Close(s, points, doc, other, i, j, e) && e <= d
  }

  lemma OverallMeans(s: Search, points: seq<Point>, doc: Id, id: Id)
    ensures Overall(s, points, doc, id).Some? ==> exists i, j :: Close(s, points, doc, id, i, j, Overall(s, points, doc, id).value)
    ensures forall i, j, d :: Close(s, points, doc, id, i, j, d) ==>
              Overall(s, points, doc, id).Some? && Overall(s, points, doc, id).value <= d
  {
    if Overall(s, points, doc, id).Some? {
      var i := OverallAttained(s, points, doc, id);
      DistanceIsLeast(s, points[i], |s.candidates|, id);
      var j: nat :| j < |s.candidates| && Counts(s, points[i], id, j)
                    && Distances(s, points[i])[id] == s.distance(points[i].embedding, s.candidates[j].embedding);
      assert Close(s, points, doc, id, i, j, Overall(s, points, doc, id).value);
    }
    forall i, j, d | Close(s, points, doc, id, i, j, d)
      ensures Overall(s, points, doc, id).Some? && Overall(s, points, doc, id).value <= d
    {
      DistanceIsLeast(s, points[i], |s.candidates|, id);
      assert Counts(s, points[i], id, j);
      OverallIsLeast(s, points, doc, id, i);
    }
  }

  /** Every reported distance is one of a chunk and a candidate. */
  lemma {:induction false} ReportIsClose(s: Search, points: seq<Point>, lists: seq<Neighbours>, doc: Id, id: Id) returns (i: nat, j: nat)
    requires AllTopK(s, points, lists) && LeastOver(points, lists, doc, id).Some?
    ensures Close(s, points, doc, id, i, j, LeastOver(points, lists, doc, id).value)
  {
    var n := |points| - 1;
    var least := LeastOver(points, lists, doc, id);
    if points[n].docId == doc && R.LeastTo(lists[n], id) == least {
      R.LeastNames(lists[n], id);
      DistanceIsLeast(s, points[n], |s.candidates|, id);
      i := n;
      j :| j < |s.candidates| && Counts(s, points[n], id, j)
           && Distances(s, points[n])[id] == s.distance(points[n].embedding, s.candidates[j].embedding);
    } else {
      i, j := ReportIsClose(s, points[..n], lists[..n], doc, id);
    }
  }

  /** The lists in terms of chunks and candidates. */
  lemma ListsMean(s: Search, points: seq<Point>, lists: seq<Neighbours>, result: map<Id, Neighbours>)
    requires AllTopK(s, points, lists) && Folded(result, points, lists)
    ensures forall doc, x :: doc in result && 0 <= x < |result[doc]| ==>
              Attained(s, points, doc, result[doc][x].id, result[doc][x].distance)
    ensures forall doc, id, i, j, d :: Close(s, points, doc, id, i, j, d) && |CloseOthers(s, points, doc, id, d)| < s.k ==>
              doc in result && exists n :: n in result[doc] && n.id == id && n.distance <= d
  {
    forall doc, x | doc in result && 0 <= x < |result[doc]|
      ensures Attained(s, points, doc, result[doc][x].id, result[doc][x].distance)
    {
      EntryDistance(result[doc], result[doc][x]);
      var i, j := ReportIsClose(s, points, lists, doc, result[doc][x].id);
    }
    forall doc, id, i, j, d | Close(s, points, doc, id, i, j, d) && |CloseOthers(s, points, doc, id, d)| < s.k
      ensures doc in result && exists n :: n in result[doc] && n.id == id && n.distance <= d
    {
      CloseIsNearest(s, points, doc, id, i, j, d);
      NearestAreKept(s, points, lists, doc, id);
      R.LeastNames(ListOf(result, doc), id);
      var least := R.LeastTo(ListOf(result, doc), id);
      assert R.Neighbour(id, least.value) in ListOf(result, doc);
    }
  }

  lemma EntryDistance(list: Neighbours, n: R.Neighbour)
    requires NoRepeats(list) && n in list
    ensures R.LeastTo(list, n.id) == Some(n.distance)
  {
    R.LeastNames(list, n.id);
    var i :| 0 <= i < |list| && list[i] == n;
    assert list[i].id == n.id;
    var j :| 0 <= j < |list| && list[j] == R.Neighbour(n.id, R.LeastTo(list, n.id).value);
    assert i == j;
  }

  lemma CloseIsNearest(s: Search, points: seq<Point>, doc: Id, id: Id, i: int, j: int, d: real)
    requires Close(s, points, doc, id, i, j, d) && |CloseOthers(s, points, doc, id, d)| < s.k
    ensures AmongNearest(s, points, doc, id) && Overall(s, points, doc, id).value <= d
  {
    OverallMeans(s, points, doc, id);
    var nearer := AsNear(s, points, doc, id, Overall(s, points, doc, id).value);
    forall other | other in nearer ensures other in CloseOthers(s, points, doc, id, d) {
      OverallMeans(s, points, doc, other);
    }
    SubsetSize(nearer, CloseOthers(s, points, doc, id, d));
  }

  /**
     The neighbour lists of a set of chunks: each neighbour once, never nearer
     than its overall distance, and at exactly that distance if fewer than k
     others are at least as near. For a document of one chunk, resolution reads
     all those.
     */
  method CrossNeighbours(s: Search, points: seq<Point>) returns (result: map<Id, Neighbours>)
    ensures forall doc, x :: doc in result && 0 <= x < |result[doc]| ==>
              Attained(s, points, doc, result[doc][x].id, result[doc][x].distance)
    ensures forall doc, id, i, j, d :: Close(s, points, doc, id, i, j, d) && |CloseOthers(s, points, doc, id, d)| < s.k ==>
              doc in result && exists n :: n in result[doc] && n.id == id && n.distance <= d
    ensures forall doc :: doc in result ==> result[doc] != [] && NoRepeats(result[doc])
    ensures forall doc, id :: R.LeastTo(ListOf(result, doc), id).Some? ==>
              Overall(s, points, doc, id).Some? && Overall(s, points, doc, id).value <= R.LeastTo(ListOf(result, doc), id).value
    ensures forall doc, id :: AmongNearest(s, points, doc, id) ==>
              R.LeastTo(ListOf(result, doc), id) == Overall(s, points, doc, id)
    ensures forall doc, id, i :: AmongNearest(s, points, doc, id) && OnlyPoint(points, doc, i) ==>
              R.Names(Take(ListOf(result, doc), s.k), id)
  {
    ghost var lists;
    result, lists := CollectTopK(s, points);
    ListsMean(s, points, lists, result);
    forall doc, id | R.LeastTo(ListOf(result, doc), id).Some?
      ensures Overall(s, points, doc, id).Some? && Overall(s, points, doc, id).value <= R.LeastTo(ListOf(result, doc), id).value
    {
      NeverTooNear(s, points, lists, doc, id);
    }
    forall doc, id | AmongNearest(s, points, doc, id)
      ensures R.LeastTo(ListOf(result, doc), id) == Overall(s, points, doc, id)
    {
      NearestAreKept(s, points, lists, doc, id);
    }
    forall doc, id, i | AmongNearest(s, points, doc, id) && OnlyPoint(points, doc, i)
      ensures R.Names(Take(ListOf(result, doc), s.k), id)
    {
      OneChunkReadsNearest(s, result, points, lists, doc, id, i);
    }
  }

  // ── What resolution then reads ─────────────────────────────────────────────

  /** The report at f is the first one of its document. */
  ghost predicate IsFirstReport(reports: Neighbours, f: nat) {
    f < |reports| && reports[f].id !in IdsOf(reports[..f])
  }

  /** Fewer than k distinct documents are reported before the document's first report. */
  ghost predicate ReportedEarly(reports: Neighbours, id: Id, k: nat) {
    exists f: nat :: IsFirstReport(reports, f) && reports[f].id == id && |IdsOf(reports[..f])| < k
  }

  /** A document's place among the first reports is the number of distinct documents reported before it. */
  lemma {:induction false} FirstReportPlace(reports: Neighbours, f: nat)
    requires IsFirstReport(reports, f)
    ensures |IdsOf(reports[..f])| < |FirstReports(reports)| && FirstReports(reports)[|IdsOf(reports[..f])|] == reports[f].id
  {
    var n := |reports| - 1;
    FirstReportsNames(reports[..n]);
    if f < n {
      assert reports[..n][..f] == reports[..f];
      FirstReportPlace(reports[..n], f);
    }
  }

  lemma {:induction false} FirstReportExists(reports: Neighbours, id: Id) returns (f: nat)
    requires id in IdsOf(reports)
    ensures IsFirstReport(reports, f) && reports[f].id == id
  {
    var n := |reports| - 1;
    assert IdsOf(reports) == IdsOf(reports[..n]) + {reports[n].id};
    if id in IdsOf(reports[..n]) {
      f := FirstReportExists(reports[..n], id);
      assert reports[..n][..f] == reports[..f];
    } else {
      f := n;
    }
  }

  lemma {:induction false} FirstReportsDiffer(list: Neighbours)
    ensures Distinct(FirstReports(list))
  {
    if list != [] {
      var n := |list| - 1;
      FirstReportsDiffer(list[..n]);
      FirstReportsNames(list[..n]);
    }
  }

  /**
     Resolution reads the first k entries of a document's list: a neighbour is
     among them iff fewer than k distinct documents were reported before its
     first report along the lists of the document's chunks. How near it is does
     not come into it.
     */
  lemma ReadIffReportedEarly(result: map<Id, Neighbours>, points: seq<Point>, lists: seq<Neighbours>, doc: Id, id: Id, k: nat)
    requires Folded(result, points, lists)
    ensures R.Names(Take(ListOf(result, doc), k), id) <==> ReportedEarly(Reports(points, lists, doc), id, k)
  {
    var list, reports := ListOf(result, doc), Reports(points, lists, doc);
    var read := Take(list, k);
    assert Ids(list) == FirstReports(reports);
    FirstReportsNames(reports);
    if R.Names(read, id) {
      var i :| 0 <= i < |read| && read[i].id == id;
      assert Ids(list)[i] == id;
      assert id in FirstReports(reports);
      var f := FirstReportExists(reports, id);
      FirstReportPlace(reports, f);
      FirstReportsDiffer(reports);
      assert i == |IdsOf(reports[..f])|;
    }
    if ReportedEarly(reports, id, k) {
      var f: nat :| IsFirstReport(reports, f) && reports[f].id == id && |IdsOf(reports[..f])| < k;
      FirstReportPlace(reports, f);
      var i := |IdsOf(reports[..f])|;
      assert Ids(list)[i] == list[i].id == read[i].id;
    }
  }

  /** Where at most k documents are reported at all, resolution reads every one of them. */
  lemma FewReportsAreRead(result: map<Id, Neighbours>, points: seq<Point>, lists: seq<Neighbours>, doc: Id, id: Id, k: nat)
    requires Folded(result, points, lists) && |IdsOf(Reports(points, lists, doc))| <= k
    ensures R.Names(Take(ListOf(result, doc), k), id) <==> LeastOver(points, lists, doc, id).Some?
  {
    var list := ListOf(result, doc);
    FirstReportsNames(Reports(points, lists, doc));
    assert |list| == |Ids(list)| <= k;
    R.LeastNames(list, id);
  }

  /** The document has one chunk, at i. */
  predicate OnlyPoint(points: seq<Point>, doc: Id, i: nat) {
    i < |points| && points[i].docId == doc && forall j :: 0 <= j < |points| && points[j].docId == doc ==> j == i
  }

  lemma {:induction false} OneListReported(points: seq<Point>, lists: seq<Neighbours>, doc: Id, i: nat)
    requires |lists| == |points|
    requires forall j :: 0 <= j < |points| && points[j].docId == doc ==> j == i
    ensures Reports(points, lists, doc) == if i < |points| && points[i].docId == doc then lists[i] else []
  {
    if points != [] {
      OneListReported(points[..|points| - 1], lists[..|points| - 1], doc, i);
    }
  }

  /** For a document of one chunk, resolution reads every neighbour with fewer than k others at least as near. */
  lemma OneChunkReadsNearest(s: Search, result: map<Id, Neighbours>, points: seq<Point>, lists: seq<Neighbours>, doc: Id, id: Id, i: nat)
    requires Folded(result, points, lists) && AllTopK(s, points, lists)
    requires OnlyPoint(points, doc, i) && AmongNearest(s, points, doc, id)
    ensures R.Names(Take(ListOf(result, doc), s.k), id)
  {
    OneListReported(points, lists, doc, i);
    IdCount(lists[i]);
    NearestAreKept(s, points, lists, doc, id);
    FewReportsAreRead(result, points, lists, doc, id, s.k);
  }

  // ── A nearer neighbour that is not read ────────────────────────────────────

  function Apart(a: Vector, b: Vector): real {
    if |a| == 0 || |b| == 0 then 1.0 else if a[0] <= b[0] then b[0] - a[0] else a[0] - b[0]
  }

  const TWO_CANDIDATES := Search([Candidate("far", [0.4]), Candidate("near", [1.0])], 1, 0.5, Apart)

  const TWO_CHUNKS := [Point("doc", [0.0]), Point("doc", [0.9])]

  lemma TwoDistances()
    ensures Distances(TWO_CANDIDATES, TWO_CHUNKS[0]) == map["far" := 0.4]
    ensures Distances(TWO_CANDIDATES, TWO_CHUNKS[1]) == map["far" := 0.5, "near" := 0.1]
  {
    var s := TWO_CANDIDATES;
    forall p | p in TWO_CHUNKS ensures Distances(s, p) == BestPerDoc(s, p, 2) && BestPerDoc(s, p, 0) == map[] {}
    assert BestPerDoc(s, TWO_CHUNKS[0], 1) == map["far" := 0.4];
    assert BestPerDoc(s, TWO_CHUNKS[1], 1) == map["far" := 0.5];
  }

  /** Each chunk's one nearest document. */
  lemma TwoLists(lists: seq<Neighbours>)
    requires AllTopK(TWO_CANDIDATES, TWO_CHUNKS, lists)
    ensures lists == [[R.Neighbour("far", 0.4)], [R.Neighbour("near", 0.1)]]
  {
    TwoDistances();
    var first, second := map["far" := 0.4], map["far" := 0.5, "near" := 0.1];
    assert first.Keys == {"far"} && |first| == |first.Keys|;
    assert second.Keys == {"far", "near"} && |second| == |second.Keys|;
    assert "near"[0] != "far"[0];
    OnlyOne(lists[0], first, "far", 0.4);
    OnlyOne(lists[1], second, "near", 0.1);
  }

  /** The nearest of all is the one in a list of one. */
  lemma OnlyOne(list: Neighbours, all: map<Id, real>, id: Id, d: real)
    requires TopKOf(list, all, 1) && |all| >= 1 && id in all && all[id] == d
    requires forall other :: other in all && other != id ==> all[other] > d
    ensures list == [R.Neighbour(id, d)]
  {
    assert |list| == 1 && list[0].id in all && all[list[0].id] == list[0].distance;
    assert list[0].id != id ==> !R.Names(list, id);
  }

  /** With k = 1 the search finds the near document from the second chunk, and resolution reads the far one only. */
  method NearerNeighbourUnread() returns (result: map<Id, Neighbours>)
    ensures R.LeastTo(ListOf(result, "doc"), "near") == Some(0.1) && R.LeastTo(ListOf(result, "doc"), "far") == Some(0.4)
    ensures R.Names(Take(ListOf(result, "doc"), 1), "far") && !R.Names(Take(ListOf(result, "doc"), 1), "near")
  {
    ghost var lists;
    result, lists := CollectTopK(TWO_CANDIDATES, TWO_CHUNKS);
    TwoLists(lists);
    var far, near := R.Neighbour("far", 0.4), R.Neighbour("near", 0.1);
    assert "near"[0] != "far"[0];
    TwoReports(TWO_CHUNKS, lists, far, near);
    ReadIffReportedEarly(result, TWO_CHUNKS, lists, "doc", "far", 1);
    ReadIffReportedEarly(result, TWO_CHUNKS, lists, "doc", "near", 1);
  }

  lemma TwoReports(points: seq<Point>, lists: seq<Neighbours>, far: R.Neighbour, near: R.Neighbour)
    requires |points| == 2 && points[0].docId == points[1].docId == "doc" && lists == [[far], [near]] && far.id != near.id
    ensures LeastOver(points, lists, "doc", near.id) == Some(near.distance)
    ensures LeastOver(points, lists, "doc", far.id) == Some(far.distance)
    ensures ReportedEarly(Reports(points, lists, "doc"), far.id, 1) && !ReportedEarly(Reports(points, lists, "doc"), near.id, 1)
  {
    LeastOfTwo(points, lists, far, near, far.id);
    LeastOfTwo(points, lists, far, near, near.id);
    ReportsOfTwo(points, lists, far, near);
    FirstOfTwo(far, near);
  }

  lemma LeastOfTwo(points: seq<Point>, lists: seq<Neighbours>, far: R.Neighbour, near: R.Neighbour, id: Id)
    requires |points| == 2 && points[0].docId == points[1].docId == "doc" && lists == [[far], [near]]
    ensures LeastOver(points, lists, "doc", id) ==
              R.Least(if far.id == id then Some(far.distance) else None, if near.id == id then Some(near.distance) else None)
  {
    LeastOfOne(far, id);
    LeastOfOne(near, id);
    var first, one := points[..1], lists[..1];
    assert first[..0] == [] && one[..0] == [] && first[0] == points[0] && one[0] == [far];
    assert LeastOver(first, one, "doc", id) == R.LeastTo([far], id);
  }

  lemma LeastOfOne(n: R.Neighbour, id: Id)
    ensures R.LeastTo([n], id) == if n.id == id then Some(n.distance) else None
  {
    assert [n][..0] == [];
  }

  lemma ReportsOfTwo(points: seq<Point>, lists: seq<Neighbours>, far: R.Neighbour, near: R.Neighbour)
    requires |points| == 2 && points[0].docId == points[1].docId == "doc" && lists == [[far], [near]]
    ensures Reports(points, lists, "doc") == [far, near]
  {
    var first, one := points[..1], lists[..1];
    assert first[..0] == [] && one[..0] == [] && first[0] == points[0] && one[0] == [far];
    assert Reports(first, one, "doc") == [far];
  }

  lemma FirstOfTwo(far: R.Neighbour, near: R.Neighbour)
    requires far.id != near.id
    ensures ReportedEarly([far, near], far.id, 1) && !ReportedEarly([far, near], near.id, 1)
  {
    var reports := [far, near];
    assert reports[..0] == [] && IdsOf([]) == {} && IsFirstReport(reports, 0);
    assert reports[..1] == [far] && IdsOf([far]) == {far.id};
  }
}
