/**
 Entity resolution (src/resolve/mod.rs): from the nearest-neighbour lists of
 two record sets to a list of matched pairs in three stages. The code walks
 hash maps in whatever order they come; the result is proved equal to a
 description that mentions no order.
 */
module Resolve {
  import opened Outcomes
  import opened Collections
  import opened Lexical

  type Id = string

  /** A set record and a target record. */
  type Pair = (Id, Id)

  datatype Neighbour = Neighbour(id: Id, distance: real)

  type Lists = map<Id, seq<Neighbour>>

  datatype Stage = Core | SetExtra | TargetExtra

  datatype ResolvedMatch = ResolvedMatch(pair: Pair, distance: real, stage: Stage)

  datatype Options = Options(tauOneToOne: real, tauOneToMany: Option<real>, tauManyToOne: Option<real>)

  // ── Keys ───────────────────────────────────────────────────────────────────

  /** The key under which the code stores an edge. */
  function EdgeKey(p: Pair): string {
    p.0 + "::" + p.1
  }

  /** One set id goes on where the other ends with the separator, or with half of it. */
  predicate Clash(a: Id, b: Id) {
    a + ":" == b || a + "::" <= b || b + ":" == a || b + "::" <= a
  }

  /** Two set ids can have a key in common exactly when they clash; this module keys edges by the pair itself. */
  lemma EdgeKeysMeet(a: Id, b: Id)
    requires a != b
    ensures (exists t: Id, u: Id :: EdgeKey((a, t)) == EdgeKey((b, u))) <==> Clash(a, b)
  {
    if t: Id, u: Id :| EdgeKey((a, t)) == EdgeKey((b, u)) {
      LongerGoesOn(a, t, b, u);
      LongerGoesOn(b, u, a, t);
    }
    if Clash(a, b) {
      var t, u := SharedKey(a, b);
    }
  }

  lemma LongerGoesOn(a: Id, t: Id, b: Id, u: Id)
    requires EdgeKey((a, t)) == EdgeKey((b, u))
    ensures |a| == |b| ==> a == b && t == u
    ensures |a| < |b| ==> a + ":" == b || a + "::" <= b
  {
    var key, n := EdgeKey((a, t)), |a|;
    assert key[..n] == a && EdgeKey((b, u))[..|b|] == b;
    if n == |b| {
      assert key[n + 2..] == t && EdgeKey((b, u))[n + 2..] == u;
    } else if n < |b| {
      assert b[..n] == a && b[n] == key[n] == ':';
      if n + 1 < |b| {
        assert b[n + 1] == key[n + 1] == ':';
        assert b[..n + 2] == a + "::";
      } else {
        assert b == a + ":";
      }
    }
  }

  lemma SharedKey(a: Id, b: Id) returns (t: Id, u: Id)
    requires Clash(a, b)
    ensures EdgeKey((a, t)) == EdgeKey((b, u))
    decreases |a|
  {
    if a + ":" == b {
      t, u := ":", "";
      assert a + "::" + ":" == a + ":" + "::" + "";
    } else if a + "::" <= b {
      t, u := b[|a| + 2..] + "::", "";
      assert b == a + "::" + b[|a| + 2..];
      assert a + "::" + (b[|a| + 2..] + "::") == (a + "::" + b[|a| + 2..]) + "::" + "";
    } else {
      u, t := SharedKey(b, a);
    }
  }

  /** No double colon inside, no colon at the end. */
  predicate KeySafe(id: Id) {
    && (forall i :: 0 <= i < |id| - 1 ==> !(id[i] == ':' && id[i + 1] == ':'))
    && (id != [] ==> id[|id| - 1] != ':')
  }

  /** In particular keys tell pairs apart when all set ids are like that. */
  lemma EdgeKeysDiffer(p: Pair, q: Pair)
    requires KeySafe(p.0) && KeySafe(q.0)
    ensures EdgeKey(p) == EdgeKey(q) ==> p == q
  {
    if EdgeKey(p) == EdgeKey(q) {
      LongerGoesOn(p.0, p.1, q.0, q.1);
      LongerGoesOn(q.0, q.1, p.0, p.1);
      SafeIsNoContinuation(p.0, q.0);
      SafeIsNoContinuation(q.0, p.0);
    }
  }

  lemma SafeIsNoContinuation(a: Id, b: Id)
    ensures a + ":" == b || a + "::" <= b ==> !KeySafe(b)
  {
    if a + ":" == b {
      assert b[|b| - 1] == ':';
    } else if a + "::" <= b {
      assert b[|a|] == (a + "::")[|a|] == ':' && b[|a| + 1] == (a + "::")[|a| + 1] == ':';
    }
  }

  /** Otherwise two pairs can share a key. */
  lemma EdgeKeysCollide()
    ensures EdgeKey(("a::b", "c")) == EdgeKey(("a", "b::c"))
  {
    assert EdgeKey(("a::b", "c")) == "a::b::c" == EdgeKey(("a", "b::c"));
  }

  // ── The description ────────────────────────────────────────────────────────

  /** The first k neighbours of a record; none if it has no list. */
  function Listed(lists: Lists, k: nat, from: Id): seq<Neighbour> {
    if from in lists then Take(lists[from], k) else []
  }

  function Least(a: Option<real>, b: Option<real>): Option<real> {
    if a.None? then b else if b.None? || a.value <= b.value then a else b
  }

  /** The least distance at which a list names a record. */
  function LeastTo(list: seq<Neighbour>, id: Id): Option<real> {
    if list == [] then None
    else
      var earlier, last := LeastTo(list[..|list| - 1], id), list[|list| - 1];
      if last.id == id then Least(earlier, Some(last.distance)) else earlier
  }

  predicate Names(list: seq<Neighbour>, id: Id) {
    exists i :: 0 <= i < |list| && list[i].id == id
  }

  datatype Input = Input(setToTarget: Lists, targetToSet: Lists, k: nat) {

    /** A pair's distance: the least that either record's list reports. */
    function Near(p: Pair): Option<real> {
      Least(LeastTo(Listed(setToTarget, k, p.0), p.1), LeastTo(Listed(targetToSet, k, p.1), p.0))
    }

    predicate Within(p: Pair, tau: real) {
      Near(p).Some? && Near(p).value <= tau
    }

    predicate SetLists(p: Pair) {
      Names(Listed(setToTarget, k, p.0), p.1)
    }

    predicate TargetLists(p: Pair) {
      Names(Listed(targetToSet, k, p.1), p.0)
    }

    /** Each record lists the other, close enough. */
    predicate Mutual(p: Pair, tau: real) {
      Within(p, tau) && SetLists(p) && TargetLists(p)
    }

    /** Nearer, or as near with the smaller target id. */
    predicate Before(p: Pair, q: Pair)
    {
      Near(p).Some? && Near(q).Some? &&
      (Near(p).value < Near(q).value || (Near(p).value == Near(q).value && StrLt(p.1, q.1)))
    }

    /** The nearest mutual pair of its set record. */
    ghost predicate IsCore(p: Pair, tau: real) {
      Mutual(p, tau) && forall t: Id :: Mutual((p.0, t), tau) && t != p.1 ==> Before(p, (p.0, t))
    }

    /** A pair's stage is the best it qualifies for. */
    ghost function StageOf(p: Pair, o: Options): Option<Stage> {
      if IsCore(p, o.tauOneToOne) then Some(Core)
      else if o.tauOneToMany.Some? && Within(p, o.tauOneToMany.value) && SetLists(p) then Some(SetExtra)
      else if o.tauManyToOne.Some? && Within(p, o.tauManyToOne.value) && TargetLists(p) then Some(TargetExtra)
      else None
    }

    ghost predicate IsMatch(m: ResolvedMatch, o: Options) {
      StageOf(m.pair, o) == Some(m.stage) && Near(m.pair) == Some(m.distance)
    }
  }

  lemma BeforeIsOrder(input: Input, p: Pair, q: Pair, r: Pair)
    requires input.Near(p).Some? && input.Near(q).Some? && p.0 == q.0
    ensures p != q ==> input.Before(p, q) || input.Before(q, p)
    ensures !(input.Before(p, q) && input.Before(q, p))
    ensures input.Before(p, q) && input.Before(q, r) ==> input.Before(p, r)
  {
    StrTotal(p.1, q.1);
    if StrLe(p.1, q.1) && StrLe(q.1, r.1) {
      StrTransitive(p.1, q.1, r.1);
      StrTotal(q.1, p.1);
      StrTotal(r.1, q.1);
    }
  }

  /** A set record has at most one core match. */
  lemma OneCorePerSet(input: Input, tau: real, p: Pair, q: Pair)
    requires input.IsCore(p, tau) && input.IsCore(q, tau) && p.0 == q.0
    ensures p == q
  {
    assert q == (p.0, q.1) && p == (q.0, p.1);
    BeforeIsOrder(input, p, q, q);
  }

  /** The best mutual partner among the first n neighbours of a set record. */
  lemma {:induction false} BestAmong(input: Input, tau: real, s: Id, n: nat) returns (best: Option<Id>)
    requires n <= |Listed(input.setToTarget, input.k, s)|
    ensures best.Some? ==> input.Mutual((s, best.value), tau)
    ensures var list := Listed(input.setToTarget, input.k, s);
            forall i :: 0 <= i < n && input.Mutual((s, list[i].id), tau) ==>
              best.Some? && (best.value == list[i].id || input.Before((s, best.value), (s, list[i].id)))
  {
    if n == 0 {
      best := None;
    } else {
      var list := Listed(input.setToTarget, input.k, s);
      best := BestAmong(input, tau, s, n - 1);
      var p := (s, list[n - 1].id);
      if input.Mutual(p, tau) {
        if best.None? {
          best := Some(p.1);
        } else {
          var current := (s, best.value);
          BeforeIsOrder(input, p, current, p);
          if input.Before(p, current) {
            forall i | 0 <= i < n - 1 && input.Before(current, (s, list[i].id)) ensures input.Before(p, (s, list[i].id)) {
              BeforeIsOrder(input, p, current, (s, list[i].id));
            }
            best := Some(p.1);
          }
        }
      }
    }
  }

  /** Every set record with a mutual pair within tau has a core match. */
  lemma CoreExists(input: Input, tau: real, p: Pair)
    requires input.Mutual(p, tau)
    ensures exists t: Id :: input.IsCore((p.0, t), tau)
  {
    var list := Listed(input.setToTarget, input.k, p.0);
    var best := BestAmong(input, tau, p.0, |list|);
    var i :| 0 <= i < |list| && list[i].id == p.1;
    assert input.Mutual((p.0, list[i].id), tau);
    forall t: Id | input.Mutual((p.0, t), tau) && t != best.value ensures input.Before((p.0, best.value), (p.0, t)) {
      var j :| 0 <= j < |list| && list[j].id == t;
    }
    assert input.IsCore((p.0, best.value), tau);
  }

  lemma NamesLast(list: seq<Neighbour>, id: Id)
    requires list != []
    ensures var n := |list| - 1;
            && list == list[..n] + [list[n]]
            && (Names(list, id) <==> Names(list[..n], id) || list[n].id == id)
  {
    var n := |list| - 1;
    if Names(list[..n], id) {
      var i :| 0 <= i < n && list[..n][i].id == id;
      assert list[i].id == id;
    }
    if i :| 0 <= i < |list| && list[i].id == id {
      assert i < n ==> list[..n][i].id == id;
    }
  }

  lemma {:induction false} LeastNames(list: seq<Neighbour>, id: Id)
    ensures LeastTo(list, id).Some? <==> Names(list, id)
    ensures forall i :: 0 <= i < |list| && list[i].id == id ==> LeastTo(list, id).Some? && LeastTo(list, id).value <= list[i].distance
    ensures LeastTo(list, id).Some? ==> Neighbour(id, LeastTo(list, id).value) in list
  {
    if list != [] {
      var n := |list| - 1;
      LeastNames(list[..n], id);
      NamesLast(list, id);
      assert list[n].id == id ==> list[n] == Neighbour(id, list[n].distance);
      forall i | 0 <= i < |list| && list[i].id == id ensures LeastTo(list, id).Some? && LeastTo(list, id).value <= list[i].distance {
        assert i < n ==> list[..n][i] == list[i];
      }
    }
  }

  // ── The description in terms of the lists ──────────────────────────────────

  /** Among the first k entries of a record's list is this one. */
  ghost predicate Reports(lists: Lists, k: nat, from: Id, to: Id, d: real) {
    from in lists && exists j :: 0 <= j < k && j < |lists[from]| && lists[from][j] == Neighbour(to, d)
  }

  /** One of the two records reports the other at that distance. */
  ghost predicate Found(input: Input, s: Id, t: Id, d: real) {
    Reports(input.setToTarget, input.k, s, t, d) || Reports(input.targetToSet, input.k, t, s, d)
  }

  /** Each of the two records reports the other. */
  ghost predicate BothReport(input: Input, s: Id, t: Id) {
    (exists d :: Reports(input.setToTarget, input.k, s, t, d)) && exists d :: Reports(input.targetToSet, input.k, t, s, d)
  }

  lemma ReportMeans(lists: Lists, k: nat, from: Id, to: Id)
    ensures Names(Listed(lists, k, from), to) <==> exists d :: Reports(lists, k, from, to, d)
    ensures var least := LeastTo(Listed(lists, k, from), to);
            && (least.Some? <==> exists d :: Reports(lists, k, from, to, d))
            && (least.Some? ==> Reports(lists, k, from, to, least.value))
            && forall d :: Reports(lists, k, from, to, d) ==> least.Some? && least.value <= d
  {
    var list := Listed(lists, k, from);
    LeastNames(list, to);
    if i :| 0 <= i < |list| && list[i].id == to {
      assert lists[from][i] == Neighbour(to, list[i].distance);
      assert Reports(lists, k, from, to, list[i].distance);
    }
    forall d | Reports(lists, k, from, to, d) ensures Names(list, to) && LeastTo(list, to).value <= d {
      var j :| 0 <= j < k && j < |lists[from]| && lists[from][j] == Neighbour(to, d);
      assert list[j] == Neighbour(to, d);
    }
    if LeastTo(list, to).Some? {
      var j :| 0 <= j < |list| && list[j] == Neighbour(to, LeastTo(list, to).value);
      assert lists[from][j] == list[j];
    }
  }

  lemma NearMeans(input: Input, s: Id, t: Id)
    ensures input.Near((s, t)).Some? <==> exists d :: Found(input, s, t, d)
    ensures input.Near((s, t)).Some? ==> Found(input, s, t, input.Near((s, t)).value)
    ensures forall d :: Found(input, s, t, d) ==> input.Near((s, t)).Some? && input.Near((s, t)).value <= d
    ensures input.SetLists((s, t)) <==> exists d :: Reports(input.setToTarget, input.k, s, t, d)
    ensures input.TargetLists((s, t)) <==> exists d :: Reports(input.targetToSet, input.k, t, s, d)
  {
    ReportMeans(input.setToTarget, input.k, s, t);
    ReportMeans(input.targetToSet, input.k, t, s);
    var near := input.Near((s, t));
    if near.Some? {
      assert Found(input, s, t, near.value);
    }
    forall d | Found(input, s, t, d) ensures near.Some? && near.value <= d {}
  }

  /** What a match says of the lists. */
  lemma MatchMeans(input: Input, o: Options, m: ResolvedMatch)
    requires input.IsMatch(m, o)
    ensures Found(input, m.pair.0, m.pair.1, m.distance)
    ensures forall d :: Found(input, m.pair.0, m.pair.1, d) ==> m.distance <= d
    ensures m.stage.Core? ==> m.distance <= o.tauOneToOne && BothReport(input, m.pair.0, m.pair.1)
    ensures m.stage.SetExtra? ==>
              && o.tauOneToMany.Some? && m.distance <= o.tauOneToMany.value
              && exists d :: Reports(input.setToTarget, input.k, m.pair.0, m.pair.1, d)
    ensures m.stage.TargetExtra? ==>
              && o.tauManyToOne.Some? && m.distance <= o.tauManyToOne.value
              && exists d :: Reports(input.targetToSet, input.k, m.pair.1, m.pair.0, d)
  {
    NearMeans(input, m.pair.0, m.pair.1);
    assert m.pair == (m.pair.0, m.pair.1);
  }

  /** No target that reports back is nearer than a core match's, and one as near does not come before it. */
  lemma CoreIsNearest(input: Input, o: Options, m: ResolvedMatch, t: Id, d: real)
    requires input.IsMatch(m, o) && m.stage.Core?
    requires BothReport(input, m.pair.0, t) && Found(input, m.pair.0, t, d) && d <= o.tauOneToOne
    ensures m.distance <= d && (m.distance == d ==> StrLe(m.pair.1, t))
  {
    NearMeans(input, m.pair.0, t);
    assert input.Mutual((m.pair.0, t), o.tauOneToOne);
    assert input.IsCore(m.pair, o.tauOneToOne);
    StrTotal(t, t);
  }

  /** Every pair that qualifies for a stage is matched at that stage or a better one. */
  lemma QualifiedIsMatched(input: Input, o: Options, s: Id, t: Id, d: real)
    requires Found(input, s, t, d)
    ensures BothReport(input, s, t) && d <= o.tauOneToOne ==>
              exists m: ResolvedMatch :: input.IsMatch(m, o) && m.stage.Core? && m.pair.0 == s
    ensures (exists e :: Reports(input.setToTarget, input.k, s, t, e)) && o.tauOneToMany.Some? && d <= o.tauOneToMany.value ==>
              exists m: ResolvedMatch :: input.IsMatch(m, o) && !m.stage.TargetExtra? && m.pair == (s, t)
    ensures (exists e :: Reports(input.targetToSet, input.k, t, s, e)) && o.tauManyToOne.Some? && d <= o.tauManyToOne.value ==>
              exists m: ResolvedMatch :: input.IsMatch(m, o) && m.pair == (s, t)
  {
    var p := (s, t);
    NearMeans(input, s, t);
    if BothReport(input, s, t) && d <= o.tauOneToOne {
      CoreExists(input, o.tauOneToOne, p);
      var u: Id :| input.IsCore((s, u), o.tauOneToOne);
      assert input.IsMatch(ResolvedMatch((s, u), input.Near((s, u)).value, Core), o);
    }
    if input.StageOf(p, o).Some? {
      assert input.IsMatch(ResolvedMatch(p, input.Near(p).value, input.StageOf(p, o).value), o);
    }
  }

  // ── The candidate graph ────────────────────────────────────────────────────

  type Edges = map<Pair, real>

  /** `edges` holds what `near` gives, cut at tau. */
  ghost predicate GraphOf(edges: Edges, near: Pair -> Option<real>, tau: real) {
    && (forall p :: p in edges <==> near(p).Some? && near(p).value <= tau)
    && (forall p :: p in edges ==> near(p) == Some(edges[p]))
  }

  /** One more report of a pair. */
  function AlsoReported(near: Pair -> Option<real>, p: Pair, d: real): Pair -> Option<real> {
    q => if q == p then Least(near(p), Some(d)) else near(q)
  }

  /** The entry for a pair keeps the least distance; a report beyond tau is dropped. */
  method AddEdge(edges: Edges, p: Pair, d: real, tau: real, ghost near: Pair -> Option<real>) returns (r: Edges)
    requires GraphOf(edges, near, tau)
    ensures GraphOf(r, AlsoReported(near, p, d), tau)
  {
    if d > tau {
      return edges;
    }
    var entry := if p in edges then edges[p] else d;
    if d < entry {
      entry := d;
    }
    r := edges[p := entry];
  }

  function Flip(p: Pair, flipped: bool): Pair {
    if flipped then (p.1, p.0) else p
  }

  /** `near` once a list has been read as well. */
  function AlsoListed(near: Pair -> Option<real>, from: Id, list: seq<Neighbour>, flipped: bool): Pair -> Option<real> {
    p => if Flip(p, flipped).0 == from then Least(near(p), LeastTo(list, Flip(p, flipped).1)) else near(p)
  }

  /** Read one record's top-k list into the graph. */
  method AddList(edges: Edges, from: Id, list: seq<Neighbour>, flipped: bool, tau: real, ghost near: Pair -> Option<real>)
    returns (r: Edges)
    requires GraphOf(edges, near, tau)
    ensures GraphOf(r, AlsoListed(near, from, list, flipped), tau)
  {
    r := edges;
    for i := 0 to |list|
      invariant GraphOf(r, AlsoListed(near, from, list[..i], flipped), tau)
    {
      ghost var so := AlsoListed(near, from, list[..i], flipped);
      var p := Flip((from, list[i].id), flipped);
      r := AddEdge(r, p, list[i].distance, tau, so);
      ListStep(near, from, list, i, flipped);
      SameGraph(r, AlsoReported(so, p, list[i].distance), AlsoListed(near, from, list[..i + 1], flipped), tau);
    }
    assert list[..|list|] == list;
  }

  lemma SameGraph(edges: Edges, f: Pair -> Option<real>, g: Pair -> Option<real>, tau: real)
    requires GraphOf(edges, f, tau) && forall p :: f(p) == g(p)
    ensures GraphOf(edges, g, tau)
  {
  }

  lemma ListStep(near: Pair -> Option<real>, from: Id, list: seq<Neighbour>, i: nat, flipped: bool)
    requires i < |list|
    ensures var so := AlsoListed(near, from, list[..i], flipped);
            var added := AlsoReported(so, Flip((from, list[i].id), flipped), list[i].distance);
            forall p :: added(p) == AlsoListed(near, from, list[..i + 1], flipped)(p)
  {
    var so := AlsoListed(near, from, list[..i], flipped);
    var here := Flip((from, list[i].id), flipped);
    var added := AlsoReported(so, here, list[i].distance);
    assert list[..i + 1][..i] == list[..i];
    forall p ensures added(p) == AlsoListed(near, from, list[..i + 1], flipped)(p) {
      var q := Flip(p, flipped);
      assert p == here <==> q == (from, list[i].id);
      if q.0 == from && q.1 == list[i].id {
        LeastAssociates(near(p), LeastTo(list[..i], q.1), Some(list[i].distance));
      }
    }
  }

  lemma LeastAssociates(a: Option<real>, b: Option<real>, c: Option<real>)
    ensures Least(Least(a, b), c) == Least(a, Least(b, c))
  {
  }

  /** `near` once the lists of some records have been read as well. */
  function AlsoRead(near: Pair -> Option<real>, lists: Lists, k: nat, read: set<Id>, flipped: bool): Pair -> Option<real> {
    p => var q := Flip(p, flipped);
         if q.0 in read then Least(near(p), LeastTo(Listed(lists, k, q.0), q.1)) else near(p)
  }

  /** Read all lists of one direction, in any order. */
  method AddLists(edges: Edges, lists: Lists, k: nat, flipped: bool, tau: real, ghost near: Pair -> Option<real>) returns (r: Edges)
    requires GraphOf(edges, near, tau)
    ensures GraphOf(r, AlsoRead(near, lists, k, lists.Keys, flipped), tau)
  {
    r := edges;
    var rest := lists.Keys;
    SameGraph(r, near, AlsoRead(near, lists, k, {}, flipped), tau);
    while rest != {}
      invariant rest <= lists.Keys
      invariant GraphOf(r, AlsoRead(near, lists, k, lists.Keys - rest, flipped), tau)
      decreases |rest|
    {
      var from :| from in rest;
      ghost var read := lists.Keys - rest;
      rest := rest - {from};
      r := AddList(r, from, Take(lists[from], k), flipped, tau, AlsoRead(near, lists, k, read, flipped));
      assert lists.Keys - rest == read + {from};
      SameGraph(r, AlsoListed(AlsoRead(near, lists, k, read, flipped), from, Take(lists[from], k), flipped),
                AlsoRead(near, lists, k, read + {from}, flipped), tau);
    }
    assert lists.Keys - {} == lists.Keys;
  }

  /** The graph has every pair within tau, at its least reported distance. */
  method BuildCandidateGraph(input: Input, tau: real) returns (edges: Edges)
    ensures GraphOf(edges, input.Near, tau)
  {
    ghost var none := (p: Pair) => None;
    edges := AddLists(map[], input.setToTarget, input.k, false, tau, none);
    ghost var sets := AlsoRead(none, input.setToTarget, input.k, input.setToTarget.Keys, false);
    edges := AddLists(edges, input.targetToSet, input.k, true, tau, sets);
    ghost var both := AlsoRead(sets, input.targetToSet, input.k, input.targetToSet.Keys, true);
    forall p: Pair ensures both(p) == input.Near(p) {}
    SameGraph(edges, both, input.Near, tau);
  }

  // ── The core ───────────────────────────────────────────────────────────────

  /** The best target of every set record that has a mutual edge among those seen. */
  ghost predicate BestOf(best: map<Id, Id>, input: Input, tau: real, seen: set<Pair>) {
    && (forall s :: s in best ==> (s, best[s]) in seen && input.Mutual((s, best[s]), tau))
    && (forall p: Pair :: p in seen && input.Mutual(p, tau) ==>
          p.0 in best && (p.1 == best[p.0] || input.Before((p.0, best[p.0]), p)))
  }

  method BestTargets(edges: Edges, input: Input, tau: real) returns (best: map<Id, Id>)
    requires forall p :: p in edges ==> input.Near(p) == Some(edges[p])
    ensures BestOf(best, input, tau, edges.Keys)
    ensures forall s :: s in best ==> (s, best[s]) in edges && edges[(s, best[s])] <= tau
    ensures forall p :: p in edges && edges[p] <= tau && input.SetLists(p) && input.TargetLists(p) ==>
              && p.0 in best && edges[(p.0, best[p.0])] <= edges[p]
              && (edges[(p.0, best[p.0])] == edges[p] ==> StrLe(best[p.0], p.1))
  {
    best := map[];
    var rest := edges.Keys;
    ghost var seen: set<Pair> := {};
    while rest != {}
      invariant rest <= edges.Keys && seen == edges.Keys - rest
      invariant BestOf(best, input, tau, seen)
      decreases |rest|
    {
      var p :| p in rest;
      best := Consider(best, edges, input, tau, p, seen);
      rest, seen := rest - {p}, seen + {p};
    }
    assert seen == edges.Keys;
    BestMeans(best, edges, input, tau);
  }

  /** The best targets in terms of the edges. */
  lemma BestMeans(best: map<Id, Id>, edges: Edges, input: Input, tau: real)
    requires forall p :: p in edges ==> input.Near(p) == Some(edges[p])
    requires BestOf(best, input, tau, edges.Keys)
    ensures forall s :: s in best ==> (s, best[s]) in edges && edges[(s, best[s])] <= tau
    ensures forall p :: p in edges && edges[p] <= tau && input.SetLists(p) && input.TargetLists(p) ==>
              && p.0 in best && edges[(p.0, best[p.0])] <= edges[p]
              && (edges[(p.0, best[p.0])] == edges[p] ==> StrLe(best[p.0], p.1))
  {
    forall p | p in edges && edges[p] <= tau && input.SetLists(p) && input.TargetLists(p)
      ensures p.0 in best && edges[(p.0, best[p.0])] <= edges[p]
      ensures edges[(p.0, best[p.0])] == edges[p] ==> StrLe(best[p.0], p.1)
    {
      assert input.Mutual(p, tau);
      StrTotal(p.1, p.1);
      assert p == (p.0, p.1);
    }
  }

  /** One edge: if mutual and close enough, it replaces a worse one of its set record. */
  method Consider(best: map<Id, Id>, edges: Edges, input: Input, tau: real, p: Pair, ghost seen: set<Pair>)
    returns (better: map<Id, Id>)
    requires forall q :: q in edges ==> input.Near(q) == Some(edges[q])
    requires p in edges && seen <= edges.Keys && BestOf(best, input, tau, seen)
    ensures BestOf(better, input, tau, seen + {p})
  {
    better := best;
    if edges[p] <= tau && input.SetLists(p) && input.TargetLists(p) {
      BestStep(best, input, tau, seen, p);
      if p.0 !in best {
        better := best[p.0 := p.1];
      } else {
        var current := (p.0, best[p.0]);
        if edges[p] < edges[current] || (edges[p] == edges[current] && StrLt(p.1, best[p.0])) {
          better := best[p.0 := p.1];
        }
      }
    }
  }

  lemma BestStep(best: map<Id, Id>, input: Input, tau: real, seen: set<Pair>, p: Pair)
    requires BestOf(best, input, tau, seen) && input.Mutual(p, tau)
    ensures p.0 !in best || input.Before(p, (p.0, best[p.0])) ==> BestOf(best[p.0 := p.1], input, tau, seen + {p})
    ensures p.0 in best && !input.Before(p, (p.0, best[p.0])) ==> BestOf(best, input, tau, seen + {p})
  {
    if p.0 in best {
      var current := (p.0, best[p.0]);
      BeforeIsOrder(input, p, current, p);
      forall q: Pair | q in seen && input.Mutual(q, tau) && q.0 == p.0 && input.Before(p, current)
        ensures input.Before(p, q)
      {
        BeforeIsOrder(input, p, current, q);
      }
    }
  }

  /** One match for every one of these edges, at this stage. */
  ghost predicate ListsPairs(matches: seq<ResolvedMatch>, edges: Edges, stage: Stage, pairs: set<Pair>) {
    && (forall i, j :: 0 <= i < j < |matches| ==> matches[i].pair != matches[j].pair)
    && (forall i :: 0 <= i < |matches| ==> matches[i].pair in pairs)
    && (forall i :: 0 <= i < |matches| ==> matches[i].pair in edges && matches[i] == ResolvedMatch(matches[i].pair, edges[matches[i].pair], stage))
    && (forall p :: p in pairs ==> p in edges && ResolvedMatch(p, edges[p], stage) in matches)
  }

  lemma ListsOneMore(matches: seq<ResolvedMatch>, edges: Edges, stage: Stage, pairs: set<Pair>, p: Pair)
    requires ListsPairs(matches, edges, stage, pairs) && p in edges && p !in pairs
    ensures ListsPairs(matches + [ResolvedMatch(p, edges[p], stage)], edges, stage, pairs + {p})
  {
  }

  /** Walk the edges in any order and keep some of them. */
  method SelectEdges(edges: Edges, keep: Pair -> bool, stage: Stage) returns (matches: seq<ResolvedMatch>)
    ensures ListsPairs(matches, edges, stage, set p | p in edges && keep(p))
  {
    matches := [];
    var rest := edges.Keys;
    ghost var wanted := set p | p in edges && keep(p);
    while rest != {}
      invariant rest <= edges.Keys
      invariant ListsPairs(matches, edges, stage, wanted - rest)
      decreases |rest|
    {
      var p :| p in rest;
      ghost var listed := wanted - rest;
      rest := rest - {p};
      if keep(p) {
        ListsOneMore(matches, edges, stage, listed, p);
        matches := matches + [ResolvedMatch(p, edges[p], stage)];
        assert wanted - rest == listed + {p};
      } else {
        assert wanted - rest == listed;
      }
    }
    assert wanted - {} == wanted;
  }

  lemma BestIsCore(best: map<Id, Id>, edges: Edges, input: Input, tau: real, graphTau: real)
    requires BestOf(best, input, tau, edges.Keys)
    requires GraphOf(edges, input.Near, graphTau) && tau <= graphTau
    ensures forall p: Pair :: input.IsCore(p, tau) <==> p.0 in best && best[p.0] == p.1
  {
    assert forall p :: input.Mutual(p, tau) ==> p in edges;
    forall s | s in best ensures input.IsCore((s, best[s]), tau) {
      forall t: Id | input.Mutual((s, t), tau) && t != best[s] ensures input.Before((s, best[s]), (s, t)) {
        assert (s, t) in edges;
      }
    }
    forall p: Pair | input.IsCore(p, tau) ensures p.0 in best && best[p.0] == p.1 {
      assert p in edges;
      OneCorePerSet(input, tau, p, (p.0, best[p.0]));
    }
  }

  method GroundCore(edges: Edges, input: Input, tau: real, graphTau: real) returns (core: seq<ResolvedMatch>)
    requires GraphOf(edges, input.Near, graphTau) && tau <= graphTau
    ensures ListsPairs(core, edges, Core, set p | p in edges && input.IsCore(p, tau))
    ensures forall i, t :: 0 <= i < |core| && (core[i].pair.0, t) in edges && edges[(core[i].pair.0, t)] <= tau
                           && input.SetLists((core[i].pair.0, t)) && input.TargetLists((core[i].pair.0, t)) ==>
              && core[i].distance <= edges[(core[i].pair.0, t)]
              && (core[i].distance == edges[(core[i].pair.0, t)] ==> StrLe(core[i].pair.1, t))
  {
    var best := BestTargets(edges, input, tau);
    BestIsCore(best, edges, input, tau, graphTau);
    core := SelectEdges(edges, (p: Pair) => p.0 in best && best[p.0] == p.1, Core);
    assert (set p | p in edges && p.0 in best && best[p.0] == p.1) == set p | p in edges && input.IsCore(p, tau);
    CoreMeans(best, edges, input, tau, core);
  }

  lemma CoreMeans(best: map<Id, Id>, edges: Edges, input: Input, tau: real, core: seq<ResolvedMatch>)
    requires forall p :: p in edges && edges[p] <= tau && input.SetLists(p) && input.TargetLists(p) ==>
               && p.0 in best && (p.0, best[p.0]) in edges && edges[(p.0, best[p.0])] <= edges[p]
               && (edges[(p.0, best[p.0])] == edges[p] ==> StrLe(best[p.0], p.1))
    requires ListsPairs(core, edges, Core, set p | p in edges && p.0 in best && best[p.0] == p.1)
    ensures forall i, t :: 0 <= i < |core| && (core[i].pair.0, t) in edges && edges[(core[i].pair.0, t)] <= tau
                           && input.SetLists((core[i].pair.0, t)) && input.TargetLists((core[i].pair.0, t)) ==>
              && core[i].distance <= edges[(core[i].pair.0, t)]
              && (core[i].distance == edges[(core[i].pair.0, t)] ==> StrLe(core[i].pair.1, t))
  {
    var listed := set p | p in edges && p.0 in best && best[p.0] == p.1;
    forall i, t | 0 <= i < |core| && (core[i].pair.0, t) in edges && edges[(core[i].pair.0, t)] <= tau
                  && input.SetLists((core[i].pair.0, t)) && input.TargetLists((core[i].pair.0, t))
      ensures core[i].distance <= edges[(core[i].pair.0, t)]
      ensures core[i].distance == edges[(core[i].pair.0, t)] ==> StrLe(core[i].pair.1, t)
    {
      assert core[i].pair in listed && core[i].pair == (core[i].pair.0, best[core[i].pair.0]);
    }
  }

  // ── The extras ─────────────────────────────────────────────────────────────

  predicate ListedBy(input: Input, stage: Stage, p: Pair) {
    if stage == SetExtra then input.SetLists(p) else input.TargetLists(p)
  }

  /** Edges within tau, outside the core, that this direction's record lists. */
  ghost function ExtraPairs(edges: Edges, input: Input, tau: Option<real>, core: set<Pair>, stage: Stage): set<Pair> {
    set p | p in edges && tau.Some? && edges[p] <= tau.value && p !in core && ListedBy(input, stage, p)
  }

  /** set_extras and target_extras: the same walk, for one direction or the other. */
  method Extras(edges: Edges, input: Input, core: seq<ResolvedMatch>, tau: Option<real>, stage: Stage, ghost corePairs: set<Pair>)
    returns (extras: seq<ResolvedMatch>)
    requires ListsPairs(core, edges, Core, corePairs)
    ensures ListsPairs(extras, edges, stage, ExtraPairs(edges, input, tau, corePairs, stage))
  {
    if tau.None? {
      return [];
    }
    var coreKeys := set i | 0 <= i < |core| :: core[i].pair;
    assert forall p :: p in corePairs ==> ResolvedMatch(p, edges[p], Core) in core;
    assert coreKeys == corePairs;
    var keep := (p: Pair) => p in edges && edges[p] <= tau.value && p !in coreKeys && ListedBy(input, stage, p);
    extras := SelectEdges(edges, keep, stage);
    assert (set p | p in edges && keep(p)) == ExtraPairs(edges, input, tau, corePairs, stage);
  }

  // ── One match per pair ─────────────────────────────────────────────────────

  function Rank(s: Stage): nat {
    match s
    case Core => 0
    case SetExtra => 1
    case TargetExtra => 2
  }

  /** A later stage, or the same at a greater distance. */
  predicate Worse(a: ResolvedMatch, b: ResolvedMatch) {
    Rank(a.stage) > Rank(b.stage) || (a.stage == b.stage && a.distance > b.distance)
  }

  /** Every pair seen is there once, at its best stage among those seen and the least distance of that stage. */
  ghost predicate BestStages(m: map<Pair, ResolvedMatch>, seen: seq<ResolvedMatch>) {
    && (forall p :: p in m ==> m[p].pair == p && m[p] in seen)
    && (forall i :: 0 <= i < |seen| ==> seen[i].pair in m && !Worse(m[seen[i].pair], seen[i]))
  }

  method DedupMatches(core: seq<ResolvedMatch>, setExtra: seq<ResolvedMatch>, targetExtra: seq<ResolvedMatch>)
    returns (m: map<Pair, ResolvedMatch>)
    ensures BestStages(m, core + setExtra + targetExtra)
  {
    var all := core + setExtra + targetExtra;
    m := map[];
    for i := 0 to |all|
      invariant BestStages(m, all[..i])
    {
      assert all[..i + 1] == all[..i] + [all[i]];
      m := AddMatch(m, all[i], all[..i]);
    }
    assert all[..|all|] == all;
  }

  /** A better stage wins; within a stage, the lesser distance. */
  method AddMatch(m: map<Pair, ResolvedMatch>, pair: ResolvedMatch, ghost seen: seq<ResolvedMatch>)
    returns (r: map<Pair, ResolvedMatch>)
    requires BestStages(m, seen)
    ensures BestStages(r, seen + [pair])
  {
    r := m;
    if pair.pair !in m {
      r := m[pair.pair := pair];
    } else {
      var existing := m[pair.pair];
      if Rank(pair.stage) < Rank(existing.stage)
         || (Rank(pair.stage) == Rank(existing.stage) && pair.distance < existing.distance) {
        r := m[pair.pair := pair];
      }
    }
  }

  // ── The whole resolution ───────────────────────────────────────────────────

  predicate CoversTaus(o: Options, tau: real) {
    && o.tauOneToOne <= tau
    && (o.tauOneToMany.Some? ==> o.tauOneToMany.value <= tau)
    && (o.tauManyToOne.Some? ==> o.tauManyToOne.value <= tau)
  }

  function ActiveTaus(o: Options): set<real> {
    {o.tauOneToOne} + (if o.tauOneToMany.Some? then {o.tauOneToMany.value} else {})
    + (if o.tauManyToOne.Some? then {o.tauManyToOne.value} else {})
  }

  method MaxActiveTau(o: Options) returns (max: real)
    ensures CoversTaus(o, max) && max in ActiveTaus(o)
  {
    max := o.tauOneToOne;
    if o.tauOneToMany.Some? && o.tauOneToMany.value > max {
      max := o.tauOneToMany.value;
    }
    if o.tauManyToOne.Some? && o.tauManyToOne.value > max {
      max := o.tauManyToOne.value;
    }
  }

  /** The three walks over one graph. */
  ghost predicate StagesOver(edges: Edges, input: Input, o: Options,
                             core: seq<ResolvedMatch>, setExtra: seq<ResolvedMatch>, targetExtra: seq<ResolvedMatch>)
  {
    var corePairs := set p | p in edges && input.IsCore(p, o.tauOneToOne);
    && ListsPairs(core, edges, Core, corePairs)
    && ListsPairs(setExtra, edges, SetExtra, ExtraPairs(edges, input, o.tauOneToMany, corePairs, SetExtra))
    && ListsPairs(targetExtra, edges, TargetExtra, ExtraPairs(edges, input, o.tauManyToOne, corePairs, TargetExtra))
  }

  lemma StageInMap(m: map<Pair, ResolvedMatch>, edges: Edges, input: Input, o: Options, graphTau: real,
                   core: seq<ResolvedMatch>, setExtra: seq<ResolvedMatch>, targetExtra: seq<ResolvedMatch>, p: Pair)
    requires GraphOf(edges, input.Near, graphTau) && CoversTaus(o, graphTau)
    requires StagesOver(edges, input, o, core, setExtra, targetExtra) && BestStages(m, core + setExtra + targetExtra)
    ensures p in m <==> input.StageOf(p, o).Some?
    ensures p in m ==> m[p] == ResolvedMatch(p, edges[p], input.StageOf(p, o).value) && p in edges
  {
    if input.StageOf(p, o).Some? {
      StageFound(edges, input, o, graphTau, core, setExtra, targetExtra, p);
      var all, found := core + setExtra + targetExtra, ResolvedMatch(p, edges[p], input.StageOf(p, o).value);
      var i :| 0 <= i < |all| && all[i] == found;
      assert Rank(m[p].stage) <= Rank(found.stage);
    }
    if p in m {
      assert m[p] in core || m[p] in setExtra || m[p] in targetExtra;
    }
  }

  lemma StageFound(edges: Edges, input: Input, o: Options, graphTau: real,
                   core: seq<ResolvedMatch>, setExtra: seq<ResolvedMatch>, targetExtra: seq<ResolvedMatch>, p: Pair)
    requires GraphOf(edges, input.Near, graphTau) && CoversTaus(o, graphTau) && input.StageOf(p, o).Some?
    requires StagesOver(edges, input, o, core, setExtra, targetExtra)
    ensures p in edges && ResolvedMatch(p, edges[p], input.StageOf(p, o).value) in core + setExtra + targetExtra
  {
    var found := ResolvedMatch(p, edges[p], input.StageOf(p, o).value);
    assert found in core || found in setExtra || found in targetExtra;
  }

  /**
     The matches are exactly those of the description, each pair once,
     whatever order the maps are walked in and however far beyond the three
     thresholds the graph is cut.
     */
  method MatchPairs(input: Input, o: Options, graphTau: real) returns (matched: seq<ResolvedMatch>, edgeCount: nat, ghost near: set<Pair>)
    requires CoversTaus(o, graphTau)
    ensures edgeCount == |near| && forall p :: p in near <==> input.Within(p, graphTau)
    ensures forall m: ResolvedMatch :: m in matched <==> input.IsMatch(m, o)
    ensures forall i, j :: 0 <= i < j < |matched| ==> matched[i].pair != matched[j].pair
    ensures forall m, t, d ::
              m in matched && m.stage.Core? && Found(input, m.pair.0, t, d) && BothReport(input, m.pair.0, t) && d <= o.tauOneToOne ==>
                m.distance <= d && (m.distance == d ==> StrLe(m.pair.1, t))
  {
    var edges := BuildCandidateGraph(input, graphTau);
    var core := GroundCore(edges, input, o.tauOneToOne, graphTau);
    ghost var corePairs := set p | p in edges && input.IsCore(p, o.tauOneToOne);
    var setExtra := Extras(edges, input, core, o.tauOneToMany, SetExtra, corePairs);
    var targetExtra := Extras(edges, input, core, o.tauManyToOne, TargetExtra, corePairs);
    var m := DedupMatches(core, setExtra, targetExtra);
    forall p ensures (p in m <==> input.StageOf(p, o).Some?) && (p in m ==> m[p] == ResolvedMatch(p, edges[p], input.StageOf(p, o).value) && p in edges) {
      StageInMap(m, edges, input, o, graphTau, core, setExtra, targetExtra, p);
    }
    edgeCount, near := |edges|, edges.Keys;
    matched := Values(m);
    MatchesAre(m, edges, input, o, graphTau);
    MatchesMean(input, o, matched);
  }

  lemma MatchesAre(m: map<Pair, ResolvedMatch>, edges: Edges, input: Input, o: Options, graphTau: real)
    requires GraphOf(edges, input.Near, graphTau)
    requires forall p :: p in m <==> input.StageOf(p, o).Some?
    requires forall p :: p in m ==> p in edges && m[p] == ResolvedMatch(p, edges[p], input.StageOf(p, o).value)
    ensures forall v: ResolvedMatch :: (v.pair in m && m[v.pair] == v) <==> input.IsMatch(v, o)
  {
  }

  /** `into_values`, in any order. */
  method Values(m: map<Pair, ResolvedMatch>) returns (values: seq<ResolvedMatch>)
    requires forall p :: p in m ==> m[p].pair == p
    ensures forall v: ResolvedMatch :: v in values <==> v.pair in m && m[v.pair] == v
    ensures forall i, j :: 0 <= i < j < |values| ==> values[i].pair != values[j].pair
  {
    var keys := Drain(m.Keys);
    values := seq(|keys|, i requires 0 <= i < |keys| && keys[i] in m => m[keys[i]]);
    forall v: ResolvedMatch | v.pair in m && m[v.pair] == v ensures v in values {
      var i :| 0 <= i < |keys| && keys[i] == v.pair;
      assert values[i] == v;
    }
  }

  datatype ResolveResult = ResolveResult(
    matched: seq<ResolvedMatch>, setOnly: seq<Id>, targetOnly: seq<Id>,
    coreCount: nat, setExtraCount: nat, targetExtraCount: nat, edgeCount: nat)

  function CountStage(matched: seq<ResolvedMatch>, stage: Stage): nat {
    if matched == [] then 0
    else CountStage(matched[..|matched| - 1], stage) + (if matched[|matched| - 1].stage == stage then 1 else 0)
  }

  function AtStage(matched: seq<ResolvedMatch>, stage: Stage): set<int> {
    set i | 0 <= i < |matched| && matched[i].stage == stage
  }

  lemma {:induction false} CountsStage(matched: seq<ResolvedMatch>, stage: Stage)
    ensures CountStage(matched, stage) == |AtStage(matched, stage)|
  {
    if matched != [] {
      var n := |matched| - 1;
      CountsStage(matched[..n], stage);
      assert AtStage(matched, stage) == AtStage(matched[..n], stage) + (if matched[n].stage == stage then {n} else {});
    }
  }

  method Unmatched(keys: set<Id>, matchedIds: set<Id>) returns (only: seq<Id>)
    ensures Enumerates(only, keys - matchedIds)
  {
    only := Drain(keys - matchedIds);
  }

  /**
     The whole resolution. A match has the least distance either record reports
     of the other. A core match is its set record's nearest among the targets
     that report back within the threshold, and there is one if there is such a
     target; the extras are all other pairs that the one record reports within
     its threshold.
     */
  method Resolve(input: Input, o: Options) returns (r: ResolveResult, ghost graphTau: real, ghost near: set<Pair>)
    ensures forall m: ResolvedMatch :: m in r.matched <==> input.IsMatch(m, o)
    ensures forall m :: m in r.matched ==>
              Found(input, m.pair.0, m.pair.1, m.distance) && forall d :: Found(input, m.pair.0, m.pair.1, d) ==> m.distance <= d
    ensures forall m :: m in r.matched && m.stage.Core? ==> m.distance <= o.tauOneToOne && BothReport(input, m.pair.0, m.pair.1)
    ensures forall m, t, d ::
              m in r.matched && m.stage.Core? && Found(input, m.pair.0, t, d) && BothReport(input, m.pair.0, t) && d <= o.tauOneToOne ==>
                m.distance <= d && (m.distance == d ==> StrLe(m.pair.1, t))
    ensures forall s, t, d :: Found(input, s, t, d) && BothReport(input, s, t) && d <= o.tauOneToOne ==>
              exists m :: m in r.matched && m.stage.Core? && m.pair.0 == s
    ensures forall m :: m in r.matched && m.stage.SetExtra? ==>
              && o.tauOneToMany.Some? && m.distance <= o.tauOneToMany.value
              && exists d :: Reports(input.setToTarget, input.k, m.pair.0, m.pair.1, d)
    ensures forall m :: m in r.matched && m.stage.TargetExtra? ==>
              && o.tauManyToOne.Some? && m.distance <= o.tauManyToOne.value
              && exists d :: Reports(input.targetToSet, input.k, m.pair.1, m.pair.0, d)
    ensures forall s, t, d, e ::
              Found(input, s, t, d) && Reports(input.setToTarget, input.k, s, t, e)
              && o.tauOneToMany.Some? && d <= o.tauOneToMany.value ==>
                exists m :: m in r.matched && !m.stage.TargetExtra? && m.pair == (s, t)
    ensures forall s, t, d, e ::
              Found(input, s, t, d) && Reports(input.targetToSet, input.k, t, s, e)
              && o.tauManyToOne.Some? && d <= o.tauManyToOne.value ==>
                exists m :: m in r.matched && m.pair == (s, t)
    ensures forall i, j :: 0 <= i < j < |r.matched| ==> r.matched[i].pair != r.matched[j].pair
    ensures Distinct(r.setOnly) && Distinct(r.targetOnly)
    ensures forall s :: s in r.setOnly <==> s in input.setToTarget && forall t, d, g :: ResolvedMatch((s, t), d, g) !in r.matched
    ensures forall t :: t in r.targetOnly <==> t in input.targetToSet && forall s, d, g :: ResolvedMatch((s, t), d, g) !in r.matched
    ensures r.coreCount == |AtStage(r.matched, Core)|
    ensures r.setExtraCount == |AtStage(r.matched, SetExtra)| && r.targetExtraCount == |AtStage(r.matched, TargetExtra)|
    ensures CoversTaus(o, graphTau) && graphTau in ActiveTaus(o)
    ensures r.edgeCount == |near| && forall p :: p in near <==> input.Within(p, graphTau)
  {
    r, graphTau, near := ResolveMatches(input, o);
    MatchesMean(input, o, r.matched);
    AllQualifiedMatched(input, o, r.matched);
  }

  method ResolveMatches(input: Input, o: Options) returns (r: ResolveResult, ghost graphTau: real, ghost near: set<Pair>)
    ensures forall m: ResolvedMatch :: m in r.matched <==> input.IsMatch(m, o)
    ensures forall i, j :: 0 <= i < j < |r.matched| ==> r.matched[i].pair != r.matched[j].pair
    ensures Distinct(r.setOnly) && Distinct(r.targetOnly)
    ensures forall s :: s in r.setOnly <==> s in input.setToTarget && forall t, d, g :: ResolvedMatch((s, t), d, g) !in r.matched
    ensures forall t :: t in r.targetOnly <==> t in input.targetToSet && forall s, d, g :: ResolvedMatch((s, t), d, g) !in r.matched
    ensures r.coreCount == |AtStage(r.matched, Core)|
    ensures r.setExtraCount == |AtStage(r.matched, SetExtra)| && r.targetExtraCount == |AtStage(r.matched, TargetExtra)|
    ensures CoversTaus(o, graphTau) && graphTau in ActiveTaus(o)
    ensures r.edgeCount == |near| && forall p :: p in near <==> input.Within(p, graphTau)
  {
    var tau := MaxActiveTau(o);
    graphTau := tau;
    var matched, edgeCount;
    matched, edgeCount, near := MatchPairs(input, o, tau);
    var setIds := set i | 0 <= i < |matched| :: matched[i].pair.0;
    var targetIds := set i | 0 <= i < |matched| :: matched[i].pair.1;
    var setOnly := Unmatched(input.setToTarget.Keys, setIds);
    var targetOnly := Unmatched(input.targetToSet.Keys, targetIds);
    CountsStage(matched, Core);
    CountsStage(matched, SetExtra);
    CountsStage(matched, TargetExtra);
    forall s ensures s in setIds <==> exists t, d, g :: ResolvedMatch((s, t), d, g) in matched {
      SetIdMatched(matched, s);
    }
    forall t ensures t in targetIds <==> exists s, d, g :: ResolvedMatch((s, t), d, g) in matched {
      TargetIdMatched(matched, t);
    }
    r := ResolveResult(matched, setOnly, targetOnly, CountStage(matched, Core), CountStage(matched, SetExtra),
                       CountStage(matched, TargetExtra), edgeCount);
  }

  lemma MatchesMean(input: Input, o: Options, matched: seq<ResolvedMatch>)
    requires forall m: ResolvedMatch :: m in matched <==> input.IsMatch(m, o)
    ensures forall m :: m in matched ==>
              Found(input, m.pair.0, m.pair.1, m.distance) && forall d :: Found(input, m.pair.0, m.pair.1, d) ==> m.distance <= d
    ensures forall m :: m in matched && m.stage.Core? ==> m.distance <= o.tauOneToOne && BothReport(input, m.pair.0, m.pair.1)
    ensures forall m, t, d ::
              m in matched && m.stage.Core? && Found(input, m.pair.0, t, d) && BothReport(input, m.pair.0, t) && d <= o.tauOneToOne ==>
                m.distance <= d && (m.distance == d ==> StrLe(m.pair.1, t))
    ensures forall m :: m in matched && m.stage.SetExtra? ==>
              && o.tauOneToMany.Some? && m.distance <= o.tauOneToMany.value
              && exists d :: Reports(input.setToTarget, input.k, m.pair.0, m.pair.1, d)
    ensures forall m :: m in matched && m.stage.TargetExtra? ==>
              && o.tauManyToOne.Some? && m.distance <= o.tauManyToOne.value
              && exists d :: Reports(input.targetToSet, input.k, m.pair.1, m.pair.0, d)
  {
    forall m | m in matched
      ensures Found(input, m.pair.0, m.pair.1, m.distance)
      ensures forall d :: Found(input, m.pair.0, m.pair.1, d) ==> m.distance <= d
      ensures m.stage.Core? ==> m.distance <= o.tauOneToOne && BothReport(input, m.pair.0, m.pair.1)
      ensures m.stage.SetExtra? ==>
                && o.tauOneToMany.Some? && m.distance <= o.tauOneToMany.value
                && exists d :: Reports(input.setToTarget, input.k, m.pair.0, m.pair.1, d)
      ensures m.stage.TargetExtra? ==>
                && o.tauManyToOne.Some? && m.distance <= o.tauManyToOne.value
                && exists d :: Reports(input.targetToSet, input.k, m.pair.1, m.pair.0, d)
    {
      MatchMeans(input, o, m);
    }
    forall m, t, d |
      m in matched && m.stage.Core? && Found(input, m.pair.0, t, d) && BothReport(input, m.pair.0, t) && d <= o.tauOneToOne
      ensures m.distance <= d && (m.distance == d ==> StrLe(m.pair.1, t))
    {
      CoreIsNearest(input, o, m, t, d);
    }
  }

  lemma AllQualifiedMatched(input: Input, o: Options, matched: seq<ResolvedMatch>)
    requires forall m: ResolvedMatch :: m in matched <==> input.IsMatch(m, o)
    ensures forall s, t, d :: Found(input, s, t, d) && BothReport(input, s, t) && d <= o.tauOneToOne ==>
              exists m :: m in matched && m.stage.Core? && m.pair.0 == s
    ensures forall s, t, d, e ::
              Found(input, s, t, d) && Reports(input.setToTarget, input.k, s, t, e)
              && o.tauOneToMany.Some? && d <= o.tauOneToMany.value ==>
                exists m :: m in matched && !m.stage.TargetExtra? && m.pair == (s, t)
    ensures forall s, t, d, e ::
              Found(input, s, t, d) && Reports(input.targetToSet, input.k, t, s, e)
              && o.tauManyToOne.Some? && d <= o.tauManyToOne.value ==>
                exists m :: m in matched && m.pair == (s, t)
  {
    forall s, t, d | Found(input, s, t, d)
      ensures BothReport(input, s, t) && d <= o.tauOneToOne ==> exists m :: m in matched && m.stage.Core? && m.pair.0 == s
      ensures (exists e :: Reports(input.setToTarget, input.k, s, t, e)) && o.tauOneToMany.Some? && d <= o.tauOneToMany.value ==>
                exists m :: m in matched && !m.stage.TargetExtra? && m.pair == (s, t)
      ensures (exists e :: Reports(input.targetToSet, input.k, t, s, e)) && o.tauManyToOne.Some? && d <= o.tauManyToOne.value ==>
                exists m :: m in matched && m.pair == (s, t)
    {
      QualifiedIsMatched(input, o, s, t, d);
    }
  }

  lemma SetIdMatched(matched: seq<ResolvedMatch>, s: Id)
    ensures (exists i :: 0 <= i < |matched| && matched[i].pair.0 == s) <==> exists t, d, g :: ResolvedMatch((s, t), d, g) in matched
  {
    if i :| 0 <= i < |matched| && matched[i].pair.0 == s {
      assert ResolvedMatch((s, matched[i].pair.1), matched[i].distance, matched[i].stage) in matched;
    }
  }

  lemma TargetIdMatched(matched: seq<ResolvedMatch>, t: Id)
    ensures (exists i :: 0 <= i < |matched| && matched[i].pair.1 == t) <==> exists s, d, g :: ResolvedMatch((s, t), d, g) in matched
  {
    if i :| 0 <= i < |matched| && matched[i].pair.1 == t {
      assert ResolvedMatch((matched[i].pair.0, t), matched[i].distance, matched[i].stage) in matched;
    }
  }
}
