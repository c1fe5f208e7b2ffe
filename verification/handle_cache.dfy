/**
 The bounded cache of dataset handles (src/store/lance/mod.rs): a map with
 access stamps that evicts the smallest stamp while it is over its limit,
 proved to be a least-recently-used list.
 */
module HandleCache {
  import opened Outcomes
  import opened Collections

  type Domain = string

  datatype Entry<H> = Entry(handle: H, lastAccess: nat)

  // ── The reference: a recency list, newest first ────────────────────────────

  function Dropped(l: seq<Domain>, d: Domain): seq<Domain> {
    if l == [] then []
    else if l[0] == d then Dropped(l[1..], d)
    else [l[0]] + Dropped(l[1..], d)
  }

  /** Access d: it goes to the front, and only the first `max` stay. */
  function Touched(l: seq<Domain>, d: Domain, max: nat): seq<Domain> {
    Take([d] + Dropped(l, d), max)
  }

  lemma {:induction false} DroppedFacts(l: seq<Domain>, d: Domain)
    ensures forall x :: x in Dropped(l, d) <==> x in l && x != d
    ensures |Dropped(l, d)| <= |l|
    ensures d !in l ==> Dropped(l, d) == l
  {
    if l != [] {
      DroppedFacts(l[1..], d);
      assert l == [l[0]] + l[1..];
    }
  }

  lemma {:induction false} DroppedUnique(l: seq<Domain>, d: Domain)
    requires Distinct(l)
    ensures Distinct(Dropped(l, d))
    ensures |Dropped(l, d)| == |l| - (if d in l then 1 else 0)
  {
    if l != [] {
      DroppedUnique(l[1..], d);
      DroppedFacts(l[1..], d);
      assert l == [l[0]] + l[1..];
      assert l[0] !in l[1..];
    }
  }

  /** The recency list of a whole history, without a limit. */
  function Recent(history: seq<Domain>): seq<Domain> {
    if history == [] then []
    else
      var last := history[|history| - 1];
      [last] + Dropped(Recent(history[..|history| - 1]), last)
  }

  /** An open, with the handle a fresh open would give, or a replacement after a write. */
  datatype Access<H> = Opened(domain: Domain, handle: H) | Replaced(domain: Domain, handle: H)

  function Domains<H>(history: seq<Access<H>>): (r: seq<Domain>)
    ensures |r| == |history|
  {
    seq(|history|, i requires 0 <= i < |history| => history[i].domain)
  }

  lemma DomainsSplit<H>(history: seq<Access<H>>)
    requires history != []
    ensures var n := |history| - 1;
            Domains(history)[..n] == Domains(history[..n]) && Domains(history)[n] == history[n].domain
  {
  }

  /** The cached handles after a history: an open keeps a cached handle, a replacement does not, and evicted ones are forgotten. */
  function HandlesAfter<H>(history: seq<Access<H>>, max: nat): map<Domain, H> {
    if history == [] then map[]
    else
      var before, last := HandlesAfter(history[..|history| - 1], max), history[|history| - 1];
      var now := if last.Opened? && last.domain in before then before else before[last.domain := last.handle];
      var kept := AfterAccesses(Domains(history), max);
      map d | d in now && d in kept :: now[d]
  }

  /** The bounded list after a history of accesses. */
  function AfterAccesses(history: seq<Domain>, max: nat): seq<Domain> {
    if history == [] then []
    else Touched(AfterAccesses(history[..|history| - 1], max), history[|history| - 1], max)
  }

  lemma TakeTail(l: seq<Domain>, n: nat)
    requires l != []
    ensures Take(l, n + 1) != [] && Take(l, n + 1)[0] == l[0] && Take(l, n + 1)[1..] == Take(l[1..], n)
  {
    if |l| > n + 1 {
      assert l[..n + 1][1..] == l[1..][..n];
    }
  }

  lemma {:induction false} DropTake(l: seq<Domain>, d: Domain, n: nat)
    requires Distinct(l)
    ensures Take(Dropped(Take(l, n + 1), d), n) == Take(Dropped(l, d), n)
  {
    if l != [] {
      DroppedFacts(l[1..], d);
      if l[0] == d {
        assert d !in l[1..];
        DroppedFacts(Take(l, n + 1)[1..], d);
        TakeTail(l, n);
      } else if n > 0 {
        DropTake(l[1..], d, n - 1);
        TakeTail(l, n);
        TakeCons(l[0], Dropped(Take(l[1..], n), d), n);
        TakeCons(l[0], Dropped(l[1..], d), n);
      }
    }
  }

  lemma {:induction false} RecentUnique(history: seq<Domain>)
    ensures Distinct(Recent(history))
    ensures forall d :: d in Recent(history) <==> d in history
  {
    if history != [] {
      var init, last := history[..|history| - 1], history[|history| - 1];
      RecentUnique(init);
      DroppedUnique(Recent(init), last);
      DroppedFacts(Recent(init), last);
      assert history == init + [last];
    }
  }

  /** The bounded list is the first `max` of the unbounded one: the most recently used distinct domains. */
  lemma {:induction false} BoundedIsPrefix(history: seq<Domain>, max: nat)
    requires max >= 1
    ensures AfterAccesses(history, max) == Take(Recent(history), max)
  {
    if history != [] {
      var init, last := history[..|history| - 1], history[|history| - 1];
      BoundedIsPrefix(init, max);
      RecentUnique(init);
      TouchPrefix(Recent(init), last, max);
    }
  }

  /** Accessing a domain in the first of a list gives the first of the list with that domain in front. */
  lemma TouchPrefix(l: seq<Domain>, d: Domain, max: nat)
    requires max >= 1 && Distinct(l)
    ensures Touched(Take(l, max), d, max) == Take([d] + Dropped(l, d), max)
  {
    DropTake(l, d, max - 1);
    SameCut(d, Dropped(Take(l, max), d), Dropped(l, d), max - 1);
  }

  lemma SameCut(d: Domain, a: seq<Domain>, b: seq<Domain>, n: nat)
    requires Take(a, n) == Take(b, n)
    ensures Take([d] + a, n + 1) == Take([d] + b, n + 1)
  {
    TakeCons(d, a, n + 1);
    TakeCons(d, b, n + 1);
  }

  lemma TakeCons(d: Domain, l: seq<Domain>, n: nat)
    requires n >= 1
    ensures Take([d] + l, n) == [d] + Take(l, n - 1)
  {
  }

  function Elements(l: seq<Domain>): set<Domain> {
    set d | d in l
  }

  /** A domain's place in the recency list is the number of distinct domains accessed since its last access. */
  lemma {:induction false} RecencyRank(history: seq<Domain>, i: nat)
    requires i < |history| && history[i] !in history[i + 1..]
    ensures var rank := |Elements(history[i + 1..])|;
            && rank < |Recent(history)| && Recent(history)[rank] == history[i]
            && Elements(Recent(history)[..rank]) == Elements(history[i + 1..])
  {
    var n := |history|;
    var init, last := history[..n - 1], history[n - 1];
    if i == n - 1 {
      assert history[i + 1..] == [] && Recent(history)[..0] == [];
    } else {
      LaterAccesses(history, i);
      RecencyRank(init, i);
      RecentUnique(init);
      RankStep(Recent(init), last, history[i], |Elements(init[i + 1..])|);
    }
  }

  lemma LaterAccesses(history: seq<Domain>, i: nat)
    requires i + 1 < |history|
    ensures var init, last := history[..|history| - 1], history[|history| - 1];
            && history[i + 1..] == init[i + 1..] + [last] && init[i] == history[i]
            && Elements(history[i + 1..]) == Elements(init[i + 1..]) + {last}
            && (history[i] !in history[i + 1..] ==> history[i] !in init[i + 1..] && history[i] != last)
  {
    var init, last := history[..|history| - 1], history[|history| - 1];
    assert history[i + 1..] == init[i + 1..] + [last];
  }

  /** Moving `last` to the front moves d, at position k, behind k distinct domains and `last`. */
  lemma RankStep(l: seq<Domain>, last: Domain, d: Domain, k: nat)
    requires Distinct(l) && k < |l| && l[k] == d && d != last && |Elements(l[..k])| == k
    ensures var r, before := [last] + Dropped(l, last), Elements(l[..k]) + {last};
            && |before| < |r| && r[|before|] == d && Elements(r[..|before|]) == before
  {
    var f, back := Dropped(l[..k], last), Dropped(l[k..], last);
    DropSplit(l, last, k);
    FrontPart(l[..k], last);
    KeepsFirst(l[k..], last);
    Placed([last] + f, back, Elements(l[..k]) + {last});
    InFront(last, f, back);
  }

  lemma InFront(d: Domain, f: seq<Domain>, back: seq<Domain>)
    ensures [d] + (f + back) == [d] + f + back
  {
  }

  lemma KeepsFirst(l: seq<Domain>, last: Domain)
    requires l != [] && l[0] != last
    ensures Dropped(l, last) != [] && Dropped(l, last)[0] == l[0]
  {
  }

  lemma Placed(front: seq<Domain>, back: seq<Domain>, before: set<Domain>)
    requires back != [] && Elements(front) == before && |before| == |front|
    ensures var r := front + back;
            |before| < |r| && r[|before|] == back[0] && Elements(r[..|before|]) == before
  {
    assert (front + back)[..|front|] == front;
  }

  lemma FrontPart(front: seq<Domain>, last: Domain)
    requires Distinct(front)
    ensures Elements([last] + Dropped(front, last)) == Elements(front) + {last}
    ensures |Elements(front) + {last}| == 1 + |Dropped(front, last)|
  {
    FrontElements(front, last);
    DistinctSize([last] + Dropped(front, last));
    assert Elements([last] + Dropped(front, last)) == set x | x in [last] + Dropped(front, last);
  }

  lemma {:induction false} DropSplit(l: seq<Domain>, d: Domain, k: nat)
    requires k <= |l|
    ensures Dropped(l, d) == Dropped(l[..k], d) + Dropped(l[k..], d)
  {
    if k > 0 {
      assert l[1..][..k - 1] == l[..k][1..] && l[1..][k - 1..] == l[k..];
      DropSplit(l[1..], d, k - 1);
    }
  }

  // ── The cache ──────────────────────────────────────────────────────────────

  function StampOf<H>(datasets: map<Domain, Entry<H>>, d: Domain): nat {
    if d in datasets then datasets[d].lastAccess else 0
  }

  ghost predicate Falling<H>(l: seq<Domain>, datasets: map<Domain, Entry<H>>) {
    forall i, j :: 0 <= i < j < |l| ==> StampOf(datasets, l[i]) > StampOf(datasets, l[j])
  }

  /** `recency` lists the cached domains by falling stamp; the counter is ahead of all stamps. */
  ghost predicate StampsFollow<H>(recency: seq<Domain>, datasets: map<Domain, Entry<H>>, accessSeq: nat) {
    && |datasets| == |recency|
    && (forall i :: 0 <= i < |recency| ==> recency[i] in datasets)
    && (forall d :: d in datasets ==> StampOf(datasets, d) < accessSeq)
    && Falling(recency, datasets)
  }

  lemma ListsAll<H>(recency: seq<Domain>, datasets: map<Domain, Entry<H>>, accessSeq: nat)
    requires StampsFollow(recency, datasets, accessSeq)
    ensures Distinct(recency) && Elements(recency) == datasets.Keys
  {
    DistinctSize(recency);
    assert |datasets| == |datasets.Keys|;
    FullSubset(Elements(recency), datasets.Keys);
  }

  lemma {:induction false} DroppedFalls<H>(l: seq<Domain>, datasets: map<Domain, Entry<H>>, d: Domain)
    requires Falling(l, datasets)
    ensures Falling(Dropped(l, d), datasets)
  {
    if l != [] {
      DroppedFalls(l[1..], datasets, d);
      DroppedFacts(l[1..], d);
      var rest := Dropped(l[1..], d);
      forall j | 0 <= j < |rest| ensures StampOf(datasets, l[0]) > StampOf(datasets, rest[j]) {
        assert rest[j] in l[1..];
      }
    }
  }

  lemma StampStep<H>(recency: seq<Domain>, datasets: map<Domain, Entry<H>>, accessSeq: nat, d: Domain, h: H)
    requires StampsFollow(recency, datasets, accessSeq)
    ensures StampsFollow([d] + Dropped(recency, d), datasets[d := Entry(h, accessSeq)], accessSeq + 1)
  {
    var dropped, after := Dropped(recency, d), datasets[d := Entry(h, accessSeq)];
    StampSize(recency, datasets, accessSeq, d, h);
    DroppedFalls(recency, datasets, d);
    DroppedFacts(recency, d);
    forall i | 0 <= i < |dropped|
      ensures StampOf(after, dropped[i]) == StampOf(datasets, dropped[i]) < accessSeq && dropped[i] in after
    {
      assert dropped[i] in recency && dropped[i] != d;
    }
    FallsInFront(dropped, datasets, after, d);
  }

  lemma StampSize<H>(recency: seq<Domain>, datasets: map<Domain, Entry<H>>, accessSeq: nat, d: Domain, h: H)
    requires StampsFollow(recency, datasets, accessSeq)
    ensures |datasets[d := Entry(h, accessSeq)]| == |[d] + Dropped(recency, d)|
  {
    var after := datasets[d := Entry(h, accessSeq)];
    ListsAll(recency, datasets, accessSeq);
    DroppedUnique(recency, d);
    assert d in recency <==> d in Elements(recency);
    assert after.Keys == datasets.Keys + {d};
    assert |after| == |after.Keys|;
  }

  /** A domain already listed moves to the front, and nothing falls off. */
  lemma HitKeepsAll<H>(recency: seq<Domain>, datasets: map<Domain, Entry<H>>, accessSeq: nat, d: Domain, max: nat)
    requires StampsFollow(recency, datasets, accessSeq) && |recency| <= max && d in datasets
    ensures [d] + Dropped(recency, d) == Touched(recency, d, max) && |Touched(recency, d, max)| <= max
  {
    ListsAll(recency, datasets, accessSeq);
    DroppedUnique(recency, d);
    assert d in Elements(recency);
  }

  lemma FrontElements(l: seq<Domain>, d: Domain)
    requires Distinct(l)
    ensures Distinct([d] + Dropped(l, d))
    ensures Elements(Dropped(l, d)) == Elements(l) - {d}
    ensures Elements([d] + Dropped(l, d)) == Elements(l) + {d}
  {
    DroppedFacts(l, d);
    DroppedUnique(l, d);
    var dropped := Dropped(l, d);
    forall x ensures x in [d] + dropped <==> x == d || x in dropped {}
  }

  lemma FallsInFront<H>(l: seq<Domain>, before: map<Domain, Entry<H>>, after: map<Domain, Entry<H>>, d: Domain)
    requires Falling(l, before)
    requires forall i :: 0 <= i < |l| ==> StampOf(after, l[i]) == StampOf(before, l[i]) < StampOf(after, d)
    ensures Falling([d] + l, after)
  {
  }

  /** `kept` is a part of `table`, and every other entry has an older stamp than all of it. */
  ghost predicate NewestOf<H>(kept: map<Domain, Entry<H>>, table: map<Domain, Entry<H>>) {
    && (forall d :: d in kept ==> d in table && kept[d] == table[d])
    && (forall d, e :: d in table && d !in kept && e in kept ==> StampOf(table, d) < StampOf(table, e))
  }

  /** No two entries share a stamp. */
  ghost predicate StampsDiffer<H>(table: map<Domain, Entry<H>>) {
    forall d, e :: d in table && e in table && d != e ==> StampOf(table, d) != StampOf(table, e)
  }

  lemma FollowDiffer<H>(list: seq<Domain>, table: map<Domain, Entry<H>>, accessSeq: nat)
    requires StampsFollow(list, table, accessSeq)
    ensures StampsDiffer(table)
  {
    ListsAll(list, table, accessSeq);
    forall d, e | d in table && e in table && d != e ensures StampOf(table, d) != StampOf(table, e) {
      assert d in Elements(list) && e in Elements(list);
    }
  }

  /** What repeated eviction of the oldest keeps is a prefix of the recency list. */
  lemma {:induction false} EvictionEnds<H>(list: seq<Domain>, table: map<Domain, Entry<H>>, accessSeq: nat,
                                           kept: map<Domain, Entry<H>>)
    requires StampsFollow(list, table, accessSeq) && NewestOf(kept, table)
    ensures |kept| <= |list| && StampsFollow(list[..|kept|], kept, accessSeq)
    decreases |list|
  {
    if kept.Keys == table.Keys {
      assert kept == table;
      assert list[..|list|] == list;
    } else {
      var last := LastIsOldest(list, table, accessSeq, kept);
      PopStep(list, table, accessSeq);
      EvictionEnds(list[..|list| - 1], table - {last}, accessSeq, kept);
      assert list[..|list| - 1][..|kept|] == list[..|kept|];
    }
  }

  /** Once something was evicted, the last domain of the list was. */
  lemma LastIsOldest<H>(list: seq<Domain>, table: map<Domain, Entry<H>>, accessSeq: nat, kept: map<Domain, Entry<H>>)
    returns (last: Domain)
    requires StampsFollow(list, table, accessSeq) && NewestOf(kept, table) && kept.Keys != table.Keys
    ensures |list| > 0 && last == list[|list| - 1] && last in table
    ensures NewestOf(kept, table - {last})
  {
    var d :| d in table && d !in kept;
    ListsAll(list, table, accessSeq);
    assert d in Elements(list);
    last := list[|list| - 1];
    assert StampOf(table, last) <= StampOf(table, d);
    var fewer := table - {last};
    forall e | e in fewer ensures StampOf(fewer, e) == StampOf(table, e) {}
  }

  lemma PopStep<H>(recency: seq<Domain>, datasets: map<Domain, Entry<H>>, accessSeq: nat)
    requires StampsFollow(recency, datasets, accessSeq) && |recency| > 0
    ensures StampsFollow(recency[..|recency| - 1], datasets - {recency[|recency| - 1]}, accessSeq)
  {
    var last := recency[|recency| - 1];
    var shorter, after := recency[..|recency| - 1], datasets - {last};
    forall i | 0 <= i < |shorter| ensures shorter[i] in after && StampOf(after, shorter[i]) == StampOf(datasets, recency[i]) {
      assert StampOf(datasets, recency[i]) > StampOf(datasets, last);
    }
    assert after.Keys == datasets.Keys - {last};
    assert |after| == |after.Keys| && |datasets| == |datasets.Keys|;
    forall i, j | 0 <= i < j < |shorter| ensures StampOf(after, shorter[i]) > StampOf(after, shorter[j]) {
      assert StampOf(datasets, recency[i]) > StampOf(datasets, recency[j]);
    }
  }

  /** The i-th access is the last one to the domain. */
  predicate LastAccess<H>(history: seq<Access<H>>, d: Domain, i: int) {
    0 <= i < |history| && history[i].domain == d && forall j :: i < j < |history| ==> history[j].domain != d
  }

  /** The distinct domains of the later accesses. */
  function AccessedSince<H>(history: seq<Access<H>>, i: int): set<Domain> {
    set j | 0 <= j < |history| && i < j :: history[j].domain
  }

  /** A domain is among the first of the recency list iff fewer domains than that were accessed since its last access. */
  lemma CachedMeans<H>(history: seq<Access<H>>, d: Domain, max: nat)
    ensures d in Take(Recent(Domains(history)), max) <==> exists i :: LastAccess(history, d, i) && |AccessedSince(history, i)| < max
  {
    var domains, recent := Domains(history), Recent(Domains(history));
    RecentUnique(domains);
    if d in domains {
      var i := LastIn(domains, d);
      RecencyRank(domains, i);
      SinceIs(history, i);
      var rank := |Elements(domains[i + 1..])|;
      forall j | i < j < |history| ensures history[j].domain != d { assert domains[j] == history[j].domain; }
      assert LastAccess(history, d, i);
      InTake(recent, rank, max);
      forall j | LastAccess(history, d, j) ensures j == i {}
    } else {
      forall i ensures !LastAccess(history, d, i) {
        assert 0 <= i < |history| ==> history[i].domain == domains[i] && domains[i] in domains;
      }
    }
  }

  lemma InTake(l: seq<Domain>, i: nat, n: nat)
    requires Distinct(l) && i < |l|
    ensures l[i] in Take(l, n) <==> i < n
  {
    if i < n {
      assert Take(l, n)[i] == l[i];
    }
    if l[i] in Take(l, n) {
      var j :| 0 <= j < |Take(l, n)| && Take(l, n)[j] == l[i];
      assert l[j] == l[i];
    }
  }

  lemma {:induction false} LastIn(l: seq<Domain>, d: Domain) returns (i: nat)
    requires d in l
    ensures i < |l| && l[i] == d && d !in l[i + 1..] && forall j :: i < j < |l| ==> l[j] != d
  {
    var n := |l| - 1;
    if l[n] == d {
      i := n;
    } else {
      assert l == l[..n] + [l[n]];
      i := LastIn(l[..n], d);
      assert l[i + 1..] == l[..n][i + 1..] + [l[n]];
    }
  }

  lemma SinceIs<H>(history: seq<Access<H>>, i: nat)
    requires i < |history|
    ensures Elements(Domains(history)[i + 1..]) == AccessedSince(history, i)
  {
    var later := Domains(history)[i + 1..];
    forall d | d in AccessedSince(history, i) ensures d in Elements(later) {
      var j :| 0 <= j < |history| && i < j && history[j].domain == d;
      assert later[j - i - 1] == d;
    }
    forall d | d in Elements(later) ensures d in AccessedSince(history, i) {
      var j :| 0 <= j < |later| && later[j] == d;
      assert history[i + 1 + j].domain == d;
    }
  }

  /** No other domain's handle changed, and none appeared. */
  ghost predicate OthersKept<H>(before: map<Domain, Entry<H>>, after: map<Domain, Entry<H>>, domain: Domain) {
    forall d :: d in after && d != domain ==> d in before && after[d].handle == before[d].handle
  }

  ghost predicate Holds<H>(datasets: map<Domain, Entry<H>>, handles: map<Domain, H>) {
    forall d :: (d in datasets <==> d in handles) && (d in datasets ==> datasets[d].handle == handles[d])
  }

  lemma TouchedFacts(l: seq<Domain>, d: Domain, max: nat)
    requires max >= 1
    ensures d in Touched(l, d, max) && forall x :: x in Touched(l, d, max) ==> x == d || x in l
  {
    DroppedFacts(l, d);
    assert Touched(l, d, max)[0] == d;
  }

  lemma {:induction false} HandlesAreCached<H>(history: seq<Access<H>>, max: nat)
    requires max >= 1
    ensures forall d :: d in HandlesAfter(history, max) <==> d in AfterAccesses(Domains(history), max)
  {
    if history != [] {
      var n := |history| - 1;
      HandlesAreCached(history[..n], max);
      DomainsSplit(history);
      TouchedFacts(AfterAccesses(Domains(history[..n]), max), history[n].domain, max);
    }
  }

  lemma HoldsStep<H>(before: map<Domain, Entry<H>>, after: map<Domain, Entry<H>>, history: seq<Access<H>>, a: Access<H>, max: nat)
    requires max >= 1 && Holds(before, HandlesAfter(history, max)) && OthersKept(before, after, a.domain)
    requires forall d :: d in after <==> d in AfterAccesses(Domains(history + [a]), max)
    requires a.domain in after
    requires after[a.domain].handle == if a.Opened? && a.domain in before then before[a.domain].handle else a.handle
    ensures Holds(after, HandlesAfter(history + [a], max))
  {
    assert (history + [a])[..|history|] == history;
    HandlesAreCached(history + [a], max);
  }

  class Cache<H> {
    var datasets: map<Domain, Entry<H>>
    var accessSeq: nat
    const max: nat
    /** The cached domains, most recently used first. */
    ghost var recency: seq<Domain>

    ghost predicate Stamped()
      reads this
    {
      StampsFollow(recency, datasets, accessSeq)
    }

    ghost predicate Valid()
      reads this
    {
      max >= 1 && Stamped() && |recency| <= max
    }

    /** The configured limit, at least 1. */
    constructor (limit: nat)
      ensures Valid() && recency == [] && max == (if limit >= 1 then limit else 1)
    {
      datasets := map[];
      accessSeq := 0;
      max := if limit >= 1 then limit else 1;
      recency := [];
    }

    /** Give an entry, cached or new, the newest stamp. */
    method Stamp(domain: Domain, handle: H)
      requires Stamped()
      modifies this
      ensures Stamped() && recency == [domain] + Dropped(old(recency), domain)
      ensures datasets == old(datasets)[domain := Entry(handle, old(accessSeq))]
    {
      StampStep(recency, datasets, accessSeq, domain, handle);
      datasets := datasets[domain := Entry(handle, accessSeq)];
      accessSeq := accessSeq + 1;
      recency := [domain] + Dropped(recency, domain);
    }

    /** Evict the smallest stamp while over the limit: the oldest entries go. */
    method EvictLruIfOver()
      requires Stamped() && max >= 1
      modifies this`datasets, this`recency
      ensures Valid() && recency == Take(old(recency), max)
      ensures NewestOf(datasets, old(datasets))
    {
      FollowDiffer(recency, datasets, accessSeq);
      datasets := WithinLimit(datasets);
      EvictionEnds(recency, old(datasets), accessSeq, datasets);
      recency := recency[..|datasets|];
    }

    /** The eviction loop. */
    method WithinLimit(table: map<Domain, Entry<H>>) returns (kept: map<Domain, Entry<H>>)
      requires StampsDiffer(table)
      ensures NewestOf(kept, table)
      ensures |kept| == if |table| <= max then |table| else max
    {
      kept := table;
      while |kept| > max
        invariant NewestOf(kept, table)
        invariant |kept| <= |table| && (|kept| >= max || kept == table)
      {
        var oldest := OldestEntry(kept);
        kept := kept - {oldest};
      }
    }

    /** `min_by_key` over the map in any order; stamps are distinct, so there is one answer. */
    static method OldestEntry(entries: map<Domain, Entry<H>>) returns (oldest: Domain)
      requires |entries.Keys| > 0
      ensures oldest in entries
      ensures forall d :: d in entries ==> StampOf(entries, oldest) <= StampOf(entries, d)
    {
      var rest := entries.Keys;
      oldest :| oldest in rest;
      rest := rest - {oldest};
      while rest != {}
        invariant rest <= entries.Keys && oldest in entries
        invariant forall d :: d in entries && d !in rest ==> StampOf(entries, oldest) <= StampOf(entries, d)
        decreases |rest|
      {
        var d :| d in rest;
        rest := rest - {d};
        if entries[d].lastAccess < entries[oldest].lastAccess {
          oldest := d;
        }
      }
    }

    /** A cache hit bumps the stamp; a miss changes nothing. */
    method Lookup(domain: Domain) returns (hit: Option<H>)
      requires Valid()
      modifies this
      ensures Valid()
      ensures domain in old(datasets) ==> hit == Some(old(datasets)[domain].handle) && recency == Touched(old(recency), domain, max)
      ensures hit.Some? ==> domain in datasets && datasets[domain].handle == hit.value
      ensures OthersKept(old(datasets), datasets, domain)
      ensures domain !in old(datasets) ==> hit == None && recency == old(recency) && datasets == old(datasets)
    {
      if domain in datasets {
        hit := Some(datasets[domain].handle);
        HitKeepsAll(recency, datasets, accessSeq, domain, max);
        Stamp(domain, datasets[domain].handle);
      } else {
        hit := None;
      }
    }

    /** Insert a freshly opened handle, or use the one a concurrent opener put there. */
    method InsertCached(domain: Domain, handle: H) returns (cached: H)
      requires Valid()
      modifies this
      ensures Valid()
      ensures recency == Touched(old(recency), domain, max)
      ensures domain in datasets && datasets[domain].handle == cached
      ensures cached == if domain in old(datasets) then old(datasets)[domain].handle else handle
      ensures OthersKept(old(datasets), datasets, domain)
    {
      if domain in datasets {
        HitKeepsAll(recency, datasets, accessSeq, domain, max);
        cached := datasets[domain].handle;
        Stamp(domain, cached);
      } else {
        cached := handle;
        Stamp(domain, handle);
        EvictLruIfOver();
        assert recency[0] == domain;
      }
    }

    /** After a write the handle is replaced whether or not one was cached. */
    method ReplaceCached(domain: Domain, handle: H)
      requires Valid()
      modifies this
      ensures Valid()
      ensures recency == Touched(old(recency), domain, max)
      ensures domain in datasets && datasets[domain].handle == handle
      ensures OthersKept(old(datasets), datasets, domain)
    {
      Stamp(domain, handle);
      EvictLruIfOver();
      assert recency[0] == domain;
    }

    /** Look up, and on a miss open and insert: a cached handle is returned as it is. */
    method Open(domain: Domain, onDisk: H) returns (handle: H)
      requires Valid()
      modifies this
      ensures Valid()
      ensures recency == Touched(old(recency), domain, max) && domain in datasets && datasets[domain].handle == handle
      ensures handle == if domain in old(datasets) then old(datasets)[domain].handle else onDisk
      ensures OthersKept(old(datasets), datasets, domain)
    {
      var hit := Lookup(domain);
      if hit.Some? {
        handle := hit.value;
        assert recency[0] == domain;
      } else {
        handle := InsertCached(domain, onDisk);
      }
    }

    /**
       Any mix of opens and replacements leaves exactly the most recently used
       distinct domains, each with the handle of its last replacement or of the
       open that brought it in, whichever is later.
       */
    method AccessAll(history: seq<Access<H>>)
      requires Valid() && recency == []
      modifies this
      ensures Valid() && recency == Take(Recent(Domains(history)), max)
      ensures forall d :: d in datasets <==> d in Take(Recent(Domains(history)), max)
      ensures forall d :: d in datasets <==> exists i :: LastAccess(history, d, i) && |AccessedSince(history, i)| < max
      ensures Holds(datasets, HandlesAfter(history, max))
    {
      ListsAll(recency, datasets, accessSeq);
      for i := 0 to |history|
        invariant Valid() && recency == AfterAccesses(Domains(history[..i]), max)
        invariant Holds(datasets, HandlesAfter(history[..i], max))
      {
        assert history[..i + 1] == history[..i] + [history[i]];
        AccessOne(history[i], history[..i]);
      }
      assert history[..|history|] == history;
      ListsAll(recency, datasets, accessSeq);
      assert forall d :: d in datasets <==> d in Elements(recency);
      BoundedIsPrefix(Domains(history), max);
      forall d ensures d in datasets <==> exists i :: LastAccess(history, d, i) && |AccessedSince(history, i)| < max {
        CachedMeans(history, d, max);
      }
    }

    method AccessOne(a: Access<H>, ghost history: seq<Access<H>>)
      requires Valid() && recency == AfterAccesses(Domains(history), max)
      requires Holds(datasets, HandlesAfter(history, max))
      modifies this
      ensures Valid() && recency == AfterAccesses(Domains(history + [a]), max)
      ensures Holds(datasets, HandlesAfter(history + [a], max))
    {
      ghost var before := datasets;
      assert (history + [a])[..|history|] == history;
      DomainsSplit(history + [a]);
      match a {
        case Opened(domain, onDisk) => var _ := Open(domain, onDisk);
        case Replaced(domain, handle) => ReplaceCached(domain, handle);
      }
      ListsAll(recency, datasets, accessSeq);
      assert forall d :: d in datasets <==> d in Elements(recency);
      HoldsStep(before, datasets, history, a, max);
    }
  }
}
