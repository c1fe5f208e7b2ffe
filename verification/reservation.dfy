/**
 The commit reservation protocol (src/store/lance/commit.rs,
 io_try_reserve_commit and io_release_commit_reservation; src/service/mod.rs,
 push and push_stream).

 Any number of pushes run interleaved. Reserving is check in-flight set, look
 up the tag, insert, all under one lock; releasing takes no lock. A push may
 fail or panic at any point after it was accepted; either way exactly one
 release follows.
 */
module Reservation {
  import opened Outcomes

  datatype Key = Key(domain: string, branch: string, commit: string)

  /** Tags are per dataset, not per branch. */
  datatype TagKey = TagKey(domain: string, commit: string)

  function TagOf(k: Key): TagKey {
    TagKey(k.domain, k.commit)
  }

  /** Where a push stands; Locked to Absent hold the reservation lock, Accepted runs the pipeline. */
  datatype Phase = Arrived | Locked | NotInFlight | Absent | Accepted | Rejected | Failed | Released

  datatype Push = Push(key: Key, phase: Phase, tagged: bool)

  datatype State = State(pushes: seq<Push>, inFlight: set<Key>, tags: set<TagKey>, lock: Option<nat>)

  datatype Event =
    | Arrive(key: Key)
    | AcquireLock(p: nat)
    | CheckInFlight(p: nat)
    | ResolveTag(p: nat, ioError: bool)
    | Insert(p: nat)
    | WriteTag(p: nat)
    | Release(p: nat)

  function Start(tags: set<TagKey>): State {
    State([], {}, tags, None)
  }

  function At(s: State, p: nat, phase: Phase): State
    requires p < |s.pushes|
  {
    s.(pushes := s.pushes[p := s.pushes[p].(phase := phase)])
  }

  predicate Is(s: State, p: nat, phase: Phase) {
    p < |s.pushes| && s.pushes[p].phase == phase
  }

  /** One atomic step; an event that is not enabled does nothing. */
  function Step(s: State, e: Event): State {
    match e
    case Arrive(key) =>
      s.(pushes := s.pushes + [Push(key, Arrived, false)])
    case AcquireLock(p) =>
      if Is(s, p, Arrived) && s.lock.None? then At(s, p, Locked).(lock := Some(p)) else s
    case CheckInFlight(p) =>
      if !Is(s, p, Locked) then s
      else if s.pushes[p].key in s.inFlight then At(s, p, Rejected).(lock := None)
      else At(s, p, NotInFlight)
    case ResolveTag(p, ioError) =>
      if !Is(s, p, NotInFlight) then s
      else if ioError then At(s, p, Failed).(lock := None)
      else if TagOf(s.pushes[p].key) in s.tags then At(s, p, Rejected).(lock := None)
      else At(s, p, Absent)
    case Insert(p) =>
      if !Is(s, p, Absent) then s
      else At(s, p, Accepted).(inFlight := s.inFlight + {s.pushes[p].key}, lock := None)
    case WriteTag(p) =>
      // Creating a tag that exists is an error; the pipeline then fails untagged.
      if !Is(s, p, Accepted) || TagOf(s.pushes[p].key) in s.tags then s
      else s.(pushes := s.pushes[p := s.pushes[p].(tagged := true)], tags := s.tags + {TagOf(s.pushes[p].key)})
    case Release(p) =>
      if !Is(s, p, Accepted) then s
      else At(s, p, Released).(inFlight := s.inFlight - {s.pushes[p].key})
  }

  function Run(s: State, events: seq<Event>): State {
    if events == [] then s else Step(Run(s, events[..|events| - 1]), events[|events| - 1])
  }

  // ── The invariant ──────────────────────────────────────────────────────────

  predicate HoldsLock(s: State, p: nat) {
    Is(s, p, Locked) || Is(s, p, NotInFlight) || Is(s, p, Absent)
  }

  /** Push p is between accept and release of key k. */
  predicate Owns(s: State, p: nat, k: Key) {
    Is(s, p, Accepted) && s.pushes[p].key == k
  }

  /** Push p of key k wrote the commit's tag. */
  predicate Tagged(s: State, p: nat, k: Key) {
    p < |s.pushes| && s.pushes[p].tagged && s.pushes[p].key == k
  }

  predicate PastTagCheck(s: State, p: nat, k: Key) {
    Is(s, p, Absent) && s.pushes[p].key == k
  }

  ghost predicate LockOk(s: State) {
    forall p: nat :: HoldsLock(s, p) <==> s.lock == Some(p)
  }

  /** The in-flight set is exactly the keys of the pushes between accept and release, one push per key. */
  ghost predicate InFlightOk(s: State) {
    && (forall k :: k in s.inFlight <==> exists p: nat :: Owns(s, p, k))
    && (forall p: nat, q: nat, k :: Owns(s, p, k) && Owns(s, q, k) ==> p == q)
  }

  /** Past the in-flight check nobody else has the key. */
  ghost predicate CheckedOk(s: State) {
    forall p: nat :: Is(s, p, NotInFlight) || Is(s, p, Absent) ==> s.pushes[p].key !in s.inFlight
  }

  /** What a push tagged stays tagged, and no commit is tagged twice. */
  ghost predicate TagsOk(s: State) {
    && (forall p: nat, k :: Tagged(s, p, k) ==> TagOf(k) in s.tags && (Is(s, p, Accepted) || Is(s, p, Released)))
    && (forall p: nat, q: nat, k, l :: Tagged(s, p, k) && Tagged(s, q, l) && TagOf(k) == TagOf(l) ==> p == q)
  }

  /** Past the tag check, only a push of the same commit on another branch can have tagged it meanwhile. */
  ghost predicate AbsentOk(s: State) {
    && (forall p: nat, q: nat, k :: PastTagCheck(s, p, k) ==> !Tagged(s, q, k))
    && (forall p: nat, k :: PastTagCheck(s, p, k) && TagOf(k) in s.tags ==>
          exists q: nat, l :: Tagged(s, q, l) && TagOf(l) == TagOf(k) && l.branch != k.branch)
  }

  ghost predicate Inv(s: State) {
    LockOk(s) && InFlightOk(s) && CheckedOk(s) && TagsOk(s) && AbsentOk(s)
  }

  /** Changing one push leaves what is known of the others. */
  lemma Frame(s: State, t: State, p: nat)
    requires p < |s.pushes| == |t.pushes| && t.pushes == s.pushes[p := t.pushes[p]]
    ensures forall q: nat :: q != p ==> (HoldsLock(t, q) <==> HoldsLock(s, q))
    ensures forall q: nat, k :: q != p ==> (Owns(t, q, k) <==> Owns(s, q, k))
    ensures forall q: nat, k :: q != p ==> (Tagged(t, q, k) <==> Tagged(s, q, k))
    ensures forall q: nat, k :: q != p ==> (PastTagCheck(t, q, k) <==> PastTagCheck(s, q, k))
  {
  }

  lemma ArriveKeepsInv(s: State, key: Key)
    requires Inv(s)
    ensures Inv(Step(s, Arrive(key)))
  {
    var t := Step(s, Arrive(key));
    forall q: nat, k ensures (Owns(t, q, k) <==> Owns(s, q, k)) && (Tagged(t, q, k) <==> Tagged(s, q, k)) {}
    forall q: nat, k ensures PastTagCheck(t, q, k) <==> PastTagCheck(s, q, k) {}
    forall q: nat ensures HoldsLock(t, q) <==> HoldsLock(s, q) {}
  }

  lemma UntaggedBefore(s: State, p: nat)
    requires Inv(s) && p < |s.pushes|
    ensures s.pushes[p].tagged ==> Is(s, p, Accepted) || Is(s, p, Released)
  {
    if s.pushes[p].tagged {
      assert Tagged(s, p, s.pushes[p].key);
    }
  }

  /** Steps before acceptance that neither accept nor pass the tag check. */
  lemma EarlyKeepsInv(s: State, t: State, p: nat)
    requires Inv(s) && p < |s.pushes| && t.tags == s.tags && t.inFlight == s.inFlight
    requires Is(s, p, Arrived) || Is(s, p, Locked) || Is(s, p, NotInFlight)
    requires exists phase :: t.pushes == s.pushes[p := s.pushes[p].(phase := phase)]
    requires !Is(t, p, Accepted) && !Is(t, p, Released) && !Is(t, p, Absent)
    requires Is(t, p, NotInFlight) ==> s.pushes[p].key !in s.inFlight
    requires HoldsLock(t, p) <==> t.lock == Some(p)
    requires t.lock == s.lock || (s.lock == Some(p) && t.lock == None) || (s.lock == None && t.lock == Some(p))
    ensures Inv(t)
  {
    Frame(s, t, p);
    UntaggedBefore(s, p);
    forall k ensures k in t.inFlight <==> exists q: nat :: Owns(t, q, k) {
      if k in s.inFlight { var q: nat :| Owns(s, q, k); assert Owns(t, q, k); }
    }
    forall q: nat, k | PastTagCheck(t, q, k) && TagOf(k) in t.tags
      ensures exists r: nat, l :: Tagged(t, r, l) && TagOf(l) == TagOf(k) && l.branch != k.branch
    {
      assert PastTagCheck(s, q, k);
      var r: nat, l :| Tagged(s, r, l) && TagOf(l) == TagOf(k) && l.branch != k.branch;
      assert Tagged(t, r, l);
    }
  }

  lemma ResolveKeepsInv(s: State, p: nat)
    requires Inv(s) && Is(s, p, NotInFlight) && TagOf(s.pushes[p].key) !in s.tags
    ensures Inv(At(s, p, Absent))
  {
    var t := At(s, p, Absent);
    Frame(s, t, p);
    UntaggedBefore(s, p);
    forall k ensures k in t.inFlight <==> exists q: nat :: Owns(t, q, k) {
      if k in s.inFlight { var q: nat :| Owns(s, q, k); assert Owns(t, q, k); }
    }
    assert HoldsLock(s, p) && HoldsLock(t, p);
    forall q: nat, k | PastTagCheck(t, q, k) ensures q == p {
      if q != p { assert HoldsLock(s, q); }
    }
    forall q: nat, k | Tagged(t, q, k) ensures Tagged(s, q, k) {}
  }

  lemma InsertKeepsInv(s: State, p: nat)
    requires Inv(s) && Is(s, p, Absent)
    ensures Inv(Step(s, Insert(p)))
  {
    var t, key := Step(s, Insert(p)), s.pushes[p].key;
    Frame(s, t, p);
    UntaggedBefore(s, p);
    assert HoldsLock(s, p);
    assert Owns(t, p, key);
    forall k ensures k in t.inFlight <==> exists q: nat :: Owns(t, q, k) {
      if k in s.inFlight { var q: nat :| Owns(s, q, k); assert Owns(t, q, k); }
    }
    forall q: nat, k | Owns(t, q, k) && k == key ensures q == p {
      assert q != p ==> Owns(s, q, k);
    }
    forall q: nat ensures !HoldsLock(t, q) {
      assert HoldsLock(t, q) && q != p ==> HoldsLock(s, q);
    }
    forall q: nat ensures !Is(t, q, NotInFlight) && !Is(t, q, Absent) { assert !HoldsLock(t, q); }
  }

  lemma WriteTagKeepsInv(s: State, p: nat)
    requires Inv(s) && Is(s, p, Accepted) && TagOf(s.pushes[p].key) !in s.tags
    ensures Inv(Step(s, WriteTag(p)))
  {
    var t, key := Step(s, WriteTag(p)), s.pushes[p].key;
    Frame(s, t, p);
    assert Owns(s, p, key) && Owns(t, p, key);
    forall k ensures k in t.inFlight <==> exists q: nat :: Owns(t, q, k) {
      if k in s.inFlight { var q: nat :| Owns(s, q, k); assert Owns(t, q, k); }
      if exists q: nat :: Owns(t, q, k) { var q: nat :| Owns(t, q, k); assert Owns(s, q, k); }
    }
    forall q: nat, k | PastTagCheck(t, q, k)
      ensures !Tagged(t, p, k)
    {
      assert PastTagCheck(s, q, k) && k !in s.inFlight;
    }
    forall q: nat, k | PastTagCheck(t, q, k) && TagOf(k) in t.tags
      ensures exists r: nat, l :: Tagged(t, r, l) && TagOf(l) == TagOf(k) && l.branch != k.branch
    {
      assert PastTagCheck(s, q, k);
      if TagOf(k) in s.tags {
        var r: nat, l :| Tagged(s, r, l) && TagOf(l) == TagOf(k) && l.branch != k.branch;
        assert Tagged(t, r, l);
      } else {
        assert Tagged(t, p, key) && key != k;
      }
    }
  }

  lemma ReleaseKeepsInv(s: State, p: nat)
    requires Inv(s) && Is(s, p, Accepted)
    ensures Inv(Step(s, Release(p)))
  {
    var t, key := Step(s, Release(p)), s.pushes[p].key;
    Frame(s, t, p);
    assert Owns(s, p, key);
    forall k ensures k in t.inFlight <==> exists q: nat :: Owns(t, q, k) {
      if k in t.inFlight { var q: nat :| Owns(s, q, k); assert Owns(t, q, k); }
      if exists q: nat :: Owns(t, q, k) { var q: nat :| Owns(t, q, k); assert Owns(s, q, k); }
    }
    forall q: nat, k | PastTagCheck(t, q, k) && TagOf(k) in t.tags
      ensures exists r: nat, l :: Tagged(t, r, l) && TagOf(l) == TagOf(k) && l.branch != k.branch
    {
      assert PastTagCheck(s, q, k);
      var r: nat, l :| Tagged(s, r, l) && TagOf(l) == TagOf(k) && l.branch != k.branch;
      assert Tagged(t, r, l);
    }
  }

  lemma StepKeepsInv(s: State, e: Event)
    requires Inv(s)
    ensures Inv(Step(s, e))
  {
    var t := Step(s, e);
    if t != s {
      match e
      case Arrive(key) => ArriveKeepsInv(s, key);
      case AcquireLock(p) => EarlyKeepsInv(s, t, p);
      case CheckInFlight(p) => EarlyKeepsInv(s, t, p);
      case ResolveTag(p, ioError) => if Is(t, p, Absent) { ResolveKeepsInv(s, p); } else { EarlyKeepsInv(s, t, p); }
      case Insert(p) => InsertKeepsInv(s, p);
      case WriteTag(p) => WriteTagKeepsInv(s, p);
      case Release(p) => ReleaseKeepsInv(s, p);
    }
  }

  // ── Every interleaving ─────────────────────────────────────────────────────

  lemma {:induction false} RunKeepsInv(tags: set<TagKey>, events: seq<Event>)
    ensures Inv(Run(Start(tags), events))
  {
    if events != [] {
      RunKeepsInv(tags, events[..|events| - 1]);
      StepKeepsInv(Run(Start(tags), events[..|events| - 1]), events[|events| - 1]);
    }
  }

  /** At most one push per (domain, branch, commit) is between accept and release, and the in-flight set is exactly their keys. */
  lemma OnePushPerKey(tags: set<TagKey>, events: seq<Event>)
    ensures var s := Run(Start(tags), events);
            && (forall p: nat, q: nat, k :: Owns(s, p, k) && Owns(s, q, k) ==> p == q)
            && (forall k :: k in s.inFlight <==> exists p: nat :: Owns(s, p, k))
  {
    RunKeepsInv(tags, events);
  }

  /**
     When a push is accepted, no push of its key has tagged the commit; if the
     commit is tagged all the same, a push of another branch tagged it, since
     the lookup ran under the lock but tagging does not take it.
     */
  lemma AcceptedOnlyUntagged(tags: set<TagKey>, events: seq<Event>, p: nat)
    requires Is(Run(Start(tags), events), p, Absent)
    ensures var s := Run(Start(tags), events);
            var k := s.pushes[p].key;
            && Is(Step(s, Insert(p)), p, Accepted)
            && (forall q: nat :: !Tagged(s, q, k))
            && (TagOf(k) in s.tags <==> exists q: nat, l :: Tagged(s, q, l) && TagOf(l) == TagOf(k) && l.branch != k.branch)
  {
    RunKeepsInv(tags, events);
    var s := Run(Start(tags), events);
    assert PastTagCheck(s, p, s.pushes[p].key);
  }

  /** No two pushes of the run are for one commit of a domain on different branches. */
  ghost predicate OneBranchPerCommit(events: seq<Event>) {
    forall i, j :: 0 <= i < j < |events| && events[i].Arrive? && events[j].Arrive? ==> !Rivals(events[i].key, events[j].key)
  }

  /** One commit of a domain, on two branches. */
  predicate Rivals(a: Key, b: Key) {
    TagOf(a) == TagOf(b) && a.branch != b.branch
  }

  lemma {:induction false} PushesArrived(s: State, events: seq<Event>, p: nat) returns (i: nat)
    requires p < |Run(s, events).pushes| && |s.pushes| <= p
    ensures i < |events| && events[i] == Arrive(Run(s, events).pushes[p].key)
  {
    var n := |events| - 1;
    if p < |Run(s, events[..n]).pushes| {
      i := PushesArrived(s, events[..n], p);
    } else {
      i := n;
    }
  }

  /** In such a run an accepted push's commit is untagged, whatever the interleaving. */
  lemma AcceptedIsUntagged(tags: set<TagKey>, events: seq<Event>, p: nat)
    requires OneBranchPerCommit(events) && Is(Run(Start(tags), events), p, Absent)
    ensures var s := Run(Start(tags), events);
            Is(Step(s, Insert(p)), p, Accepted) && TagOf(s.pushes[p].key) !in Step(s, Insert(p)).tags
  {
    AcceptedOnlyUntagged(tags, events, p);
    var s := Run(Start(tags), events);
    var k := s.pushes[p].key;
    var i := PushesArrived(Start(tags), events, p);
    forall q: nat, l | Tagged(s, q, l) ensures !Rivals(l, k) {
      var j := PushesArrived(Start(tags), events, q);
      assert i < j ==> !Rivals(events[i].key, events[j].key);
      assert j < i ==> !Rivals(events[j].key, events[i].key);
    }
  }

  /** Tags never disappear, and past the tag check no push is for a commit that was tagged from the start. */
  ghost predicate StartTagsRefused(s: State, tags: set<TagKey>) {
    && tags <= s.tags
    && forall p: nat :: Is(s, p, Absent) || Is(s, p, Accepted) || Is(s, p, Released) ==> TagOf(s.pushes[p].key) !in tags
  }

  /** A commit tagged before the run is never accepted, whatever happens. */
  lemma {:induction false} TaggedNeverAccepted(tags: set<TagKey>, events: seq<Event>)
    ensures StartTagsRefused(Run(Start(tags), events), tags)
  {
    if events != [] {
      TaggedNeverAccepted(tags, events[..|events| - 1]);
      var s, e := Run(Start(tags), events[..|events| - 1]), events[|events| - 1];
      var t := Step(s, e);
      forall p: nat | Is(t, p, Absent) || Is(t, p, Accepted) || Is(t, p, Released)
        ensures TagOf(t.pushes[p].key) !in tags
      {
        if Is(s, p, Absent) || Is(s, p, Accepted) || Is(s, p, Released) {
        } else {
          assert e == ResolveTag(p, false);
        }
      }
    }
  }

  // ── A single reservation, and retries ──────────────────────────────────────

  datatype Outcome = Reserved | Conflict | IoError

  /** What one uninterrupted call decides. */
  function Reserve(inFlight: set<Key>, tags: set<TagKey>, key: Key, ioError: bool): Outcome {
    if key in inFlight then Conflict
    else if ioError then IoError
    else if TagOf(key) in tags then Conflict
    else Reserved
  }

  /** The events of one push reserving without interruption. */
  function Reserving(n: nat, key: Key, ioError: bool): seq<Event> {
    [Arrive(key), AcquireLock(n), CheckInFlight(n), ResolveTag(n, ioError), Insert(n)]
  }

  lemma RunOn(s: State, events: seq<Event>, e: Event)
    ensures Run(s, events + [e]) == Step(Run(s, events), e)
  {
    assert (events + [e])[..|events|] == events;
  }

  lemma RunFive(s: State, a: Event, b: Event, c: Event, d: Event, e: Event)
    ensures Run(s, [a, b, c, d, e]) == Step(Step(Step(Step(Step(s, a), b), c), d), e)
  {
    RunOn(s, [], a);
    RunOn(s, [a], b);
    RunOn(s, [a, b], c);
    RunOn(s, [a, b, c], d);
    RunOn(s, [a, b, c, d], e);
    assert [] + [a] == [a] && [a] + [b] == [a, b] && [a, b] + [c] == [a, b, c];
    assert [a, b, c] + [d] == [a, b, c, d] && [a, b, c, d] + [e] == [a, b, c, d, e];
  }

  /** The state with one more push that stands at `phase`. */
  function Joined(s: State, key: Key, phase: Phase): State {
    s.(pushes := s.pushes + [Push(key, phase, false)])
  }

  /** The first two of those events: the push holds the lock. */
  lemma LockTaken(s: State, key: Key)
    requires s.lock.None?
    ensures var n := |s.pushes|;
            Step(Step(s, Arrive(key)), AcquireLock(n)) == Joined(s, key, Locked).(lock := Some(n))
  {
    var n := |s.pushes|;
    var arrived := Step(s, Arrive(key));
    assert Is(arrived, n, Arrived);
    assert arrived.pushes[n := Push(key, Locked, false)] == s.pushes + [Push(key, Locked, false)];
  }

  /** Moving the newest push on. */
  lemma Moves(s: State, key: Key, from: Phase, to: Phase)
    ensures var t := Joined(s, key, from);
            At(t, |s.pushes|, to).pushes == s.pushes + [Push(key, to, false)]
  {
  }

  /** A push whose key is in flight is rejected, and the later events do nothing. */
  lemma ReserveInFlight(s: State, key: Key, ioError: bool)
    requires s.lock.None? && key in s.inFlight
    ensures var n := |s.pushes|;
            var t := Step(Joined(s, key, Locked).(lock := Some(n)), CheckInFlight(n));
            Step(Step(t, ResolveTag(n, ioError)), Insert(n)) == t == Joined(s, key, Rejected)
  {
    Moves(s, key, Locked, Rejected);
  }

  /** Past that check, an error or a tag ends the push. */
  lemma ReserveRefused(s: State, key: Key, ioError: bool)
    requires s.lock.None? && key !in s.inFlight && (ioError || TagOf(key) in s.tags)
    ensures var n := |s.pushes|;
            var t := Step(Step(Joined(s, key, Locked).(lock := Some(n)), CheckInFlight(n)), ResolveTag(n, ioError));
            Step(t, Insert(n)) == t == Joined(s, key, if ioError then Failed else Rejected)
  {
    Moves(s, key, Locked, NotInFlight);
    Moves(s, key, NotInFlight, if ioError then Failed else Rejected);
  }

  lemma ReserveAccepted(s: State, key: Key)
    requires s.lock.None? && key !in s.inFlight && TagOf(key) !in s.tags
    ensures var n := |s.pushes|;
            var t := Step(Step(Joined(s, key, Locked).(lock := Some(n)), CheckInFlight(n)), ResolveTag(n, false));
            Step(t, Insert(n)) == Joined(s, key, Accepted).(inFlight := s.inFlight + {key})
  {
    Moves(s, key, Locked, NotInFlight);
    Moves(s, key, NotInFlight, Absent);
    Moves(s, key, Absent, Accepted);
  }

  /** With the lock free, those five events do exactly what one call decides. */
  lemma UninterruptedReserve(s: State, key: Key, ioError: bool)
    requires s.lock.None?
    ensures var t := Run(s, Reserving(|s.pushes|, key, ioError));
            var outcome := Reserve(s.inFlight, s.tags, key, ioError);
            && t.lock.None? && t.tags == s.tags
            && t.inFlight == (if outcome == Reserved then s.inFlight + {key} else s.inFlight)
            && t.pushes == s.pushes + [Push(key, PhaseAfter(outcome), false)]
  {
    var n := |s.pushes|;
    RunFive(s, Arrive(key), AcquireLock(n), CheckInFlight(n), ResolveTag(n, ioError), Insert(n));
    LockTaken(s, key);
    if key in s.inFlight {
      ReserveInFlight(s, key, ioError);
    } else if ioError || TagOf(key) in s.tags {
      ReserveRefused(s, key, ioError);
    } else {
      ReserveAccepted(s, key);
    }
  }

  function PhaseAfter(outcome: Outcome): Phase {
    match outcome
    case Reserved => Accepted
    case Conflict => Rejected
    case IoError => Failed
  }

  lemma {:induction false} RunConcat(s: State, a: seq<Event>, b: seq<Event>)
    ensures Run(s, a + b) == Run(Run(s, a), b)
  {
    if b == [] {
      assert a + b == a;
    } else {
      var n := |b| - 1;
      assert (a + b)[..|a + b| - 1] == a + b[..n];
      RunConcat(s, a, b[..n]);
    }
  }

  /**
     The commits in flight and the tags, as the service keeps them. `history`
     lists the protocol steps taken so far, `machine` the state they lead to.
     */
  class PushService {
    var inFlight: set<Key>
    var tags: set<TagKey>
    ghost var tagsAtStart: set<TagKey>
    ghost var history: seq<Event>

    ghost function Machine(): State
      reads this
    {
      Run(Start(tagsAtStart), history)
    }

    ghost predicate Valid()
      reads this
    {
      Machine().inFlight == inFlight && Machine().tags == tags && Machine().lock.None?
    }

    constructor (tags: set<TagKey>)
      ensures Valid() && inFlight == {} && this.tags == tags && history == []
    {
      inFlight, this.tags, tagsAtStart, history := {}, tags, tags, [];
    }

    /**
     Check and reserve in one go under the lock: the protocol's five steps. A
     reserved key has no other push between accept and release.
     */
    method TryReserve(key: Key, ioError: bool) returns (outcome: Outcome)
      requires Valid()
      modifies this`inFlight, this`history
      ensures Valid() && history == old(history) + Reserving(|old(Machine()).pushes|, key, ioError)
      ensures outcome == Reserved <==> Owns(Machine(), |old(Machine()).pushes|, key)
      ensures !Tagged(Machine(), |old(Machine()).pushes|, key)
      ensures outcome == Reserved ==> forall q: nat :: Owns(Machine(), q, key) ==> q == |old(Machine()).pushes|
      ensures outcome == Conflict <==> Is(Machine(), |old(Machine()).pushes|, Rejected)
      ensures outcome == IoError <==> Is(Machine(), |old(Machine()).pushes|, Failed)
      ensures inFlight == if outcome == Reserved then old(inFlight) + {key} else old(inFlight)
      ensures outcome == Reserve(old(inFlight), tags, key, ioError)
      ensures outcome == Reserved <==> key !in old(inFlight) && !ioError && TagKey(key.domain, key.commit) !in tags
      ensures outcome == IoError <==> key !in old(inFlight) && ioError
    {
      ghost var n, before := |Machine().pushes|, Machine();
      RunConcat(Start(tagsAtStart), history, Reserving(n, key, ioError));
      UninterruptedReserve(before, key, ioError);
      history := history + Reserving(n, key, ioError);
      OnePushPerKey(tagsAtStart, history);
      if key in inFlight {
        return Conflict;
      }
      if ioError {
        return IoError;
      }
      if TagOf(key) in tags {
        return Conflict;
      }
      inFlight := inFlight + {key};
      outcome := Reserved;
    }

    /** The pipeline tags the commit; a tag that exists makes it fail. */
    method TagCommit(key: Key, ghost p: nat) returns (ok: bool)
      requires Valid() && Owns(Machine(), p, key)
      modifies this`tags, this`history
      ensures Valid() && history == old(history) + [WriteTag(p)] && Owns(Machine(), p, key)
      ensures ok == (TagOf(key) !in old(tags)) && tags == old(tags) + {TagKey(key.domain, key.commit)}
      ensures Tagged(Machine(), p, key) <==> ok || old(Tagged(Machine(), p, key))
    {
      RunConcat(Start(tagsAtStart), history, [WriteTag(p)]);
      RunOn(Machine(), [], WriteTag(p));
      assert [] + [WriteTag(p)] == [WriteTag(p)];
      ok := TagOf(key) !in tags;
      tags := tags + {TagOf(key)};
      history := history + [WriteTag(p)];
    }

    /** The owner's release: afterwards no push has the key. */
    method ReleaseReservation(key: Key, ghost p: nat)
      requires Valid() && Owns(Machine(), p, key)
      modifies this`inFlight, this`history
      ensures Valid() && history == old(history) + [Release(p)]
      ensures inFlight == old(inFlight) - {key} && forall q: nat :: !Owns(Machine(), q, key)
      ensures Is(Machine(), p, Released) && (Tagged(Machine(), p, key) <==> old(Tagged(Machine(), p, key)))
    {
      RunConcat(Start(tagsAtStart), history, [Release(p)]);
      RunOn(Machine(), [], Release(p));
      assert [] + [Release(p)] == [Release(p)];
      history := history + [Release(p)];
      inFlight := inFlight - {key};
      OnePushPerKey(tagsAtStart, history);
    }

    /**
     A whole push: reserve, run, release. `finishes` says whether the pipeline
     reaches its tag; failing or panicking, it releases all the same, so the
     in-flight set is as before and a failed commit can be pushed again.
     */
    method Serve(key: Key, ioError: bool, finishes: bool) returns (outcome: Outcome, ghost p: nat)
      requires Valid()
      modifies this
      ensures Valid() && old(history) <= history && tagsAtStart == old(tagsAtStart)
      ensures inFlight == old(inFlight)
      ensures outcome == Reserve(old(inFlight), old(tags), key, ioError)
      ensures tags == if outcome == Reserved && finishes then old(tags) + {TagKey(key.domain, key.commit)} else old(tags)
      ensures outcome == Reserved ==> Is(Machine(), p, Released) && (Tagged(Machine(), p, key) <==> finishes)
    {
      p := |Machine().pushes|;
      outcome := TryReserve(key, ioError);
      if outcome == Reserved {
        if finishes {
          var ok := TagCommit(key, p);
        }
        ReleaseReservation(key, p);
      }
    }
  }

  /** Two pushes of one commit, one after the other: the second is accepted iff the first left no tag. */
  method ServeTwice(service: PushService, key: Key, firstFinishes: bool, finishes: bool) returns (first: Outcome, second: Outcome)
    requires service.Valid() && key !in service.inFlight && TagOf(key) !in service.tags
    modifies service
    ensures service.Valid() && service.inFlight == old(service.inFlight)
    ensures first == Reserved && (second == Reserved <==> !firstFinishes)
    ensures TagOf(key) in service.tags <==> firstFinishes || finishes
  {
    ghost var p;
    first, p := service.Serve(key, false, firstFinishes);
    second, p := service.Serve(key, false, finishes);
  }

  /** A push that failed untagged, once released, does not block a retry of the same commit. */
  lemma FailedCommitCanBeRetried(tags: set<TagKey>, events: seq<Event>, p: nat)
    requires var s := Run(Start(tags), events);
             Is(s, p, Accepted) && TagOf(s.pushes[p].key) !in s.tags && s.lock.None?
    ensures var s := Run(Start(tags), events);
            var released, key := Step(s, Release(p)), s.pushes[p].key;
            Is(Run(released, Reserving(|released.pushes|, key, false)), |released.pushes|, Accepted)
  {
    var s := Run(Start(tags), events);
    UninterruptedReserve(Step(s, Release(p)), s.pushes[p].key, false);
  }

  /** Two branches of a domain pushing one commit: the second is accepted although the commit has just been tagged. */
  lemma CrossBranchRace(tags: set<TagKey>, a: Key, b: Key)
    requires TagOf(a) == TagOf(b) && TagOf(b) !in tags && a.branch != b.branch
    ensures var s := Run(Start(tags), Reserving(0, a, false));
            var r := Step(Step(Step(Step(s, Arrive(b)), AcquireLock(1)), CheckInFlight(1)), ResolveTag(1, false));
            var t := Step(Step(r, WriteTag(0)), Insert(1));
            Is(t, 1, Accepted) && TagOf(b) in t.tags && Tagged(t, 0, a)
  {
    UninterruptedReserve(Start(tags), a, false);
    var s := Run(Start(tags), Reserving(0, a, false));
    assert s.pushes == [Push(a, Accepted, false)];
    LockTaken(s, b);
    Moves(s, b, Locked, NotInFlight);
    Moves(s, b, NotInFlight, Absent);
    RaceLost(s, b);
  }

  /** A tag written between another branch's tag check and its insert does not stop that push. */
  lemma RaceLost(s: State, b: Key)
    requires |s.pushes| == 1 && Is(s, 0, Accepted) && TagOf(s.pushes[0].key) == TagOf(b) && TagOf(b) !in s.tags
    ensures var r := Joined(s, b, Absent).(lock := Some(1));
            var t := Step(Step(r, WriteTag(0)), Insert(1));
            Is(t, 1, Accepted) && TagOf(b) in t.tags && Tagged(t, 0, s.pushes[0].key)
  {
  }
}
