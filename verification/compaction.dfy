/**
 Delta-fork retagging and the clean-up behind it (src/store/lance/commit.rs),
 with the integrity check's view of tags and branches
 (src/store/lance/integrity.rs).

 A dataset holds immutable rows per (branch, version), a set of branches beside
 main, and one tag per indexed commit. Compaction replays the whole history on
 a fresh rebuild branch (phase 1, no tag touched), then moves tags onto it
 (phase 2), deletes the older rebuild branches and sweeps up what nothing
 refers to any more.
 */
module Store {
  import opened Outcomes
  import opened Collections
  import opened Snapshots
  import opened Boundaries

  /** A version number is scoped to a branch; no branch means main. */
  datatype Ref = Ref(branch: Option<string>, version: nat)

  type Contents = map<Ref, seq<ChunkRow>>

  datatype State = State(branches: set<string>, tags: map<Commit, Ref>, contents: Contents)

  const COMPACT_REBUILD_PREFIX := ".-compact_rebuild_"

  predicate IsRebuild(branch: string) {
    COMPACT_REBUILD_PREFIX <= branch
  }

  /** Rebuild branches are those whose names start that way. */
  lemma RebuildNames(b: string)
    ensures IsRebuild(b) <==> exists epoch :: b == ".-compact_rebuild_" + epoch
  {
    if IsRebuild(b) {
      assert b == ".-compact_rebuild_" + b[|COMPACT_REBUILD_PREFIX|..];
    }
  }

  predicate OnRebuild(r: Ref) {
    r.branch.Some? && IsRebuild(r.branch.value)
  }

  /** A tag whose branch does not exist. */
  predicate Orphaned(r: Ref, branches: set<string>) {
    r.branch.Some? && r.branch.value !in branches
  }

  /** The commit's tag can be checked out. */
  predicate Resolves(s: State, c: Commit) {
    c in s.tags && !Orphaned(s.tags[c], s.branches) && s.tags[c] in s.contents
  }

  /** What a scan of the commit's snapshot sees. */
  function SnapshotOf(s: State, c: Commit): Docs {
    if c in s.tags && s.tags[c] in s.contents then Scan(s.contents[s.tags[c]]) else map[]
  }

  // ── Clean-up and the integrity check ───────────────────────────────────────

  /** The tags the clean-up keeps. */
  function LiveTags(tags: map<Commit, Ref>, branches: set<string>): map<Commit, Ref> {
    map c | c in tags && !Orphaned(tags[c], branches) :: tags[c]
  }

  ghost predicate Referenced(tags: map<Commit, Ref>, branch: string) {
    exists c :: c in tags && tags[c].branch == Some(branch)
  }

  /** The branches the clean-up keeps: all but the rebuild branches no tag is on. */
  ghost function LiveBranches(branches: set<string>, tags: map<Commit, Ref>): set<string> {
    set b | b in branches && (IsRebuild(b) ==> Referenced(tags, b))
  }

  /** Deleting branches takes their versions along. */
  function WithoutBranches(contents: Contents, gone: set<string>): Contents {
    map r | r in contents && !(r.branch.Some? && r.branch.value in gone) :: contents[r]
  }

  ghost function CleanedUp(s: State): State {
    var tags := LiveTags(s.tags, s.branches);
    var branches := LiveBranches(s.branches, tags);
    State(branches, tags, WithoutBranches(s.contents, s.branches - branches))
  }

  /** Which deletions the storage carries out; a failed one is logged and survived. */
  datatype Deletions = Deletions(tagOk: Commit -> bool, branchOk: string -> bool)

  const ALL_DELETED := Deletions((_: Commit) => true, (_: string) => true)

  function TagsLeft(tags: map<Commit, Ref>, branches: set<string>, d: Deletions): map<Commit, Ref> {
    map c | c in tags && (!Orphaned(tags[c], branches) || !d.tagOk(c)) :: tags[c]
  }

  ghost function BranchesLeft(branches: set<string>, tags: map<Commit, Ref>, d: Deletions): set<string> {
    set b | b in branches && (IsRebuild(b) && d.branchOk(b) ==> Referenced(tags, b))
  }

  /** A clean-up some of whose deletions failed. */
  ghost function PartlyCleanedUp(s: State, d: Deletions): State {
    var tags := TagsLeft(s.tags, s.branches, d);
    var branches := BranchesLeft(s.branches, tags, d);
    State(branches, tags, WithoutBranches(s.contents, s.branches - branches))
  }

  ghost predicate NoneFails(d: Deletions) {
    (forall c :: d.tagOk(c)) && (forall b :: d.branchOk(b))
  }

  lemma NothingFails(s: State, d: Deletions)
    requires NoneFails(d)
    ensures PartlyCleanedUp(s, d) == CleanedUp(s)
  {
    assert TagsLeft(s.tags, s.branches, d) == LiveTags(s.tags, s.branches);
    var tags := LiveTags(s.tags, s.branches);
    assert BranchesLeft(s.branches, tags, d) == LiveBranches(s.branches, tags);
  }

  /** Whatever deletions fail, a later clean-up in which none does reaches the same dataset. */
  lemma LaterCleanUpFinishes(s: State, d: Deletions)
    ensures CleanedUp(PartlyCleanedUp(s, d)) == CleanedUp(s)
  {
    var p := PartlyCleanedUp(s, d);
    forall c | c in p.tags ensures Orphaned(p.tags[c], p.branches) <==> Orphaned(s.tags[c], s.branches) {
      if p.tags[c].branch.Some? && p.tags[c].branch.value in s.branches {
        assert Referenced(p.tags, p.tags[c].branch.value);
      }
    }
    var tags := LiveTags(s.tags, s.branches);
    assert LiveTags(p.tags, p.branches) == tags;
    forall b ensures b in LiveBranches(p.branches, tags) <==> b in LiveBranches(s.branches, tags) {
      if b in s.branches && Referenced(tags, b) {
        var c :| c in tags && tags[c].branch == Some(b);
        assert p.tags[c].branch == Some(b);
      }
    }
    var live := LiveBranches(s.branches, tags);
    assert LiveBranches(p.branches, tags) == live;
    assert (s.branches - p.branches) + (p.branches - live) == s.branches - live;
    assert WithoutBranches(WithoutBranches(s.contents, s.branches - p.branches), p.branches - live) == WithoutBranches(s.contents, s.branches - live);
  }

  /** No orphaned tag and no rebuild branch without a tag. */
  ghost predicate Clean(s: State) {
    && (forall c :: c in s.tags ==> !Orphaned(s.tags[c], s.branches))
    && (forall b :: b in s.branches && IsRebuild(b) ==> Referenced(s.tags, b))
  }

  /** The part of the integrity report about tags and rebuild branches. */
  ghost predicate TagsAndBranchesOk(s: State) {
    Clean(s) && |set b | b in s.branches && IsRebuild(b)| <= 1
  }

  /** The clean-up removes every finding except several live rebuild branches, and a second run does nothing. */
  lemma CleanUpIsFinal(s: State)
    ensures CleanedUp(CleanedUp(s)) == CleanedUp(s) && Clean(CleanedUp(s))
  {
    var t := CleanedUp(s);
    forall c | c in t.tags ensures !Orphaned(t.tags[c], t.branches) {
      if t.tags[c].branch.Some? {
        assert Referenced(t.tags, t.tags[c].branch.value);
      }
    }
    CleanStateIsFixed(t);
  }

  // ── Phase 1: replaying the history ─────────────────────────────────────────

  datatype Step = ReadDelta | DeleteRows | AppendRows | IndexFts

  /**
     What the outside decides: which replay steps fail, whether indexing writes a
     version, whether a failed replay's branch can be deleted again, which older
     rebuild branches can, and which deletions of the clean-up behind it succeed.
     */
  datatype Environment = Environment(
    stepOk: (nat, Step) -> bool, ftsAdvances: nat -> bool, undoOk: bool, dropOk: string -> bool, cleanUp: Deletions)

  ghost predicate IsHead(contents: Contents, head: Ref) {
    head in contents && forall r :: r in contents && r.branch == head.branch ==> r.version <= head.version
  }

  /** `after` only adds versions past `head` on head's branch. */
  ghost predicate Grown(before: Contents, after: Contents, head: Ref) {
    && (forall r :: r in before ==> r in after && after[r] == before[r])
    && (forall r :: r in after && r !in before ==> r.branch == head.branch && r.version > head.version)
  }

  lemma GrownTwice(a: Contents, b: Contents, c: Contents, head: Ref, next: Ref)
    requires Grown(a, b, head) && Grown(b, c, next)
    requires next.branch == head.branch && next.version >= head.version
    ensures Grown(a, c, head)
  {
  }

  /** The snapshots along `order`. */
  function Snaps(s: State, order: seq<Commit>): (snaps: seq<Docs>)
    ensures |snaps| == |order|
  {
    seq(|order|, i requires 0 <= i < |order| => SnapshotOf(s, order[i]))
  }

  /** The rebuild branch's version `at[j]` shows what the replay gives commit j. */
  ghost predicate Replayed(contents: Contents, rebuild: string, at: seq<nat>, base: Docs, snaps: seq<Docs>)
    requires |at| <= |snaps|
  {
    forall j :: 0 <= j < |at| ==> ShowsReplay(contents, rebuild, at[j], base, snaps, j)
  }

  ghost predicate ShowsReplay(contents: Contents, rebuild: string, v: nat, base: Docs, snaps: seq<Docs>, j: nat)
    requires j < |snaps|
  {
    Ref(Some(rebuild), v) in contents && Scan(contents[Ref(Some(rebuild), v)]) == Rebuilt(base, snaps, j)
  }

  ghost predicate NonDecreasing(at: seq<nat>) {
    forall j, k :: 0 <= j < k < |at| ==> at[j] <= at[k]
  }

  predicate SecondIsNewer(s: State, order: seq<Commit>, boundaries: set<nat>, env: Environment, at: seq<nat>) {
    |at| > 1 && |order| > 1 && 1 !in boundaries ==> (at[0] < at[1] <==> SecondWrites(s, order, env))
  }

  /** Where phase 1 stands after replaying the first |at| commits of `order`. */
  ghost predicate Progress(was: State, now: Contents, order: seq<Commit>, rebuild: string, base: Docs, at: seq<nat>) {
    && 1 <= |at| <= |order|
    && IsHead(now, Ref(Some(rebuild), at[|at| - 1]))
    && Grown(was.contents, now, Ref(Some(rebuild), at[0]))
    && (|at| > 1 ==> forall j :: 0 <= j < |at| ==> Resolves(was, order[j]))
    && Replayed(now, rebuild, at, base, Snaps(was, order))
    && NonDecreasing(at)
  }

  /** While the rebuild branch grows, every commit resolves and shows as before. */
  lemma SameSnapshot(was: State, now: Contents, start: Ref, c: Commit)
    requires Grown(was.contents, now, start)
    requires forall d :: d in was.tags ==> was.tags[d].branch != start.branch
    ensures Resolves(State(was.branches, was.tags, now), c) <==> Resolves(was, c)
    ensures SnapshotOf(State(was.branches, was.tags, now), c) == SnapshotOf(was, c)
  {
  }

  /** Replaying the delta from one commit to the next meets no failing step. */
  predicate StepFine(s: State, prev: Commit, commit: Commit, boundary: bool, i: nat, env: Environment) {
    && env.stepOk(i, ReadDelta) && Resolves(s, prev) && Resolves(s, commit)
    && (Removed(SnapshotOf(s, prev), SnapshotOf(s, commit)) != {} ==> env.stepOk(i, DeleteRows))
    && (ToRead(SnapshotOf(s, prev), SnapshotOf(s, commit)) != {} ==> env.stepOk(i, AppendRows))
    && (!boundary ==> env.stepOk(i, IndexFts))
  }

  predicate StepsFine(s: State, order: seq<Commit>, boundaries: set<nat>, env: Environment) {
    StepsFineTo(s, order, boundaries, env, |order|)
  }

  predicate StepsFineTo(s: State, order: seq<Commit>, boundaries: set<nat>, env: Environment, n: nat)
    requires n <= |order|
  {
    forall i :: 0 < i < n ==> StepFine(s, order[i - 1], order[i], i in boundaries, i, env)
  }

  /** Replaying the second commit writes a version: the first two commits differ, or indexing writes one. */
  predicate SecondWrites(s: State, order: seq<Commit>, env: Environment)
    requires |order| > 1
  {
    SnapshotOf(s, order[0]) != SnapshotOf(s, order[1]) || env.ftsAdvances(1)
  }

  lemma ProgressStep(
      was: State, mid: Contents, now: Contents, order: seq<Commit>, rebuild: string, base: Docs, at: seq<nat>, v: nat)
    requires Progress(was, mid, order, rebuild, base, at) && |at| < |order|
    requires forall d :: d in was.tags ==> was.tags[d].branch != Some(rebuild)
    requires var i, head, s := |at|, Ref(Some(rebuild), at[|at| - 1]), State(was.branches, was.tags, mid);
             && Grown(mid, now, head) && IsHead(now, Ref(Some(rebuild), v)) && v >= head.version
             && Resolves(s, order[i - 1]) && Resolves(s, order[i])
             && Scan(now[Ref(Some(rebuild), v)]) ==
                  Applied(Scan(mid[head]), SnapshotOf(s, order[i - 1]), SnapshotOf(s, order[i]))
    ensures Progress(was, now, order, rebuild, base, at + [v])
  {
    var i, head, start := |at|, Ref(Some(rebuild), at[|at| - 1]), Ref(Some(rebuild), at[0]);
    SameSnapshot(was, mid, start, order[i - 1]);
    SameSnapshot(was, mid, start, order[i]);
    GrownTwice(was.contents, mid, now, start, head);
    ReplayedStep(mid, now, rebuild, at, base, Snaps(was, order), v);
    Extended(was, order, at, v);
  }

  /** The part of `Progress` about the list of versions alone. */
  lemma Extended(was: State, order: seq<Commit>, at: seq<nat>, v: nat)
    requires 1 <= |at| < |order| && NonDecreasing(at) && at[|at| - 1] <= v
    requires |at| > 1 ==> forall j :: 0 <= j < |at| ==> Resolves(was, order[j])
    requires Resolves(was, order[|at| - 1]) && Resolves(was, order[|at|])
    ensures NonDecreasing(at + [v])
    ensures forall j :: 0 <= j < |at| + 1 ==> Resolves(was, order[j])
  {
  }

  lemma ReplayedStep(mid: Contents, now: Contents, rebuild: string, at: seq<nat>, base: Docs, snaps: seq<Docs>, v: nat)
    requires 1 <= |at| < |snaps| && Replayed(mid, rebuild, at, base, snaps)
    requires forall r :: r in mid ==> r in now && now[r] == mid[r]
    requires Ref(Some(rebuild), at[|at| - 1]) in mid && Ref(Some(rebuild), v) in now
    requires Scan(now[Ref(Some(rebuild), v)]) ==
             Applied(Scan(mid[Ref(Some(rebuild), at[|at| - 1])]), snaps[|at| - 1], snaps[|at|])
    ensures Replayed(now, rebuild, at + [v], base, snaps)
  {
    var longer := at + [v];
    assert ShowsReplay(mid, rebuild, at[|at| - 1], base, snaps, |at| - 1);
    ShowsNext(now, rebuild, v, base, snaps, |at|);
    forall j | 0 <= j < |longer| ensures ShowsReplay(now, rebuild, longer[j], base, snaps, j) {
      if j < |at| {
        ShowsStill(mid, now, rebuild, at[j], base, snaps, j);
      }
    }
  }

  lemma ShowsStill(mid: Contents, now: Contents, rebuild: string, v: nat, base: Docs, snaps: seq<Docs>, j: nat)
    requires j < |snaps| && ShowsReplay(mid, rebuild, v, base, snaps, j)
    requires forall r :: r in mid ==> r in now && now[r] == mid[r]
    ensures ShowsReplay(now, rebuild, v, base, snaps, j)
  {
  }

  lemma ShowsNext(now: Contents, rebuild: string, v: nat, base: Docs, snaps: seq<Docs>, j: nat)
    requires 0 < j < |snaps| && Ref(Some(rebuild), v) in now
    requires Scan(now[Ref(Some(rebuild), v)]) == Applied(Rebuilt(base, snaps, j - 1), snaps[j - 1], snaps[j])
    ensures ShowsReplay(now, rebuild, v, base, snaps, j)
  {
  }

  type Move = (Commit, nat)

  /** The moves (commit, rebuild version) for the replayed positions in `wanted`, in order. */
  function PlanUpTo(order: seq<Commit>, at: seq<nat>, wanted: set<nat>, n: nat): seq<Move>
    requires n <= |at| <= |order|
  {
    if n == 0 then []
    else PlanUpTo(order, at, wanted, n - 1) + (if n - 1 in wanted then [(order[n - 1], at[n - 1])] else [])
  }

  lemma {:induction false} PlanIgnoresLater(order: seq<Commit>, at: seq<nat>, wanted: set<nat>, n: nat, v: nat)
    requires n <= |at| < |order|
    ensures PlanUpTo(order, at + [v], wanted, n) == PlanUpTo(order, at, wanted, n)
  {
    if n > 0 {
      PlanIgnoresLater(order, at, wanted, n - 1, v);
    }
  }

  lemma PlanGrows(order: seq<Commit>, at: seq<nat>, wanted: set<nat>, v: nat)
    requires |at| < |order|
    ensures PlanUpTo(order, at + [v], wanted, |at| + 1) ==
            PlanUpTo(order, at, wanted, |at|) + (if |at| in wanted then [(order[|at|], v)] else [])
  {
    PlanIgnoresLater(order, at, wanted, |at|, v);
  }

  /** The plans for the commits replayed so far: those to retag, and the boundaries. */
  ghost predicate PlansAt(order: seq<Commit>, at: seq<nat>, boundaries: set<nat>, retagPlan: seq<Move>, boundaryVersions: seq<Move>) {
    && |at| <= |order|
    && retagPlan == PlanUpTo(order, at, Intermediates(|order|, boundaries), |at|)
    && boundaryVersions == PlanUpTo(order, at, boundaries - {0}, |at|)
  }

  lemma PlansNext(
      order: seq<Commit>, at: seq<nat>, boundaries: set<nat>, retagPlan: seq<Move>, boundaryVersions: seq<Move>, v: nat)
    requires PlansAt(order, at, boundaries, retagPlan, boundaryVersions) && 0 < |at| < |order|
    ensures var move := (order[|at|], v);
            if |at| in boundaries then PlansAt(order, at + [v], boundaries, retagPlan, boundaryVersions + [move])
            else PlansAt(order, at + [v], boundaries, retagPlan + [move], boundaryVersions)
  {
    PlanGrows(order, at, Intermediates(|order|, boundaries), v);
    PlanGrows(order, at, boundaries - {0}, v);
  }

  // ── Phase 2: moving the tags ───────────────────────────────────────────────

  /** A tag that must not stay: it is on a rebuild branch other than the new one. */
  predicate OnOldRebuild(r: Ref, rebuild: string) {
    OnRebuild(r) && r.branch != Some(rebuild)
  }

  /** Distinct, tagged commits. */
  ghost predicate Lists(order: seq<Commit>, tags: map<Commit, Ref>) {
    Distinct(order) && forall i :: 0 <= i < |order| ==> order[i] in tags
  }

  /** Tags after moving every commit of the plan to the rebuild branch. */
  function Retargeted(tags: map<Commit, Ref>, plan: seq<Move>, rebuild: string): map<Commit, Ref> {
    if plan == [] then tags
    else
      var m := plan[|plan| - 1];
      Retargeted(tags, plan[..|plan| - 1], rebuild)[m.0 := Ref(Some(rebuild), m.1)]
  }

  /** Tags after moving those commits of the plan that are still on an older rebuild branch. */
  function Migrated(tags: map<Commit, Ref>, plan: seq<Move>, rebuild: string): map<Commit, Ref> {
    if plan == [] then tags
    else
      var m := plan[|plan| - 1];
      var before := Migrated(tags, plan[..|plan| - 1], rebuild);
      if m.0 in before && OnOldRebuild(before[m.0], rebuild) then before[m.0 := Ref(Some(rebuild), m.1)] else before
  }

  lemma {:induction false} RetargetedAt(
      tags: map<Commit, Ref>, order: seq<Commit>, at: seq<nat>, wanted: set<nat>, rebuild: string, n: nat)
    requires n <= |at| <= |order| && Lists(order, tags)
    ensures var t := Retargeted(tags, PlanUpTo(order, at, wanted, n), rebuild);
            && t.Keys == tags.Keys
            && forall i :: 0 <= i < |order| ==>
                 t[order[i]] == if i < n && i in wanted then Ref(Some(rebuild), at[i]) else tags[order[i]]
  {
    if n > 0 {
      RetargetedAt(tags, order, at, wanted, rebuild, n - 1);
      var shorter, plan := PlanUpTo(order, at, wanted, n - 1), PlanUpTo(order, at, wanted, n);
      if n - 1 in wanted {
        assert plan[..|plan| - 1] == shorter;
      } else {
        assert plan == shorter;
      }
    }
  }

  lemma {:induction false} MigratedAt(
      tags: map<Commit, Ref>, order: seq<Commit>, at: seq<nat>, wanted: set<nat>, rebuild: string, n: nat)
    requires n <= |at| <= |order| && Lists(order, tags)
    ensures var t := Migrated(tags, PlanUpTo(order, at, wanted, n), rebuild);
            && t.Keys == tags.Keys
            && forall i :: 0 <= i < |order| ==>
                 t[order[i]] == if i < n && i in wanted && OnOldRebuild(tags[order[i]], rebuild)
                                then Ref(Some(rebuild), at[i]) else tags[order[i]]
  {
    if n > 0 {
      MigratedAt(tags, order, at, wanted, rebuild, n - 1);
      var shorter, plan := PlanUpTo(order, at, wanted, n - 1), PlanUpTo(order, at, wanted, n);
      if n - 1 in wanted {
        assert plan[..|plan| - 1] == shorter;
      } else {
        assert plan == shorter;
      }
    }
  }

  // ── The whole compaction ───────────────────────────────────────────────────

  datatype Outcome = Retagged(total: nat, moved: nat) | Failed

  function Versions(tags: map<Commit, Ref>): map<Commit, nat> {
    map c | c in tags :: tags[c].version
  }

  /** A branch name nothing in the dataset uses. */
  ghost predicate Unused(s: State, rebuild: string) {
    && rebuild !in s.branches
    && (forall c :: c in s.tags ==> s.tags[c].branch != Some(rebuild))
    && (forall r :: r in s.contents ==> r.branch != Some(rebuild))
  }

  /** Where commit i's tag ends: boundaries stay unless an older rebuild branch holds them. */
  function FinalRef(was: Ref, i: nat, boundaries: set<nat>, rebuild: string, v: nat): Ref {
    if i in boundaries && !OnRebuild(was) then was else Ref(Some(rebuild), v)
  }

  /** Where the tags end: a first commit on an older rebuild branch is the only one to go. */
  ghost predicate TagsCompacted(
      s: State, tags: map<Commit, Ref>, rebuild: string, order: seq<Commit>, boundaries: set<nat>, at: seq<nat>)
    requires |at| == |order| > 0 && Lists(order, s.tags)
  {
    && tags.Keys == s.tags.Keys - (if OnRebuild(s.tags[order[0]]) then {order[0]} else {})
    && (order[0] in tags ==> tags[order[0]] == s.tags[order[0]])
    && (forall i :: 0 < i < |order| ==>
          order[i] in tags && tags[order[i]] == FinalRef(s.tags[order[i]], i, boundaries, rebuild, at[i]))
  }

  /** The branches left once the older rebuild branches are gone. */
  function NewBranches(branches: set<string>, rebuild: string): set<string> {
    (set b | b in branches && !IsRebuild(b)) + {rebuild}
  }

  /** Versions appear on that branch only. */
  ghost predicate OnlyNewOn(before: Contents, after: Contents, branch: string) {
    forall r :: r in after && r !in before ==> r.branch == Some(branch)
  }

  /** State s was compacted to t: `order` is the version order and at[i] commit i's version on the rebuild branch. */
  ghost predicate Compacted(s: State, t: State, rebuild: string, order: seq<Commit>, boundaries: set<nat>, at: seq<nat>) {
    && |at| == |order| > 2 && VersionOrder(order, Versions(s.tags)) && Lists(order, s.tags)
    && (forall p: nat :: p in boundaries <==> p < |order| - 1 && IsBoundary(p))
    && Unused(s, rebuild) && IsRebuild(rebuild)
    && (forall i :: 0 <= i < |order| ==> Resolves(s, order[i]))
    && NonDecreasing(at) && at[0] == s.tags[order[0]].version && Ref(None, at[0]) in s.contents
    && t.branches == NewBranches(s.branches, rebuild)
    && TagsCompacted(s, t.tags, rebuild, order, boundaries, at)
    && (forall r :: r in s.contents && !OnRebuild(r) ==> r in t.contents && t.contents[r] == s.contents[r])
    && OnlyNewOn(s.contents, t.contents, rebuild)
    && Replayed(t.contents, rebuild, at, Scan(s.contents[Ref(None, at[0])]), Snaps(s, order))
  }

  /** The commits in version order, and the boundary positions but the last. */
  ghost predicate Planned(tags: map<Commit, Ref>, order: seq<Commit>, boundaries: set<nat>) {
    && |order| == |tags| && VersionOrder(order, Versions(tags)) && Lists(order, tags)
    && forall p: nat :: p in boundaries <==> p < |order| - 1 && IsBoundary(p)
  }

  lemma OrderLists(tags: map<Commit, Ref>, order: seq<Commit>)
    requires VersionOrder(order, Versions(tags))
    ensures Lists(order, tags)
  {
    forall i | 0 <= i < |order| ensures order[i] in tags {
      assert order[i] in order;
    }
  }

  /** The dataset after forking the rebuild branch from version v of main. */
  function Forked(s: State, rebuild: string, v: nat): State
    requires Ref(None, v) in s.contents
  {
    State(s.branches + {rebuild}, s.tags, s.contents[Ref(Some(rebuild), v) := s.contents[Ref(None, v)]])
  }

  /** Forking the rebuild branch changes nothing a tag can see. */
  lemma SameBeforeFork(s: State, rebuild: string, order: seq<Commit>, v: nat)
    requires Unused(s, rebuild) && Ref(None, v) in s.contents
    ensures var f := Forked(s, rebuild, v);
            && Snaps(f, order) == Snaps(s, order)
            && (forall c :: SnapshotOf(f, c) == SnapshotOf(s, c))
            && (forall c :: Resolves(f, c) <==> Resolves(s, c))
            && IsHead(f.contents, Ref(Some(rebuild), v))
  {
    var f := Forked(s, rebuild, v);
    forall c ensures SnapshotOf(f, c) == SnapshotOf(s, c) {}
    assert Snaps(f, order) == Snaps(s, order);
  }

  /** Deleting the rebuild branch after a failed replay restores the dataset. */
  lemma ForkUndone(s: State, grown: Contents, rebuild: string, v: nat)
    requires Unused(s, rebuild) && Ref(None, v) in s.contents
    requires Grown(Forked(s, rebuild, v).contents, grown, Ref(Some(rebuild), v))
    ensures WithoutBranches(grown, {rebuild}) == s.contents
  {
    forall r ensures r in WithoutBranches(grown, {rebuild}) <==> r in s.contents {}
  }

  lemma OneIsNoBoundary()
    ensures !IsBoundary(1) && IsBoundary(0)
  {
    assert Bound(0) == 0 && Bound(1) == 3;
    forall k: nat ensures Bound(k) != 1 {
      if k > 1 { BoundIncreases(1, k); }
    }
  }

  /** The tags after both phases of moving. */
  function MovedTags(tags: map<Commit, Ref>, order: seq<Commit>, boundaries: set<nat>, at: seq<nat>, rebuild: string): map<Commit, Ref>
    requires |at| == |order|
  {
    Migrated(Retargeted(tags, PlanUpTo(order, at, Intermediates(|order|, boundaries), |order|), rebuild),
             PlanUpTo(order, at, boundaries - {0}, |order|), rebuild)
  }

  lemma MovedTagsAt(s: State, order: seq<Commit>, boundaries: set<nat>, at: seq<nat>, rebuild: string)
    requires |at| == |order| > 0 && Lists(order, s.tags) && Unused(s, rebuild)
    ensures var t := MovedTags(s.tags, order, boundaries, at, rebuild);
            && t.Keys == s.tags.Keys
            && t[order[0]] == s.tags[order[0]]
            && forall i :: 0 < i < |order| ==> t[order[i]] == FinalRef(s.tags[order[i]], i, boundaries, rebuild, at[i])
  {
    var n := |order|;
    RetargetedAt(s.tags, order, at, Intermediates(n, boundaries), rebuild, n);
    var mid := Retargeted(s.tags, PlanUpTo(order, at, Intermediates(n, boundaries), n), rebuild);
    assert Lists(order, mid);
    MigratedAt(mid, order, at, boundaries - {0}, rebuild, n);
  }

  /** The dataset once the tags are moved and the branches in `gone` deleted, before the clean-up. */
  function Unswept(
      s: State, replayed: Contents, order: seq<Commit>, boundaries: set<nat>, at: seq<nat>, rebuild: string, gone: set<string>): State
    requires |at| == |order|
  {
    State((s.branches + {rebuild}) - gone, MovedTags(s.tags, order, boundaries, at, rebuild), WithoutBranches(replayed, gone))
  }

  /** The dataset once all older rebuild branches are deleted and the clean-up is done. */
  ghost function Settled(s: State, replayed: Contents, order: seq<Commit>, boundaries: set<nat>, at: seq<nat>, rebuild: string): State
    requires |at| == |order|
  {
    CleanedUp(Unswept(s, replayed, order, boundaries, at, rebuild, Older(s.branches, rebuild)))
  }

  /** The rebuild branches of earlier compactions. */
  function Older(branches: set<string>, rebuild: string): set<string> {
    set b | b in branches && IsRebuild(b) && b != rebuild
  }

  /** What the two last phases leave when some deletions fail. */
  ghost function SettledUnder(
      s: State, replayed: Contents, order: seq<Commit>, boundaries: set<nat>, at: seq<nat>, rebuild: string, env: Environment): State
    requires |at| == |order|
  {
    PartlyCleanedUp(Unswept(s, replayed, order, boundaries, at, rebuild, Dropped(s.branches, rebuild, env)), env.cleanUp)
  }

  /** Those that can be deleted. */
  function Dropped(branches: set<string>, rebuild: string, env: Environment): set<string> {
    set b | b in Older(branches, rebuild) && env.dropOk(b)
  }

  /** Of the moved tags only that of a first commit on one of the deleted branches is orphaned. */
  lemma OrphanedUnder(s: State, order: seq<Commit>, boundaries: set<nat>, at: seq<nat>, rebuild: string, gone: set<string>)
    requires |at| == |order| > 0 && VersionOrder(order, Versions(s.tags)) && Unused(s, rebuild) && Lists(order, s.tags)
    requires forall i :: 0 <= i < |order| ==> Resolves(s, order[i])
    requires gone <= Older(s.branches, rebuild)
    ensures var moved := MovedTags(s.tags, order, boundaries, at, rebuild);
            && moved.Keys == s.tags.Keys
            && moved[order[0]] == s.tags[order[0]]
            && (forall c :: c in moved && c != order[0] ==> moved[c].branch == Some(rebuild) || !OnRebuild(moved[c]))
            && forall c :: c in moved ==>
                 (Orphaned(moved[c], (s.branches + {rebuild}) - gone)
                  <==> c == order[0] && s.tags[c].branch.Some? && s.tags[c].branch.value in gone)
  {
    MovedTagsAt(s, order, boundaries, at, rebuild);
    var moved := MovedTags(s.tags, order, boundaries, at, rebuild);
    forall c | c in moved
      ensures c != order[0] ==> moved[c].branch == Some(rebuild) || !OnRebuild(moved[c])
      ensures Orphaned(moved[c], (s.branches + {rebuild}) - gone)
              <==> c == order[0] && s.tags[c].branch.Some? && s.tags[c].branch.value in gone
    {
      assert c in Versions(s.tags).Keys && c in order;
      var i :| 0 <= i < |order| && order[i] == c;
      assert Resolves(s, order[i]);
    }
  }

  lemma OnlyFirstCanBeOrphaned(s: State, order: seq<Commit>, boundaries: set<nat>, at: seq<nat>, rebuild: string)
    requires |at| == |order| > 0 && VersionOrder(order, Versions(s.tags)) && Unused(s, rebuild) && Lists(order, s.tags)
    requires forall i :: 0 <= i < |order| ==> Resolves(s, order[i])
    ensures var moved := MovedTags(s.tags, order, boundaries, at, rebuild);
            && moved.Keys == s.tags.Keys
            && forall c :: c in moved ==>
                 (Orphaned(moved[c], NewBranches(s.branches, rebuild)) <==> c == order[0] && OnRebuild(s.tags[c]))
  {
    OrphanedUnder(s, order, boundaries, at, rebuild, Older(s.branches, rebuild));
    assert (s.branches + {rebuild}) - Older(s.branches, rebuild) == NewBranches(s.branches, rebuild);
    assert Resolves(s, order[0]);
  }

  /** The first commit is not held by an older rebuild branch that cannot be deleted. */
  predicate FirstLetsGo(s: State, order: seq<Commit>, env: Environment)
    requires order != [] && order[0] in s.tags
  {
    OnRebuild(s.tags[order[0]]) ==> env.dropOk(s.tags[order[0]].branch.value)
  }

  ghost predicate AllDropped(env: Environment) {
    (forall b :: env.dropOk(b)) && NoneFails(env.cleanUp)
  }

  /** An older rebuild branch that no tag is on may as well be left to the clean-up. */
  lemma SweptLater(
      s: State, replayed: Contents, order: seq<Commit>, boundaries: set<nat>, at: seq<nat>, rebuild: string, gone: set<string>)
    requires |at| == |order| > 0 && VersionOrder(order, Versions(s.tags)) && Unused(s, rebuild) && Lists(order, s.tags)
    requires forall i :: 0 <= i < |order| ==> Resolves(s, order[i])
    requires gone <= Older(s.branches, rebuild)
    requires OnRebuild(s.tags[order[0]]) ==> s.tags[order[0]].branch.value in gone
    ensures CleanedUp(Unswept(s, replayed, order, boundaries, at, rebuild, gone)) == Settled(s, replayed, order, boundaries, at, rebuild)
  {
    var older := Older(s.branches, rebuild);
    var u, v := Unswept(s, replayed, order, boundaries, at, rebuild, gone), Unswept(s, replayed, order, boundaries, at, rebuild, older);
    OrphanedUnder(s, order, boundaries, at, rebuild, gone);
    OrphanedUnder(s, order, boundaries, at, rebuild, older);
    assert Resolves(s, order[0]);
    var live := LiveTags(u.tags, u.branches);
    assert live == LiveTags(v.tags, v.branches);
    forall b | b in older ensures !Referenced(live, b) {
      assert b != rebuild && IsRebuild(b);
    }
    SameSweep(replayed, s.branches + {rebuild}, live, gone, older);
  }

  lemma SameSweep(replayed: Contents, branches: set<string>, live: map<Commit, Ref>, gone: set<string>, older: set<string>)
    requires gone <= older <= branches && forall b :: b in older ==> IsRebuild(b) && !Referenced(live, b)
    ensures LiveBranches(branches - gone, live) == LiveBranches(branches - older, live)
    ensures var left := LiveBranches(branches - older, live);
            WithoutBranches(WithoutBranches(replayed, gone), (branches - gone) - left)
            == WithoutBranches(WithoutBranches(replayed, older), (branches - older) - left)
  {
    forall b ensures b in LiveBranches(branches - gone, live) <==> b in LiveBranches(branches - older, live) {}
    var left := LiveBranches(branches - older, live);
    assert gone + ((branches - gone) - left) == branches - left == older + ((branches - older) - left);
    WithoutTwice(replayed, gone, (branches - gone) - left);
    WithoutTwice(replayed, older, (branches - older) - left);
  }

  lemma WithoutTwice(contents: Contents, a: set<string>, b: set<string>)
    ensures WithoutBranches(WithoutBranches(contents, a), b) == WithoutBranches(contents, a + b)
  {
  }

  /** A compaction up to deletions that failed: a clean-up finishes it, and its tags are final if the first commit stays. */
  ghost predicate CompactedBut(s: State, t: State, rebuild: string, order: seq<Commit>, boundaries: set<nat>, at: seq<nat>) {
    Compacted(s, CleanedUp(t), rebuild, order, boundaries, at) && (!OnRebuild(s.tags[order[0]]) ==> t.tags == CleanedUp(t).tags)
  }

  lemma SettledTags(s: State, order: seq<Commit>, boundaries: set<nat>, at: seq<nat>, rebuild: string)
    requires |at| == |order| > 2 && VersionOrder(order, Versions(s.tags)) && Unused(s, rebuild) && Lists(order, s.tags)
    requires forall i :: 0 <= i < |order| ==> Resolves(s, order[i])
    requires |order| - 1 !in boundaries && IsRebuild(rebuild)
    ensures var moved, branches := MovedTags(s.tags, order, boundaries, at, rebuild), NewBranches(s.branches, rebuild);
            var live := LiveTags(moved, branches);
            && TagsCompacted(s, live, rebuild, order, boundaries, at)
            && LiveBranches(branches, live) == branches
  {
    OnlyFirstCanBeOrphaned(s, order, boundaries, at, rebuild);
    MovedTagsAt(s, order, boundaries, at, rebuild);
    var moved, branches := MovedTags(s.tags, order, boundaries, at, rebuild), NewBranches(s.branches, rebuild);
    var live := LiveTags(moved, branches);
    forall i | 0 < i < |order|
      ensures order[i] in live && live[order[i]] == FinalRef(s.tags[order[i]], i, boundaries, rebuild, at[i])
    {
      assert order[i] != order[0];
    }
    assert live[order[|order| - 1]].branch == Some(rebuild);
    assert Referenced(live, rebuild);
  }

  lemma SettledContents(s: State, replayed: Contents, rebuild: string, at: seq<nat>, base: Docs, snaps: seq<Docs>, older: set<string>)
    requires |at| <= |snaps| && |at| > 0 && IsRebuild(rebuild)
    requires forall b :: b in older ==> IsRebuild(b) && b != rebuild
    requires forall r :: r in s.contents ==> r in replayed && replayed[r] == s.contents[r]
    requires Replayed(replayed, rebuild, at, base, snaps) && OnlyNewOn(s.contents, replayed, rebuild)
    ensures var left := WithoutBranches(replayed, older);
            && (forall r :: r in s.contents && !OnRebuild(r) ==> r in left && left[r] == s.contents[r])
            && Replayed(left, rebuild, at, base, snaps) && OnlyNewOn(s.contents, left, rebuild)
  {
  }

  lemma SettledState(s: State, replayed: Contents, order: seq<Commit>, boundaries: set<nat>, at: seq<nat>, rebuild: string)
    requires |at| == |order| > 2 && VersionOrder(order, Versions(s.tags)) && Lists(order, s.tags)
    requires forall p: nat :: p in boundaries <==> p < |order| - 1 && IsBoundary(p)
    requires Unused(s, rebuild) && IsRebuild(rebuild)
    requires at[0] == s.tags[order[0]].version && Ref(None, at[0]) in s.contents
    requires Progress(Forked(s, rebuild, at[0]), replayed, order, rebuild, Scan(s.contents[Ref(None, at[0])]), at)
    ensures Compacted(s, Settled(s, replayed, order, boundaries, at, rebuild), rebuild, order, boundaries, at)
  {
    FromProgress(s, replayed, order, at, rebuild);
    SettledParts(s, replayed, order, boundaries, at, rebuild);
    SettledTags(s, order, boundaries, at, rebuild);
    MovedTagsAt(s, order, boundaries, at, rebuild);
    SettledContents(s, replayed, rebuild, at, Scan(s.contents[Ref(None, at[0])]), Snaps(s, order), Older(s.branches, rebuild));
  }

  /** What phase 1 established, said of the dataset before the fork. */
  lemma FromProgress(s: State, replayed: Contents, order: seq<Commit>, at: seq<nat>, rebuild: string)
    requires |at| == |order| > 2 && Unused(s, rebuild) && Ref(None, at[0]) in s.contents
    requires Progress(Forked(s, rebuild, at[0]), replayed, order, rebuild, Scan(s.contents[Ref(None, at[0])]), at)
    ensures forall i :: 0 <= i < |order| ==> Resolves(s, order[i])
    ensures forall r :: r in s.contents ==> r in replayed && replayed[r] == s.contents[r]
    ensures OnlyNewOn(s.contents, replayed, rebuild)
    ensures Replayed(replayed, rebuild, at, Scan(s.contents[Ref(None, at[0])]), Snaps(s, order))
    ensures NonDecreasing(at)
  {
    SameBeforeFork(s, rebuild, order, at[0]);
    var f := Forked(s, rebuild, at[0]);
    forall r | r in s.contents ensures r in replayed && replayed[r] == s.contents[r] {
      assert r in f.contents;
    }
  }

  /** The settled dataset component by component. */
  lemma SettledParts(s: State, replayed: Contents, order: seq<Commit>, boundaries: set<nat>, at: seq<nat>, rebuild: string)
    requires |at| == |order| > 2 && VersionOrder(order, Versions(s.tags)) && Lists(order, s.tags)
    requires Unused(s, rebuild) && IsRebuild(rebuild) && |order| - 1 !in boundaries
    requires forall i :: 0 <= i < |order| ==> Resolves(s, order[i])
    ensures var t, branches := Settled(s, replayed, order, boundaries, at, rebuild), NewBranches(s.branches, rebuild);
            && t.branches == branches
            && t.tags == LiveTags(MovedTags(s.tags, order, boundaries, at, rebuild), branches)
            && t.contents == WithoutBranches(replayed, Older(s.branches, rebuild))
  {
    SettledTags(s, order, boundaries, at, rebuild);
    assert (s.branches + {rebuild}) - Older(s.branches, rebuild) == NewBranches(s.branches, rebuild);
    var left := WithoutBranches(replayed, Older(s.branches, rebuild));
    assert WithoutBranches(left, {}) == left;
  }

  /** What failing deletions leave, if the first commit's branch could be deleted or it is on no rebuild branch. */
  lemma SettledBut(
      s: State, replayed: Contents, order: seq<Commit>, boundaries: set<nat>, at: seq<nat>, rebuild: string, env: Environment)
    requires |at| == |order| > 0
    requires Compacted(s, Settled(s, replayed, order, boundaries, at, rebuild), rebuild, order, boundaries, at)
    requires FirstLetsGo(s, order, env)
    ensures var t := SettledUnder(s, replayed, order, boundaries, at, rebuild, env);
            CompactedBut(s, t, rebuild, order, boundaries, at)
  {
    var gone := Dropped(s.branches, rebuild, env);
    var u := Unswept(s, replayed, order, boundaries, at, rebuild, gone);
    LaterCleanUpFinishes(u, env.cleanUp);
    assert Resolves(s, order[0]);
    SweptLater(s, replayed, order, boundaries, at, rebuild, gone);
    if !OnRebuild(s.tags[order[0]]) {
      OrphanedUnder(s, order, boundaries, at, rebuild, gone);
      AllLive(u, env.cleanUp);
    }
  }

  lemma AllLive(s: State, d: Deletions)
    requires forall c :: c in s.tags ==> !Orphaned(s.tags[c], s.branches)
    ensures PartlyCleanedUp(s, d).tags == s.tags == CleanedUp(s).tags
  {
  }

  /** If that branch could not be deleted, all tags stay. */
  lemma SettledHeld(
      s: State, replayed: Contents, order: seq<Commit>, boundaries: set<nat>, at: seq<nat>, rebuild: string, env: Environment)
    requires |at| == |order| > 0
    requires Compacted(s, Settled(s, replayed, order, boundaries, at, rebuild), rebuild, order, boundaries, at)
    requires !FirstLetsGo(s, order, env)
    ensures SettledUnder(s, replayed, order, boundaries, at, rebuild, env).tags.Keys == s.tags.Keys
  {
    var gone := Dropped(s.branches, rebuild, env);
    OrphanedUnder(s, order, boundaries, at, rebuild, gone);
    AllLive(Unswept(s, replayed, order, boundaries, at, rebuild, gone), env.cleanUp);
  }

  lemma SettledFully(
      s: State, replayed: Contents, order: seq<Commit>, boundaries: set<nat>, at: seq<nat>, rebuild: string, env: Environment)
    requires |at| == |order| && AllDropped(env)
    ensures SettledUnder(s, replayed, order, boundaries, at, rebuild, env) == Settled(s, replayed, order, boundaries, at, rebuild)
  {
    assert Dropped(s.branches, rebuild, env) == Older(s.branches, rebuild);
    NothingFails(Unswept(s, replayed, order, boundaries, at, rebuild, Older(s.branches, rebuild)), env.cleanUp);
  }

  /** Phase 1 without an end: a rebuild branch, forked and partly grown, that nothing refers to. */
  ghost predicate DiedReplaying(s: State, t: State) {
    exists rebuild, v, grown :: Interrupted(s, t, rebuild, v, grown)
  }

  ghost predicate Interrupted(s: State, t: State, rebuild: string, v: nat, grown: Contents) {
    && IsRebuild(rebuild) && Unused(s, rebuild) && Ref(None, v) in s.contents
    && Grown(Forked(s, rebuild, v).contents, grown, Ref(Some(rebuild), v))
    && t == State(s.branches + {rebuild}, s.tags, grown)
  }

  /** How a compaction of s that was planned along `order` ends in t. */
  ghost predicate RetagOutcome(
      s: State, t: State, result: Outcome, rebuild: string, order: seq<Commit>, boundaries: set<nat>, at: seq<nat>, env: Environment)
    requires |s.tags| > 2 && Planned(s.tags, order, boundaries)
  {
    && (result.Failed? ==> t == s || (!env.undoOk && DiedReplaying(s, t)))
    && (result.Retagged? <==> Ref(None, s.tags[order[0]].version) in s.contents && StepsFine(s, order, boundaries, env))
    && (result.Retagged? ==>
          && result == Retagged(|order|, |Intermediates(|order|, boundaries)|)
          && |at| == |order| && (at[0] < at[1] <==> SecondWrites(s, order, env))
          && (FirstLetsGo(s, order, env) ==> CompactedBut(s, t, rebuild, order, boundaries, at))
          && (!FirstLetsGo(s, order, env) ==> t.tags.Keys == s.tags.Keys)
          && (AllDropped(env) ==> Compacted(s, t, rebuild, order, boundaries, at)))
  }

  class Dataset {
    /** Branches beside main. */
    var branches: set<string>
    /** Commit tags. */
    var tags: map<Commit, Ref>
    /** Rows per (branch, version). */
    var contents: Contents

    constructor (s: State)
      ensures Now() == s
    {
      branches, tags, contents := s.branches, s.tags, s.contents;
    }

    function Now(): State
      reads this
    {
      State(branches, tags, contents)
    }

    /** Orphaned tags go first, then the rebuild branches no remaining tag is on; any deletion may fail. */
    method CleanUp(d: Deletions)
      modifies this
      ensures Now() == PartlyCleanedUp(old(Now()), d)
    {
      DeleteOrphanedTags(d);
      DeleteStaleRebuilds(d);
    }

    method DeleteOrphanedTags(d: Deletions)
      modifies this`tags
      ensures tags == TagsLeft(old(tags), branches, d)
    {
      var orphans := set c | c in tags && Orphaned(tags[c], branches);
      ghost var all := orphans;
      while orphans != {}
        invariant orphans <= all
        invariant tags == map c | c in old(tags) && (c in all && c !in orphans ==> !d.tagOk(c)) :: old(tags)[c]
        decreases |orphans|
      {
        var c :| c in orphans;
        orphans := orphans - {c};
        if d.tagOk(c) {
          tags := tags - {c};
        }
      }
      forall c ensures c in TagsLeft(old(tags), branches, d) <==> c in old(tags) && (c in all ==> !d.tagOk(c)) {}
    }

    method DeleteStaleRebuilds(d: Deletions)
      modifies this`branches, this`contents
      ensures branches == BranchesLeft(old(branches), tags, d)
      ensures contents == WithoutBranches(old(contents), old(branches) - branches)
    {
      var referenced := set c | c in tags && tags[c].branch.Some? :: tags[c].branch.value;
      var stale := set b | b in branches && IsRebuild(b) && b !in referenced;
      forall b ensures b in referenced <==> Referenced(tags, b) {
        if Referenced(tags, b) {
          var c :| c in tags && tags[c].branch == Some(b);
          assert tags[c].branch.value in referenced;
        }
      }
      var gone := set b | b in stale && d.branchOk(b);
      forall b ensures b in BranchesLeft(branches, tags, d) <==> b in branches - gone {}
      DeleteBranches(gone);
      assert old(branches) - branches == gone;
    }

    method DeleteBranches(gone: set<string>)
      modifies this`branches, this`contents
      ensures branches == old(branches) - gone
      ensures contents == WithoutBranches(old(contents), gone)
    {
      var rest := gone;
      assert WithoutBranches(contents, {}) == contents;
      while rest != {}
        invariant rest <= gone
        invariant branches == old(branches) - (gone - rest)
        invariant contents == WithoutBranches(old(contents), gone - rest)
        decreases |rest|
      {
        var b :| b in rest;
        rest := rest - {b};
        branches := branches - {b};
        contents := WithoutBranches(contents, {b});
      }
    }

    /** A branch forked from a version of main; fails if the name is taken or main has no such version. */
    method CreateBranch(name: string, fromVersion: nat) returns (ok: bool)
      modifies this`branches, this`contents
      ensures ok <==> name !in old(branches) && Ref(None, fromVersion) in old(contents)
      ensures branches == if ok then old(branches) + {name} else old(branches)
      ensures contents == if ok then old(contents)[Ref(Some(name), fromVersion) := old(contents)[Ref(None, fromVersion)]]
                          else old(contents)
    {
      ok := name !in branches && Ref(None, fromVersion) in contents;
      if ok {
        contents := contents[Ref(Some(name), fromVersion) := contents[Ref(None, fromVersion)]];
        branches := branches + {name};
      }
    }

    /** A write on a branch handle: the next version of that branch. */
    method Advance(head: Ref, rows: seq<ChunkRow>) returns (next: Ref)
      requires IsHead(contents, head)
      modifies this`contents
      ensures next == Ref(head.branch, head.version + 1)
      ensures contents == old(contents)[next := rows]
      ensures IsHead(contents, next) && Grown(old(contents), contents, head)
    {
      next := Ref(head.branch, head.version + 1);
      contents := contents[next := rows];
    }

    /** Delete the removed documents' rows, then append; each step only if it has something to do. */
    method ApplyDelta(head: Ref, delta: VersionDelta, i: nat, env: Environment) returns (ok: bool, next: Ref)
      requires IsHead(contents, head)
      modifies this`contents
      ensures Grown(old(contents), contents, head)
      ensures ok ==> next.branch == head.branch && IsHead(contents, next)
      ensures ok ==> contents[next] == AppliedRows(old(contents)[head], delta)
      ensures ok ==> forall r: ChunkRow :: r.docId in delta.docIdsToDelete ==> multiset(contents[next])[r] == multiset(delta.rowsToAppend)[r]
      ensures ok ==> forall r: ChunkRow :: r.docId !in delta.docIdsToDelete ==>
                multiset(contents[next])[r] == multiset(old(contents)[head])[r] + multiset(delta.rowsToAppend)[r]
      ensures ok <==> (delta.docIdsToDelete != {} ==> env.stepOk(i, DeleteRows)) && (delta.rowsToAppend != [] ==> env.stepOk(i, AppendRows))
      ensures ok ==> next.version == head.version + (if delta.docIdsToDelete != {} then 1 else 0) + (if delta.rowsToAppend != [] then 1 else 0)
    {
      next := head;
      WithoutNone(contents[head]);
      WithoutCounts(contents[head], delta.docIdsToDelete);
      if delta.docIdsToDelete != {} {
        if !env.stepOk(i, DeleteRows) {
          return false, next;
        }
        next := Advance(next, Without(contents[next], delta.docIdsToDelete));
      }
      label Deleted:
      if delta.rowsToAppend != [] {
        if !env.stepOk(i, AppendRows) {
          return false, next;
        }
        next := Advance(next, contents[next] + delta.rowsToAppend);
        GrownTwice(old(contents), old@Deleted(contents), contents, head, Ref(head.branch, next.version - 1));
      }
      ok := true;
    }

    /** Bring the full-text index up to date; same rows, possibly a new version. */
    method EnsureFts(head: Ref, i: nat, env: Environment) returns (ok: bool, next: Ref)
      requires IsHead(contents, head)
      modifies this`contents
      ensures Grown(old(contents), contents, head)
      ensures ok <==> env.stepOk(i, IndexFts)
      ensures ok ==> next.branch == head.branch && IsHead(contents, next) && contents[next] == old(contents)[head]
      ensures ok ==> next.version == head.version + (if env.ftsAdvances(i) then 1 else 0)
    {
      next := head;
      ok := env.stepOk(i, IndexFts);
      if ok && env.ftsAdvances(i) {
        next := Advance(head, contents[head]);
      }
    }

    /** Replay one commit on the rebuild branch. */
    method ReplayStep(i: nat, prev: Commit, commit: Commit, head: Ref, boundary: bool, env: Environment)
      returns (ok: bool, next: Ref)
      requires IsHead(contents, head)
      modifies this`contents
      ensures Grown(old(contents), contents, head)
      ensures ok <==> StepFine(old(Now()), prev, commit, boundary, i, env)
      ensures ok ==> next.branch == head.branch && IsHead(contents, next) && next.version >= head.version
      ensures ok ==> Scan(contents[next]) ==
                       Applied(Scan(old(contents)[head]), SnapshotOf(old(Now()), prev), SnapshotOf(old(Now()), commit))
      ensures ok && !boundary ==> (next.version > head.version <==>
                SnapshotOf(old(Now()), prev) != SnapshotOf(old(Now()), commit) || env.ftsAdvances(i))
    {
      next := head;
      if !env.stepOk(i, ReadDelta) || !Resolves(Now(), prev) || !Resolves(Now(), commit) {
        return false, next;
      }
      var rowsA, rowsB := contents[tags[prev]], contents[tags[commit]];
      var delta := DeltaBetween(rowsA, rowsB);
      SameScansNoDelta(Scan(rowsA), Scan(rowsB));
      ghost var before := contents[head];
      ok, next := ApplyDelta(head, delta, i, env);
      if !ok {
        return;
      }
      AppliedRowsScan(before, rowsA, rowsB, delta);
      label DeltaApplied:
      ghost var applied := next;
      if !boundary {
        ok, next := EnsureFts(next, i, env);
        GrownTwice(old(contents), old@DeltaApplied(contents), contents, head, applied);
      }
    }

    /** One more commit of phase 1. */
    method ReplayNext(
        ghost was: State, order: seq<Commit>, ghost at: seq<nat>, head: Ref, rebuild: string, ghost base: Docs,
        boundary: bool, i: nat, env: Environment) returns (ok: bool, next: Ref)
      requires was == State(branches, tags, was.contents)
      requires forall c :: c in tags ==> tags[c].branch != Some(rebuild)
      requires Progress(was, contents, order, rebuild, base, at) && i == |at| < |order|
      requires head == Ref(Some(rebuild), at[i - 1])
      modifies this`contents
      ensures Grown(was.contents, contents, Ref(Some(rebuild), at[0]))
      ensures ok ==> next.branch == Some(rebuild) && Progress(was, contents, order, rebuild, base, at + [next.version])
      ensures ok <==> StepFine(was, order[i - 1], order[i], boundary, i, env)
      ensures ok && !boundary ==> (next.version > head.version <==>
                SnapshotOf(was, order[i - 1]) != SnapshotOf(was, order[i]) || env.ftsAdvances(i))
    {
      SameSnapshot(was, contents, Ref(Some(rebuild), at[0]), order[i - 1]);
      SameSnapshot(was, contents, Ref(Some(rebuild), at[0]), order[i]);
      ok, next := ReplayStep(i, order[i - 1], order[i], head, boundary, env);
      GrownTwice(was.contents, old(contents), contents, Ref(Some(rebuild), at[0]), head);
      if ok {
        ProgressStep(was, old(contents), contents, order, rebuild, base, at, next.version);
      }
    }

    /** Phase 1: replay every commit after the first on the rebuild branch; no tag is touched. */
    method Replay(order: seq<Commit>, boundaries: set<nat>, rebuild: string, env: Environment)
      returns (ok: bool, retagPlan: seq<Move>, boundaryVersions: seq<Move>, ghost at: seq<nat>)
      requires order != [] && order[0] in tags
      requires IsHead(contents, Ref(Some(rebuild), tags[order[0]].version))
      requires forall c :: c in tags ==> tags[c].branch != Some(rebuild)
      modifies this`contents
      ensures Grown(old(contents), contents, Ref(Some(rebuild), tags[order[0]].version))
      ensures ok ==> |at| == |order| && at[0] == tags[order[0]].version
      ensures ok ==> Progress(old(Now()), contents, order, rebuild, Scan(old(contents)[Ref(Some(rebuild), at[0])]), at)
      ensures ok <==> StepsFine(old(Now()), order, boundaries, env)
      ensures ok ==> SecondIsNewer(old(Now()), order, boundaries, env, at)
      ensures ok ==> retagPlan == PlanUpTo(order, at, Intermediates(|order|, boundaries), |order|)
      ensures ok ==> boundaryVersions == PlanUpTo(order, at, boundaries - {0}, |order|)
    {
      ghost var was := Now();
      var head := Ref(Some(rebuild), tags[order[0]].version);
      ghost var start := head;
      ghost var base := Scan(contents[head]);
      at := [head.version];
      retagPlan, boundaryVersions := [], [];
      ok := true;
      var i := 1;
      while i < |order|
        invariant 1 <= i <= |order| && |at| == i && at[0] == start.version && head == Ref(Some(rebuild), at[i - 1])
        invariant Progress(was, contents, order, rebuild, base, at)
        invariant StepsFineTo(was, order, boundaries, env, i)
        invariant SecondIsNewer(was, order, boundaries, env, at)
        invariant PlansAt(order, at, boundaries, retagPlan, boundaryVersions)
      {
        var next: Ref;
        ok, next := ReplayNext(was, order, at, head, rebuild, base, i in boundaries, i, env);
        if !ok {
          return;
        }
        PlansNext(order, at, boundaries, retagPlan, boundaryVersions, next.version);
        if i in boundaries {
          boundaryVersions := boundaryVersions + [(order[i], next.version)];
        } else {
          retagPlan := retagPlan + [(order[i], next.version)];
        }
        at := at + [next.version];
        head := next;
        i := i + 1;
      }
    }

    /** Phase 2: delete each planned tag wherever it is and recreate it on the rebuild branch. */
    method MoveTags(plan: seq<Move>, rebuild: string)
      modifies this`tags
      ensures tags == Retargeted(old(tags), plan, rebuild)
    {
      for j := 0 to |plan|
        invariant tags == Retargeted(old(tags), plan[..j], rebuild)
      {
        assert plan[..j + 1][..j] == plan[..j];
        tags := tags - {plan[j].0};
        tags := tags[plan[j].0 := Ref(Some(rebuild), plan[j].1)];
      }
      assert plan[..|plan|] == plan;
    }

    /** Phase 2b: boundary commits keep their tag unless it is on an older rebuild branch. */
    method MigrateBoundaryTags(plan: seq<Move>, rebuild: string)
      modifies this`tags
      ensures tags == Migrated(old(tags), plan, rebuild)
    {
      for j := 0 to |plan|
        invariant tags == Migrated(old(tags), plan[..j], rebuild)
      {
        assert plan[..j + 1][..j] == plan[..j];
        var commit := plan[j].0;
        if commit in tags && OnOldRebuild(tags[commit], rebuild) {
          tags := tags - {commit};
          tags := tags[commit := Ref(Some(rebuild), plan[j].1)];
        }
      }
      assert plan[..|plan|] == plan;
    }

    /** Phases 2 and 3: move the tags, delete the older rebuild branches, clean up; a deletion that fails is survived. */
    method Settle(
        retagPlan: seq<Move>, boundaryVersions: seq<Move>, rebuild: string,
        env: Environment, ghost was: State, ghost order: seq<Commit>, ghost boundaries: set<nat>, ghost at: seq<nat>)
      requires |at| == |order| && rebuild !in was.branches
      requires branches == was.branches + {rebuild} && tags == was.tags
      requires retagPlan == PlanUpTo(order, at, Intermediates(|order|, boundaries), |order|)
      requires boundaryVersions == PlanUpTo(order, at, boundaries - {0}, |order|)
      modifies this
      ensures Now() == SettledUnder(was, old(contents), order, boundaries, at, rebuild, env)
    {
      MoveTags(retagPlan, rebuild);
      MigrateBoundaryTags(boundaryVersions, rebuild);
      var older := Older(branches, rebuild);
      assert older == Older(was.branches, rebuild);
      var gone := set b | b in older && env.dropOk(b);
      assert gone == Dropped(was.branches, rebuild, env);
      DeleteBranches(gone);
      CleanUp(env.cleanUp);
    }

    /** All commits in version order, and the positions that keep their version: the boundaries but the last commit. */
    method PlanPositions() returns (order: seq<Commit>, positions: set<nat>)
      requires |tags| > 2
      ensures Planned(tags, order, positions)
    {
      var versions := Versions(tags);
      order := SortedByVersion(versions);
      assert versions.Keys == tags.Keys && |versions.Keys| == |versions|;
      var all, k := BoundaryPositions(|tags|);
      positions := all - {|tags| - 1};
      OrderLists(tags, order);
    }

    /** Fork the rebuild branch and run phase 1 on it; a failure takes the branch down again if it can. */
    method ForkAndReplay(order: seq<Commit>, positions: set<nat>, rebuild: string, env: Environment)
      returns (ok: bool, retagPlan: seq<Move>, boundaryVersions: seq<Move>, ghost at: seq<nat>)
      requires |order| > 2 && order[0] in tags && Unused(Now(), rebuild) && IsRebuild(rebuild)
      modifies this`branches, this`contents
      ensures !ok ==> Now() == old(Now()) || (!env.undoOk && DiedReplaying(old(Now()), Now()))
      ensures ok ==> |at| == |order| && at[0] == tags[order[0]].version && Ref(None, at[0]) in old(contents)
      ensures ok ==> Progress(Forked(old(Now()), rebuild, at[0]), contents, order, rebuild,
                              Scan(old(contents)[Ref(None, at[0])]), at)
      ensures ok <==> Ref(None, tags[order[0]].version) in old(contents) && StepsFine(old(Now()), order, positions, env)
      ensures ok ==> SecondIsNewer(old(Now()), order, positions, env, at)
      ensures ok ==> branches == old(branches) + {rebuild}
      ensures ok ==> retagPlan == PlanUpTo(order, at, Intermediates(|order|, positions), |order|)
      ensures ok ==> boundaryVersions == PlanUpTo(order, at, positions - {0}, |order|)
    {
      ghost var was := Now();
      at := [];
      retagPlan, boundaryVersions := [], [];
      var firstVersion := tags[order[0]].version;
      ok := CreateBranch(rebuild, firstVersion);
      if !ok {
        return;
      }
      assert Now() == Forked(was, rebuild, firstVersion);
      SameBeforeFork(was, rebuild, order, firstVersion);
      assert StepsFine(Now(), order, positions, env) <==> StepsFine(was, order, positions, env);
      ok, retagPlan, boundaryVersions, at := Replay(order, positions, rebuild, env);
      if !ok {
        assert Interrupted(was, Now(), rebuild, firstVersion, contents);
        if env.undoOk {
          ForkUndone(was, contents, rebuild, firstVersion);
          DeleteBranches({rebuild});
          assert branches == was.branches;
        }
      }
    }

    /**
     Delta-fork retagging. It succeeds iff main has the first commit's version
     number and the replay meets no failing step. A failure leaves the dataset
     as it was, or with an unreferenced rebuild branch that could not be deleted.
     Otherwise the dataset is compacted, but for deletions that fail: what those
     leave a later clean-up removes, unless an older rebuild branch that holds
     the first commit could not be deleted; then no commit is lost.
     */
    method RetagWithDeltaForks(rebuild: string, env: Environment)
      returns (result: Outcome, ghost order: seq<Commit>, ghost boundaries: set<nat>, ghost at: seq<nat>)
      requires IsRebuild(rebuild) && Unused(Now(), rebuild)
      modifies this
      ensures |old(tags)| <= 2 ==> result == Retagged(|old(tags)|, 0) && Now() == old(Now())
      ensures |old(tags)| > 2 ==> Planned(old(tags), order, boundaries)
      ensures |old(tags)| > 2 ==> RetagOutcome(old(Now()), Now(), result, rebuild, order, boundaries, at, env)
    {
      order, boundaries, at := [], {}, [];
      if |tags| <= 2 {
        return Retagged(|tags|, 0), order, boundaries, at;
      }
      var sorted, positions := PlanPositions();
      order, boundaries := sorted, positions;
      result, at := RetagPlanned(sorted, positions, rebuild, env);
    }

    /** The same for a given plan: commits of one version may come in either order. */
    method RetagPlanned(order: seq<Commit>, positions: set<nat>, rebuild: string, env: Environment)
      returns (result: Outcome, ghost at: seq<nat>)
      requires IsRebuild(rebuild) && Unused(Now(), rebuild) && |tags| > 2 && Planned(tags, order, positions)
      modifies this
      ensures RetagOutcome(old(Now()), Now(), result, rebuild, order, positions, at, env)
    {
      ghost var was := Now();
      OneIsNoBoundary();
      var ok, retagPlan, boundaryVersions;
      ok, retagPlan, boundaryVersions, at := ForkAndReplay(order, positions, rebuild, env);
      if !ok {
        return Failed, at;
      }
      ghost var replayed := contents;
      SettledState(was, replayed, order, positions, at, rebuild);
      if FirstLetsGo(was, order, env) {
        SettledBut(was, replayed, order, positions, at, rebuild, env);
      } else {
        SettledHeld(was, replayed, order, positions, at, rebuild, env);
      }
      if AllDropped(env) {
        SettledFully(was, replayed, order, positions, at, rebuild, env);
      }
      PlanLength(order, at, Intermediates(|order|, positions), |order|);
      Settle(retagPlan, boundaryVersions, rebuild, env, was, order, positions, at);
      result := Retagged(|order|, |retagPlan|);
    }
  }

  /** The wanted positions below n. */
  function Below(wanted: set<nat>, n: nat): set<nat> {
    set i | i in wanted && i < n
  }

  lemma {:induction false} PlanLength(order: seq<Commit>, at: seq<nat>, wanted: set<nat>, n: nat)
    requires n <= |at| <= |order|
    ensures |PlanUpTo(order, at, wanted, n)| == |Below(wanted, n)|
    ensures (forall i :: i in wanted ==> i < n) ==> Below(wanted, n) == wanted
  {
    if n == 0 {
      assert Below(wanted, n) == {};
    } else {
      PlanLength(order, at, wanted, n - 1);
      assert Below(wanted, n) == Below(wanted, n - 1) + (if n - 1 in wanted then {n - 1} else {});
    }
  }

  /** Positions that get retagged: all but the first and the boundaries. */
  function Intermediates(total: nat, boundaries: set<nat>): set<nat> {
    set i | 0 < i < total && i !in boundaries
  }

  // ── What a compaction means ────────────────────────────────────────────────

  lemma PositionInOrder(s: State, order: seq<Commit>, c: Commit) returns (i: nat)
    requires VersionOrder(order, Versions(s.tags)) && c in s.tags
    ensures i < |order| && order[i] == c
  {
    assert c in Versions(s.tags).Keys && c in order;
    i :| i < |order| && order[i] == c;
  }

  /** No commit is lost iff the lowest-version commit was not tagged on a rebuild branch. */
  lemma CommitsSurvive(s: State, t: State, rebuild: string, order: seq<Commit>, boundaries: set<nat>, at: seq<nat>)
    requires Compacted(s, t, rebuild, order, boundaries, at)
    ensures t.tags.Keys == s.tags.Keys <==> !OnRebuild(s.tags[order[0]])
    ensures forall c :: c in s.tags && c != order[0] ==> c in t.tags
  {
    assert Resolves(s, order[0]);
  }

  const OLDER_REBUILD := COMPACT_REBUILD_PREFIX + "1"
  const NEWER_REBUILD := COMPACT_REBUILD_PREFIX + "2"

  /** Nothing fails. */
  ghost predicate Calm(env: Environment) {
    (forall i, step :: env.stepOk(i, step)) && AllDropped(env)
  }

  /** Nothing fails, and every full-text indexing writes a version. */
  const CALM := Environment((_: nat, _: Step) => true, (_: nat) => true, true, (_: string) => true, ALL_DELETED)

  /** Nothing fails, and no full-text indexing writes a version. */
  const QUIET := Environment((_: nat, _: Step) => true, (_: nat) => false, true, (_: string) => true, ALL_DELETED)

  lemma RebuildNamesDiffer()
    ensures NEWER_REBUILD != OLDER_REBUILD && IsRebuild(NEWER_REBUILD) && IsRebuild(OLDER_REBUILD) && !IsRebuild("dev")
  {
    var n := |COMPACT_REBUILD_PREFIX|;
    assert NEWER_REBUILD[n] == '2' && OLDER_REBUILD[n] == '1';
    assert NEWER_REBUILD[..n] == OLDER_REBUILD[..n] == COMPACT_REBUILD_PREFIX;
  }

  /** When commit x has the one lowest version, every plan starts with it. */
  lemma LowestComesFirst(tags: map<Commit, Ref>, order: seq<Commit>, x: Commit)
    requires VersionOrder(order, Versions(tags)) && x in tags
    requires forall c :: c in tags && c != x ==> tags[x].version < tags[c].version
    ensures order != [] && order[0] == x
  {
    FirstIsLeast(tags, order, x);
  }

  lemma FirstIsLeast(tags: map<Commit, Ref>, order: seq<Commit>, c: Commit)
    requires VersionOrder(order, Versions(tags)) && c in tags
    ensures order != [] && order[0] in tags && tags[order[0]].version <= tags[c].version
  {
    var i := PositionInOrder(State({}, tags, map[]), order, c);
    assert order[0] in order && order[i] in order;
    assert i == 0 || Versions(tags)[order[0]] <= Versions(tags)[order[i]];
  }

  /** A dataset that can be compacted, with one commit of lowest version. */
  ghost predicate StartsWith(s: State, x: Commit) {
    && |s.tags| > 2 && x in s.tags && Ref(None, s.tags[x].version) in s.contents
    && (forall c :: c in s.tags ==> Resolves(s, c))
    && (forall c :: c in s.tags && c != x ==> s.tags[x].version < s.tags[c].version)
  }

  /** A compaction in which nothing fails always succeeds on such a dataset. */
  method CompactCalmly(s: State, x: Commit, rebuild: string)
    returns (ds: Dataset, ghost order: seq<Commit>, ghost boundaries: set<nat>, ghost at: seq<nat>)
    requires StartsWith(s, x) && IsRebuild(rebuild) && Unused(s, rebuild)
    ensures fresh(ds) && Compacted(s, ds.Now(), rebuild, order, boundaries, at) && order[0] == x
  {
    ds := new Dataset(s);
    var result;
    result, order, boundaries, at := ds.RetagWithDeltaForks(rebuild, CALM);
    LowestComesFirst(s.tags, order, x);
    CalmSteps(s, order, boundaries, CALM);
  }

  /** If that commit is on a rebuild branch, it is gone. */
  method LoseLowest(s: State, x: Commit, rebuild: string) returns (ds: Dataset)
    requires StartsWith(s, x) && IsRebuild(rebuild) && Unused(s, rebuild) && OnRebuild(s.tags[x])
    ensures fresh(ds) && ds.tags.Keys == s.tags.Keys - {x}
  {
    ghost var order, boundaries, at;
    ds, order, boundaries, at := CompactCalmly(s, x, rebuild);
  }

  /** Where every commit resolves and nothing fails, every replay step is fine. */
  lemma CalmSteps(s: State, order: seq<Commit>, boundaries: set<nat>, env: Environment)
    requires Lists(order, s.tags) && forall c :: c in s.tags ==> Resolves(s, c)
    requires Calm(env)
    ensures StepsFine(s, order, boundaries, env)
  {
  }

  /** Every tag left can be checked out, and clean-up and integrity check find nothing to do. */
  lemma CompactedIsClean(s: State, t: State, rebuild: string, order: seq<Commit>, boundaries: set<nat>, at: seq<nat>)
    requires Compacted(s, t, rebuild, order, boundaries, at)
    ensures forall c :: c in t.tags ==> Resolves(t, c)
    ensures TagsAndBranchesOk(t)
    ensures CleanedUp(t) == t
  {
    forall c | c in t.tags ensures Resolves(t, c) {
      CompactedResolves(s, t, rebuild, order, boundaries, at, c);
    }
    RebuildIsReferenced(s, t, rebuild, order, boundaries, at);
    SingleRebuild(t, rebuild);
    CleanStateIsFixed(t);
  }

  lemma RebuildIsReferenced(s: State, t: State, rebuild: string, order: seq<Commit>, boundaries: set<nat>, at: seq<nat>)
    requires Compacted(s, t, rebuild, order, boundaries, at)
    ensures Referenced(t.tags, rebuild)
    ensures rebuild in t.branches && forall b :: b in t.branches && IsRebuild(b) ==> b == rebuild
  {
    LastIsOnRebuild(s, t.tags, rebuild, order, boundaries, at);
  }

  lemma LastIsOnRebuild(
      s: State, tags: map<Commit, Ref>, rebuild: string, order: seq<Commit>, boundaries: set<nat>, at: seq<nat>)
    requires |at| == |order| > 1 && Lists(order, s.tags) && |order| - 1 !in boundaries
    requires TagsCompacted(s, tags, rebuild, order, boundaries, at)
    ensures Referenced(tags, rebuild)
  {
    assert tags[order[|order| - 1]].branch == Some(rebuild);
  }

  lemma SingleRebuild(t: State, rebuild: string)
    requires forall b :: b in t.branches && IsRebuild(b) ==> b == rebuild
    ensures |set b | b in t.branches && IsRebuild(b)| <= 1
  {
    var rebuilds := set b | b in t.branches && IsRebuild(b);
    assert rebuilds <= {rebuild};
    SubsetSize(rebuilds, {rebuild});
  }

  /** A state without orphaned tags and stale rebuild branches is left alone. */
  lemma CleanStateIsFixed(t: State)
    requires Clean(t)
    ensures CleanedUp(t) == t
  {
    assert LiveTags(t.tags, t.branches) == t.tags;
    assert LiveBranches(t.branches, t.tags) == t.branches;
    assert WithoutBranches(t.contents, {}) == t.contents;
  }

  lemma CompactedResolves(
      s: State, t: State, rebuild: string, order: seq<Commit>, boundaries: set<nat>, at: seq<nat>, c: Commit)
    requires Compacted(s, t, rebuild, order, boundaries, at) && c in t.tags
    ensures Resolves(t, c)
  {
    var i := PositionInOrder(s, order, c);
    assert Resolves(s, order[i]);
    if i > 0 {
      assert t.tags[c] == FinalRef(s.tags[c], i, boundaries, rebuild, at[i]);
    }
  }

  /** Commit i kept its tag: it is the first, or a boundary no rebuild branch held. */
  predicate KeepsTag(s: State, order: seq<Commit>, boundaries: set<nat>, i: nat)
    requires i < |order| && order[i] in s.tags
  {
    i == 0 || (i in boundaries && !OnRebuild(s.tags[order[i]]))
  }

  /** The rows the replay starts from: main's at the first commit's version number. */
  function Base(s: State, order: seq<Commit>): Docs
    requires order != [] && order[0] in s.tags && Ref(None, s.tags[order[0]].version) in s.contents
  {
    Scan(s.contents[Ref(None, s.tags[order[0]].version)])
  }

  lemma MovedShowsRebuilt(
      s: State, t: State, rebuild: string, order: seq<Commit>, boundaries: set<nat>, at: seq<nat>, i: nat)
    requires Compacted(s, t, rebuild, order, boundaries, at) && i < |order|
    requires order[i] in t.tags && t.tags[order[i]] == Ref(Some(rebuild), at[i])
    ensures order[0] in s.tags && SnapshotOf(t, order[i]) == Rebuilt(Base(s, order), Snaps(s, order), i)
  {
    assert ShowsReplay(t.contents, rebuild, at[i], Base(s, order), Snaps(s, order), i);
  }

  /**
     Compaction and meaning: a commit that is still tagged shows what it showed
     iff it kept its tag, or every document comes out of the replay of main's
     rows right. Nothing is assumed of where the first commit is.
     */
  lemma CompactionKeepsSnapshots(
      s: State, t: State, rebuild: string, order: seq<Commit>, boundaries: set<nat>, at: seq<nat>, i: nat)
    requires Compacted(s, t, rebuild, order, boundaries, at) && i < |order| && order[i] in t.tags
    ensures order[0] in s.tags && order[i] in s.tags
    ensures SnapshotOf(t, order[i]) == SnapshotOf(s, order[i]) <==>
              KeepsTag(s, order, boundaries, i) || forall id :: ComesOut(Base(s, order), Snaps(s, order), i, id)
  {
    var c, snaps := order[i], Snaps(s, order);
    assert Resolves(s, c) && Resolves(s, order[0]);
    assert snaps[i] == SnapshotOf(s, c);
    if KeepsTag(s, order, boundaries, i) {
      assert t.tags[c] == s.tags[c];
      assert s.tags[c] in t.contents && t.contents[s.tags[c]] == s.contents[s.tags[c]];
    } else {
      MovedShowsRebuilt(s, t, rebuild, order, boundaries, at, i);
      ReplayFaithfulFrom(Base(s, order), snaps, i);
    }
  }

  /**
     If main's rows at the first commit's version number are the first commit's,
     as they are when it is tagged on main, then a moved commit shows what it
     showed iff none of its documents dropped a chunk since it was last added.
     */
  lemma CompactionFromRightBase(
      s: State, t: State, rebuild: string, order: seq<Commit>, boundaries: set<nat>, at: seq<nat>, i: nat)
    requires Compacted(s, t, rebuild, order, boundaries, at) && i < |order| && order[i] in t.tags
    requires order[0] in s.tags && order[i] in s.tags && Base(s, order) == SnapshotOf(s, order[0])
    ensures SnapshotOf(t, order[i]) == SnapshotOf(s, order[i]) <==>
              KeepsTag(s, order, boundaries, i) ||
              forall id :: id in SnapshotOf(s, order[i]) ==> NothingDropped(Snaps(s, order), i, id)
  {
    var snaps := Snaps(s, order);
    CompactionKeepsSnapshots(s, t, rebuild, order, boundaries, at, i);
    ReplayFaithfulFrom(snaps[0], snaps, i);
    ReplayFaithful(snaps, i);
  }

  const ROW := ChunkRow("d", 0, "text", Columns("T", 1, 0, 1, [], []))

  /**
     Three commits with the same one document. The first was pushed to a branch
     forked from the empty version 1 of main, where version 2 is empty, too.
     */
  const FIRST_ON_BRANCH := State(
    {"dev"},
    map["a" := Ref(Some("dev"), 2), "b" := Ref(None, 3), "c" := Ref(None, 4)],
    map[Ref(Some("dev"), 1) := [], Ref(Some("dev"), 2) := [ROW],
        Ref(None, 1) := [], Ref(None, 2) := [], Ref(None, 3) := [ROW], Ref(None, 4) := [ROW]])

  /**
     If main has no rows at the lowest version number and no commit changed
     anything, a commit loses all its documents when it is moved.
     */
  method HideUnchanged(s: State, x: Commit, docs: Docs, rebuild: string) returns (ds: Dataset)
    requires StartsWith(s, x) && IsRebuild(rebuild) && Unused(s, rebuild) && !OnRebuild(s.tags[x])
    requires s.contents[Ref(None, s.tags[x].version)] == []
    requires forall c :: c in s.tags ==> SnapshotOf(s, c) == docs
    ensures fresh(ds) && ds.tags.Keys == s.tags.Keys
    ensures forall c :: c in ds.tags ==> ds.tags[c] == s.tags[c] || SnapshotOf(ds.Now(), c) == map[]
    ensures |s.tags| == 3 ==> forall c :: c in ds.tags && c != x ==> SnapshotOf(ds.Now(), c) == map[]
  {
    ghost var order, boundaries, at;
    ds, order, boundaries, at := CompactCalmly(s, x, rebuild);
    forall c | c in ds.tags && (ds.tags[c] != s.tags[c] || (c != x && |s.tags| == 3)) ensures SnapshotOf(ds.Now(), c) == map[] {
      MovedShowsNothing(s, ds.Now(), docs, rebuild, order, boundaries, at, c);
    }
  }

  lemma MovedShowsNothing(
      s: State, t: State, docs: Docs, rebuild: string, order: seq<Commit>, boundaries: set<nat>, at: seq<nat>, c: Commit)
    requires Compacted(s, t, rebuild, order, boundaries, at) && c in t.tags
    requires s.contents[Ref(None, at[0])] == [] && forall d :: d in s.tags ==> SnapshotOf(s, d) == docs
    requires t.tags[c] != s.tags[c] || (c != order[0] && |s.tags| == 3)
    ensures SnapshotOf(t, c) == map[]
  {
    var i := MovedTo(s, t, rebuild, order, boundaries, at, c);
    MovedShowsRebuilt(s, t, rebuild, order, boundaries, at, i);
    assert forall j :: 0 <= j < |order| ==> Resolves(s, order[j]);
    assert Base(s, order) == map[];
    NothingFromNothing(docs, Snaps(s, order), i);
  }

  /** A tag that changed, or in three commits any but the first, is where the replay put it. */
  lemma MovedTo(
      s: State, t: State, rebuild: string, order: seq<Commit>, boundaries: set<nat>, at: seq<nat>, c: Commit)
    returns (i: nat)
    requires Compacted(s, t, rebuild, order, boundaries, at) && c in t.tags
    requires t.tags[c] != s.tags[c] || (c != order[0] && |s.tags| == 3)
    ensures 0 < i < |order| && order[i] == c && t.tags[c] == Ref(Some(rebuild), at[i])
  {
    i := PositionInOrder(s, order, c);
    OneIsNoBoundary();
    assert |order| == |Versions(s.tags).Keys| && Versions(s.tags).Keys == s.tags.Keys && |s.tags| == |s.tags.Keys|;
    assert i > 0;
    assert t.tags[order[i]] == FinalRef(s.tags[order[i]], i, boundaries, rebuild, at[i]);
  }

  /** Three commits with one unchanged document: afterwards two of them show none. */
  method HideDocuments() returns (ds: Dataset)
    ensures forall c :: c in FIRST_ON_BRANCH.tags ==> SnapshotOf(FIRST_ON_BRANCH, c) == map["d" := {(0, "text")}]
    ensures fresh(ds) && ds.tags.Keys == {"a", "b", "c"}
    ensures SnapshotOf(ds.Now(), "b") == map[] == SnapshotOf(ds.Now(), "c")
  {
    var s := FIRST_ON_BRANCH;
    ShowsRow(s);
    StartsOnBranch(s);
    ds := HideUnchanged(s, "a", map["d" := {(0, "text")}], NEWER_REBUILD);
  }

  lemma StartsOnBranch(s: State)
    requires s == FIRST_ON_BRANCH
    ensures s.tags.Keys == {"a", "b", "c"} && |s.tags| == 3 && StartsWith(s, "a")
    ensures !OnRebuild(s.tags["a"]) && s.contents[Ref(None, s.tags["a"].version)] == []
    ensures IsRebuild(NEWER_REBUILD) && Unused(s, NEWER_REBUILD)
  {
    BranchTags(s);
    RebuildNamesDiffer();
    OnlyDevIsUsed(s, NEWER_REBUILD);
  }

  lemma BranchTags(s: State)
    requires s == FIRST_ON_BRANCH
    ensures s.tags.Keys == {"a", "b", "c"} && |s.tags| == 3 && StartsWith(s, "a")
    ensures s.tags["a"].branch == Some("dev") && s.contents[Ref(None, s.tags["a"].version)] == []
  {
    assert s.tags.Keys == {"a", "b", "c"};
    assert |s.tags| == |s.tags.Keys|;
  }

  lemma OnlyDevIsUsed(s: State, rebuild: string)
    requires s == FIRST_ON_BRANCH && rebuild != "dev"
    ensures Unused(s, rebuild)
  {
  }

  lemma ShowsRow(s: State)
    requires s == FIRST_ON_BRANCH
    ensures forall c :: c in s.tags ==> SnapshotOf(s, c) == map["d" := {(0, "text")}]
  {
    assert ROW in [ROW];
    forall c | c in s.tags ensures SnapshotOf(s, c) == map["d" := {(0, "text")}] {
      assert s.contents[s.tags[c]] == [ROW];
      assert Pairs([ROW], "d") == {(0, "text")};
    }
  }

  /** Replaying unchanged snapshots from nothing gives nothing. */
  lemma {:induction false} NothingFromNothing(docs: Docs, snaps: seq<Docs>, i: nat)
    requires i < |snaps| && forall j :: 0 <= j < |snaps| ==> snaps[j] == docs
    ensures Rebuilt(map[], snaps, i) == map[]
  {
    if i > 0 {
      NothingFromNothing(docs, snaps, i - 1);
      SameScansNoDelta(docs, docs);
    }
  }

  // ── Many compactions ───────────────────────────────────────────────────────

  /** Below every tag on a rebuild branch there is one that is not on any; with a slack of 1 it may be at the same version. */
  ghost predicate AnchoredWithin(s: State, slack: nat) {
    forall d :: d in s.tags && OnRebuild(s.tags[d]) ==> exists c :: Anchors(s, c, s.tags[d].version, slack)
  }

  ghost predicate Anchored(s: State) {
    AnchoredWithin(s, 0)
  }

  ghost predicate Anchors(s: State, c: Commit, version: nat, slack: nat) {
    c in s.tags && !OnRebuild(s.tags[c]) && s.tags[c].version < version + slack
  }

  lemma FirstIsAnchor(s: State, order: seq<Commit>)
    requires VersionOrder(order, Versions(s.tags)) && |order| > 0 && order[0] in s.tags
    requires Anchored(s)
    ensures !OnRebuild(s.tags[order[0]])
  {
    if OnRebuild(s.tags[order[0]]) {
      var c :| Anchors(s, c, s.tags[order[0]].version, 0);
      var i := PositionInOrder(s, order, c);
      assert false;
    }
  }

  /** The tag table can be put in version order with any commit of least version first. */
  lemma {:induction false} OrderFrom(tags: map<Commit, nat>, x: Commit) returns (order: seq<Commit>)
    requires x in tags && forall c :: c in tags ==> tags[x] <= tags[c]
    ensures VersionOrder(order, tags) && order != [] && order[0] == x
    decreases |tags|
  {
    var rest := tags - {x};
    assert rest.Keys == tags.Keys - {x} && |rest| == |rest.Keys| && |tags| == |tags.Keys|;
    var later: seq<Commit> := [];
    if |rest.Keys| > 0 {
      var y := LeastVersion(rest);
      later := OrderFrom(rest, y);
    }
    order := [x] + later;
    ConsEnumerates(x, later, tags.Keys);
    ConsSorted(tags, x, later);
  }

  lemma ConsEnumerates<T(!new)>(x: T, later: seq<T>, all: set<T>)
    requires x in all && Enumerates(later, all - {x})
    ensures Enumerates([x] + later, all)
  {
    var s := [x] + later;
    forall i, j | 0 <= i < j < |s| ensures s[i] != s[j] {
      assert s[j] == later[j - 1] && later[j - 1] in later;
    }
    forall y ensures y in s <==> y in all {
      assert y in s <==> y == x || y in later;
    }
  }

  lemma ConsSorted(tags: map<Commit, nat>, x: Commit, later: seq<Commit>)
    requires x in tags && (forall c :: c in tags ==> tags[x] <= tags[c])
    requires VersionOrder(later, tags - {x})
    ensures var s := [x] + later;
            forall i, j :: 0 <= i < j < |s| ==> s[i] in tags && s[j] in tags && tags[s[i]] <= tags[s[j]]
  {
    var s := [x] + later;
    forall i | 0 <= i < |later| ensures later[i] in tags && (tags - {x})[later[i]] == tags[later[i]] {
      assert later[i] in later;
    }
    forall i, j | 0 <= i < j < |s| ensures s[i] in tags && s[j] in tags && tags[s[i]] <= tags[s[j]] {
      assert s[j] == later[j - 1];
      assert i > 0 ==> s[i] == later[i - 1];
    }
  }

  lemma {:induction false} LeastVersion(tags: map<Commit, nat>) returns (x: Commit)
    requires |tags.Keys| > 0
    ensures x in tags && forall c :: c in tags ==> tags[x] <= tags[c]
    decreases |tags|
  {
    x :| x in tags;
    var rest := tags - {x};
    assert rest.Keys == tags.Keys - {x} && |rest| == |rest.Keys| && |tags| == |tags.Keys|;
    if |rest.Keys| > 0 {
      var y := LeastVersion(rest);
      forall c | c in tags && c != x ensures tags[y] <= tags[c] {
        assert c in rest;
      }
      if tags[y] < tags[x] {
        x := y;
      }
    }
  }

  /** However the next compaction breaks ties, the first commit of its plan is not on a rebuild branch. */
  ghost predicate NextIsSafe(s: State) {
    forall order :: VersionOrder(order, Versions(s.tags)) && order != [] && order[0] in s.tags ==> !OnRebuild(s.tags[order[0]])
  }

  /** A state is anchored iff no compaction of it can lose a commit. */
  lemma AnchoredIffSafe(s: State)
    ensures Anchored(s) <==> NextIsSafe(s)
  {
    if Anchored(s) {
      forall order | VersionOrder(order, Versions(s.tags)) && order != [] && order[0] in s.tags ensures !OnRebuild(s.tags[order[0]]) {
        FirstIsAnchor(s, order);
      }
    } else {
      var d :| d in s.tags && OnRebuild(s.tags[d]) && forall c :: !Anchors(s, c, s.tags[d].version, 0);
      var vs := Versions(s.tags);
      assert d in vs.Keys;
      var m := LeastVersion(vs);
      var x := if OnRebuild(s.tags[m]) then m else d;
      assert !Anchors(s, m, s.tags[d].version, 0);
      assert vs[m] <= vs[d];
      var order := OrderFrom(vs, x);
      assert OnRebuild(s.tags[order[0]]);
    }
  }

  /**
     A lossless compaction is followed by another whatever ties it breaks, iff
     its replay of the second commit wrote a version.
     */
  lemma CompactionKeepsAnchor(s: State, t: State, rebuild: string, order: seq<Commit>, boundaries: set<nat>, at: seq<nat>)
    requires Compacted(s, t, rebuild, order, boundaries, at) && Anchored(s)
    ensures t.tags.Keys == s.tags.Keys
    ensures Anchored(t) <==> at[0] < at[1]
    ensures NextIsSafe(t) <==> at[0] < at[1]
  {
    assert Resolves(s, order[0]);
    FirstIsAnchor(s, order);
    CommitsSurvive(s, t, rebuild, order, boundaries, at);
    AnchoredIffSafe(t);
    if at[0] < at[1] {
      forall d | d in t.tags && OnRebuild(t.tags[d]) ensures Anchors(t, order[0], t.tags[d].version, 0) {
        var i := PositionInOrder(s, order, d);
        assert t.tags[order[i]] == FinalRef(s.tags[order[i]], i, boundaries, rebuild, at[i]);
        assert at[1] <= at[i];
      }
    } else {
      OneIsNoBoundary();
      assert t.tags[order[1]] == Ref(Some(rebuild), at[1]);
      if Anchored(t) {
        var c :| Anchors(t, c, at[1], 0);
        NothingBelowFirst(s, t, rebuild, order, boundaries, at, c);
      }
    }
  }

  lemma NothingBelowFirst(
      s: State, t: State, rebuild: string, order: seq<Commit>, boundaries: set<nat>, at: seq<nat>, c: Commit)
    requires Compacted(s, t, rebuild, order, boundaries, at) && c in t.tags
    ensures at[0] <= t.tags[c].version
  {
    var i := PositionInOrder(s, order, c);
    assert order[0] in order && order[i] in order;
    assert i == 0 || Versions(s.tags)[order[0]] <= Versions(s.tags)[order[i]];
    if i > 0 {
      assert t.tags[order[i]] == FinalRef(s.tags[order[i]], i, boundaries, rebuild, at[i]);
      assert at[0] <= at[i];
    }
  }

  /** A push: one new commit, tagged off any rebuild branch; nothing existing changes. */
  ghost predicate Pushed(s: State, t: State) {
    && s.branches <= t.branches && (forall b :: b in t.branches - s.branches ==> !IsRebuild(b))
    && (forall r :: r in s.contents ==> r in t.contents && t.contents[r] == s.contents[r])
    && exists c :: c in t.tags && c !in s.tags && t.tags == s.tags[c := t.tags[c]] && !OnRebuild(t.tags[c]) && Resolves(t, c)
  }

  /** A compaction, deletions that failed aside, that replayed the second commit to a new version. */
  ghost predicate CompactedBy(s: State, t: State) {
    exists rebuild, order, boundaries, at :: CompactedBut(s, t, rebuild, order, boundaries, at) && at[0] < at[1]
  }

  /** Any compaction that loses no commit. */
  ghost predicate CompactedLosslessly(s: State, t: State) {
    exists rebuild, order, boundaries, at ::
      CompactedBut(s, t, rebuild, order, boundaries, at) && !OnRebuild(s.tags[order[0]])
  }

  /** Pruning takes versions away that no tag is on. */
  ghost predicate Pruned(s: State, t: State) {
    && t.branches == s.branches && t.tags == s.tags
    && (forall r :: r in t.contents ==> r in s.contents && t.contents[r] == s.contents[r])
    && (forall c :: c in s.tags && s.tags[c] in s.contents ==> s.tags[c] in t.contents)
  }

  lemma PruningKeepsSnapshots(s: State, t: State)
    requires Pruned(s, t)
    ensures forall c :: (Resolves(t, c) <==> Resolves(s, c)) && SnapshotOf(t, c) == SnapshotOf(s, c)
  {
    forall c ensures (Resolves(t, c) <==> Resolves(s, c)) && SnapshotOf(t, c) == SnapshotOf(s, c) {
      if c in s.tags && s.tags[c] in s.contents {
        assert s.tags[c] in t.contents;
      }
    }
  }

  /** The clean-up at the next start leaves what it would have left of the dataset before the compaction. */
  lemma CleanUpAfterInterruption(s: State, t: State, rebuild: string, v: nat, grown: Contents)
    requires Interrupted(s, t, rebuild, v, grown)
    ensures CleanedUp(t) == CleanedUp(s)
    ensures Clean(s) ==> CleanedUp(t) == s
  {
    ForkUndone(s, grown, rebuild, v);
    assert LiveTags(t.tags, t.branches) == LiveTags(s.tags, s.branches);
    var tags := LiveTags(s.tags, s.branches);
    assert !Referenced(tags, rebuild);
    var live := LiveBranches(s.branches, tags);
    assert LiveBranches(t.branches, tags) == live;
    var gone := s.branches - live;
    assert t.branches - live == gone + {rebuild};
    assert WithoutBranches(grown, gone + {rebuild}) == WithoutBranches(WithoutBranches(grown, {rebuild}), gone);
    if Clean(s) {
      CleanStateIsFixed(s);
    }
  }

  /** Every step but compactions and deletions. */
  ghost predicate Uneventful(s: State, t: State) {
    t == s || Pushed(s, t) || DiedReplaying(s, t) || t == CleanedUp(s) || Pruned(s, t)
  }

  ghost predicate Transition(s: State, t: State) {
    Uneventful(s, t) || CompactedBy(s, t)
  }

  ghost predicate HealthyWithin(s: State, slack: nat) {
    AnchoredWithin(s, slack) && forall c :: c in s.tags ==> Resolves(s, c)
  }

  ghost predicate Healthy(s: State) {
    HealthyWithin(s, 0)
  }

  lemma TransitionKeepsHealth(s: State, t: State)
    requires Healthy(s) && Transition(s, t)
    ensures Healthy(t) && s.tags.Keys <= t.tags.Keys
  {
    if Uneventful(s, t) {
      UneventfulKeepsHealth(s, t, 0);
    } else {
      var rebuild, order, boundaries, at :| CompactedBut(s, t, rebuild, order, boundaries, at) && at[0] < at[1];
      var u := CleanedUp(t);
      assert Resolves(s, order[0]);
      FirstIsAnchor(s, order);
      CompactionKeepsAnchor(s, u, rebuild, order, boundaries, at);
      CompactedIsClean(s, u, rebuild, order, boundaries, at);
      HealthBeforeCleanUp(t, 0);
    }
  }

  lemma HealthBeforeCleanUp(t: State, slack: nat)
    requires HealthyWithin(CleanedUp(t), slack) && CleanedUp(t).tags == t.tags
    ensures HealthyWithin(t, slack)
  {
    var u := CleanedUp(t);
    forall c | c in t.tags ensures Resolves(t, c) { assert Resolves(u, c); }
    SameTagsSameAnchors(u, t, slack);
  }

  lemma SameTagsSameAnchors(s: State, t: State, slack: nat)
    requires t.tags == s.tags && AnchoredWithin(s, slack)
    ensures AnchoredWithin(t, slack)
  {
    forall d | d in t.tags && OnRebuild(t.tags[d]) ensures exists c :: Anchors(t, c, t.tags[d].version, slack) {
      var c :| Anchors(s, c, s.tags[d].version, slack);
      assert Anchors(t, c, t.tags[d].version, slack);
    }
  }

  lemma UneventfulKeepsHealth(s: State, t: State, slack: nat)
    requires HealthyWithin(s, slack) && Uneventful(s, t)
    ensures HealthyWithin(t, slack) && s.tags.Keys <= t.tags.Keys
  {
    if Pushed(s, t) {
      PushKeepsHealth(s, t, slack);
    } else if DiedReplaying(s, t) {
      InterruptionKeepsHealth(s, t, slack);
    } else if t == CleanedUp(s) {
      CleanUpKeepsHealth(s, slack);
    } else if Pruned(s, t) {
      PruningKeepsSnapshots(s, t);
      SameTagsSameAnchors(s, t, slack);
    }
  }

  lemma InterruptionKeepsHealth(s: State, t: State, slack: nat)
    requires HealthyWithin(s, slack) && DiedReplaying(s, t)
    ensures HealthyWithin(t, slack) && s.tags.Keys <= t.tags.Keys
  {
    var rebuild, v, grown :| Interrupted(s, t, rebuild, v, grown);
    forall c | c in t.tags ensures Resolves(t, c) {
      assert Resolves(s, c);
      assert s.tags[c] in Forked(s, rebuild, v).contents;
    }
    SameTagsSameAnchors(s, t, slack);
  }

  lemma PushKeepsHealth(s: State, t: State, slack: nat)
    requires HealthyWithin(s, slack) && Pushed(s, t)
    ensures HealthyWithin(t, slack) && s.tags.Keys <= t.tags.Keys
  {
    var p :| p in t.tags && p !in s.tags && t.tags == s.tags[p := t.tags[p]] && !OnRebuild(t.tags[p]) && Resolves(t, p);
    forall d | d in t.tags && OnRebuild(t.tags[d]) ensures exists c :: Anchors(t, c, t.tags[d].version, slack) {
      var c :| Anchors(s, c, s.tags[d].version, slack);
      assert Anchors(t, c, t.tags[d].version, slack);
    }
    forall c | c in t.tags ensures Resolves(t, c) {
      if c != p { assert Resolves(s, c); }
    }
  }

  lemma CleanUpKeepsHealth(s: State, slack: nat)
    requires HealthyWithin(s, slack)
    ensures HealthyWithin(CleanedUp(s), slack) && CleanedUp(s).tags == s.tags
  {
    var t := CleanedUp(s);
    forall c | c in s.tags ensures !Orphaned(s.tags[c], s.branches) { assert Resolves(s, c); }
    assert t.tags == s.tags;
    forall c | c in t.tags ensures Resolves(t, c) {
      assert Resolves(s, c);
      if s.tags[c].branch.Some? { assert Referenced(t.tags, s.tags[c].branch.value); }
    }
    SameTagsSameAnchors(s, t, slack);
  }

  /** What every step keeps, a run keeps. */
  lemma {:induction false} RunsKeep(run: seq<State>, i: nat, j: nat, good: State -> bool, step: (State, State) -> bool)
    requires i <= j < |run| && good(run[i])
    requires forall k :: i < k <= j ==> step(run[k - 1], run[k])
    requires forall s, t :: good(s) && step(s, t) ==> good(t) && s.tags.Keys <= t.tags.Keys
    ensures good(run[j]) && run[i].tags.Keys <= run[j].tags.Keys
    decreases j - i
  {
    if i < j {
      RunsKeep(run, i, j - 1, good, step);
      assert step(run[j - 1], run[j]);
    }
  }

  /** Over any run of such steps no commit is lost and every tag can be checked out. */
  lemma RunsLoseNoCommit(run: seq<State>, i: nat, j: nat)
    requires i <= j < |run| && Healthy(run[i])
    requires forall k :: i < k <= j ==> Transition(run[k - 1], run[k])
    ensures Healthy(run[j]) && run[i].tags.Keys <= run[j].tags.Keys
  {
    forall s, t | Healthy(s) && Transition(s, t) ensures Healthy(t) && s.tags.Keys <= t.tags.Keys {
      TransitionKeepsHealth(s, t);
    }
    RunsKeep(run, i, j, s => Healthy(s), (s, t) => Transition(s, t));
  }

  // ── The first loss ─────────────────────────────────────────────────────────

  /** A step that loses no commit and deletes none. */
  ghost predicate Lossless(s: State, t: State) {
    Uneventful(s, t) || CompactedLosslessly(s, t)
  }

  /** After such steps every tag on a rebuild branch has one off them that is no newer. */
  lemma LosslessKeepsFoundation(s: State, t: State)
    requires HealthyWithin(s, 1) && Lossless(s, t)
    ensures HealthyWithin(t, 1) && s.tags.Keys <= t.tags.Keys
  {
    if Uneventful(s, t) {
      UneventfulKeepsHealth(s, t, 1);
    } else {
      var rebuild, order, boundaries, at :| CompactedBut(s, t, rebuild, order, boundaries, at) && !OnRebuild(s.tags[order[0]]);
      var u := CleanedUp(t);
      CommitsSurvive(s, u, rebuild, order, boundaries, at);
      FirstIsFoundation(s, u, rebuild, order, boundaries, at);
      CompactedIsClean(s, u, rebuild, order, boundaries, at);
      HealthBeforeCleanUp(t, 1);
    }
  }

  lemma FirstIsFoundation(s: State, t: State, rebuild: string, order: seq<Commit>, boundaries: set<nat>, at: seq<nat>)
    requires Compacted(s, t, rebuild, order, boundaries, at) && !OnRebuild(s.tags[order[0]])
    ensures AnchoredWithin(t, 1)
  {
    assert Resolves(s, order[0]);
    forall d | d in t.tags && OnRebuild(t.tags[d]) ensures Anchors(t, order[0], t.tags[d].version, 1) {
      NothingBelowFirst(s, t, rebuild, order, boundaries, at, d);
    }
  }

  /**
     The first compaction of a run that loses a commit, if nothing was deleted
     before, loses it by a tie: a commit off the rebuild branches has the same
     version, and with that one first nothing would have been lost.
     */
  lemma FirstLossIsATie(
      run: seq<State>, t: State, rebuild: string, order: seq<Commit>, boundaries: set<nat>, at: seq<nat>) returns (c: Commit)
    requires |run| > 0 && HealthyWithin(run[0], 1) && forall k :: 0 < k < |run| ==> Lossless(run[k - 1], run[k])
    requires Compacted(run[|run| - 1], t, rebuild, order, boundaries, at)
    requires OnRebuild(run[|run| - 1].tags[order[0]])
    ensures var s := run[|run| - 1];
            c in s.tags && !OnRebuild(s.tags[c]) && s.tags[c].version == s.tags[order[0]].version
  {
    var s := run[|run| - 1];
    forall s, t | HealthyWithin(s, 1) && Lossless(s, t) ensures HealthyWithin(t, 1) && s.tags.Keys <= t.tags.Keys {
      LosslessKeepsFoundation(s, t);
    }
    RunsKeep(run, 0, |run| - 1, s => HealthyWithin(s, 1), (s, t) => Lossless(s, t));
    c :| Anchors(s, c, s.tags[order[0]].version, 1);
    FirstIsLeast(s.tags, order, c);
  }

  /** All commits were pushed to main and none was compacted yet. */
  predicate OnMain(s: State) {
    forall c :: c in s.tags ==> s.tags[c].branch == None
  }

  /** If the second commit was replayed to no new version, the next plan may start with it. */
  lemma TieCanComeFirst(s: State, t: State, rebuild: string, order: seq<Commit>, boundaries: set<nat>, at: seq<nat>)
    returns (next: seq<Commit>)
    requires OnMain(s) && Compacted(s, t, rebuild, order, boundaries, at) && at[0] == at[1]
    ensures VersionOrder(next, Versions(t.tags)) && next != [] && next[0] == order[1]
    ensures order[1] in t.tags && OnRebuild(t.tags[order[1]])
  {
    OneIsNoBoundary();
    assert t.tags[order[1]] == Ref(Some(rebuild), at[1]);
    forall c | c in t.tags ensures at[1] <= t.tags[c].version {
      NothingBelowFirst(s, t, rebuild, order, boundaries, at, c);
    }
    next := OrderFrom(Versions(t.tags), order[1]);
  }

  /** And a compaction along such a plan loses that commit, and no other. */
  lemma TieIsLost(
      s: State, t: State, rebuild: string, order: seq<Commit>, boundaries: set<nat>, at: seq<nat>,
      u: State, rebuild': string, order': seq<Commit>, boundaries': set<nat>, at': seq<nat>)
    requires OnMain(s) && Compacted(s, t, rebuild, order, boundaries, at)
    requires Compacted(t, u, rebuild', order', boundaries', at') && order'[0] == order[1]
    ensures u.tags.Keys == s.tags.Keys - {order[1]}
  {
    OneIsNoBoundary();
    assert Resolves(s, order[0]);
    assert t.tags[order[1]] == Ref(Some(rebuild), at[1]);
    CommitsSurvive(s, t, rebuild, order, boundaries, at);
    CommitsSurvive(t, u, rebuild', order', boundaries', at');
  }

  /** The dataset after a compaction in which the two oldest commits came to the same version. */
  lemma AfterTie(
      s: State, t: State, rebuild: string, order: seq<Commit>, boundaries: set<nat>, at: seq<nat>, other: string)
    requires OnMain(s) && Compacted(s, t, rebuild, order, boundaries, at) && at[0] == at[1]
    requires Unused(s, other) && other != rebuild
    ensures t.tags.Keys == s.tags.Keys && |t.tags| == |s.tags| && order[1] in t.tags
    ensures forall c :: c in t.tags ==> Resolves(t, c) && t.tags[order[1]].version <= t.tags[c].version
    ensures Ref(None, t.tags[order[1]].version) in t.contents && Unused(t, other)
  {
    OneIsNoBoundary();
    assert Resolves(s, order[0]);
    CommitsSurvive(s, t, rebuild, order, boundaries, at);
    assert |t.tags| == |t.tags.Keys| && |s.tags| == |s.tags.Keys|;
    assert t.tags[order[1]] == Ref(Some(rebuild), at[1]);
    CompactedIsClean(s, t, rebuild, order, boundaries, at);
    forall c | c in t.tags ensures at[0] <= t.tags[c].version {
      NothingBelowFirst(s, t, rebuild, order, boundaries, at, c);
    }
    OthersUnused(s, t, rebuild, order, boundaries, at, other);
  }

  /** A plan that starts with a given commit of least version. */
  method PlanFrom(tags: map<Commit, Ref>, x: Commit, positions: set<nat>) returns (order: seq<Commit>)
    requires x in tags && forall c :: c in tags ==> tags[x].version <= tags[c].version
    requires forall p: nat :: p in positions <==> p < |tags| - 1 && IsBoundary(p)
    ensures Planned(tags, order, positions) && order[0] == x
  {
    var versions := Versions(tags);
    var rest := versions - {x};
    assert rest.Keys == versions.Keys - {x};
    var later := SortedByVersion(rest);
    order := [x] + later;
    ConsEnumerates(x, later, versions.Keys);
    ConsSorted(versions, x, later);
    assert versions.Keys == tags.Keys && |tags| == |tags.Keys|;
    OrderLists(tags, order);
  }

  /**
     Two compactions of a dataset whose commits are all on main and whose two
     oldest show the same, nothing failing and indexing writing nothing: if the
     second plan starts with the second oldest, as it may, that commit is lost.
     */
  method LoseSecond(s: State, plan: seq<Commit>, positions: set<nat>, first: string, second: string) returns (ds: Dataset)
    requires |s.tags| > 2 && OnMain(s) && Planned(s.tags, plan, positions) && forall c :: c in s.tags ==> Resolves(s, c)
    requires SnapshotOf(s, plan[0]) == SnapshotOf(s, plan[1])
    requires first != second && IsRebuild(first) && IsRebuild(second) && Unused(s, first) && Unused(s, second)
    ensures fresh(ds) && ds.tags.Keys == s.tags.Keys - {plan[1]}
  {
    assert Resolves(s, plan[0]);
    ghost var at, at';
    ds, at := CompactAlong(s, plan, positions, first, QUIET);
    ghost var t := ds.Now();
    AfterTie(s, t, first, plan, positions, at, second);
    var other := PlanFrom(ds.tags, plan[1], positions);
    ds, at' := CompactAlong(ds.Now(), other, positions, second, QUIET);
    TieIsLost(s, t, first, plan, positions, at, ds.Now(), second, other, positions, at');
  }

  /** A compaction along a plan, with nothing failing. */
  method CompactAlong(s: State, plan: seq<Commit>, positions: set<nat>, rebuild: string, env: Environment)
    returns (ds: Dataset, ghost at: seq<nat>)
    requires |s.tags| > 2 && Planned(s.tags, plan, positions) && Ref(None, s.tags[plan[0]].version) in s.contents
    requires IsRebuild(rebuild) && Unused(s, rebuild) && Calm(env) && forall c :: c in s.tags ==> Resolves(s, c)
    ensures fresh(ds) && Compacted(s, ds.Now(), rebuild, plan, positions, at)
    ensures at[0] < at[1] <==> SecondWrites(s, plan, env)
  {
    ds := new Dataset(s);
    CalmSteps(s, plan, positions, env);
    var result;
    result, at := ds.RetagPlanned(plan, positions, rebuild, env);
  }

  /** A compaction uses no new branch name but its own. */
  lemma OthersUnused(
      s: State, t: State, rebuild: string, order: seq<Commit>, boundaries: set<nat>, at: seq<nat>, other: string)
    requires Compacted(s, t, rebuild, order, boundaries, at) && Unused(s, other) && other != rebuild
    ensures Unused(t, other)
  {
    forall c | c in t.tags ensures t.tags[c].branch != Some(other) {
      var i := PositionInOrder(s, order, c);
      if i > 0 {
        assert t.tags[order[i]] == FinalRef(s.tags[order[i]], i, boundaries, rebuild, at[i]);
      }
    }
  }

  const THREE_EMPTY := State(
    {}, map["a" := Ref(None, 1), "b" := Ref(None, 2), "c" := Ref(None, 3)],
    map[Ref(None, 1) := [], Ref(None, 2) := [], Ref(None, 3) := []])

  /** Three pushes without documents, and those two compactions. */
  method LoseSecondCommit() returns (ds: Dataset)
    ensures THREE_EMPTY.tags.Keys == {"a", "b", "c"} && fresh(ds) && ds.tags.Keys == {"a", "c"}
  {
    var s := THREE_EMPTY;
    var plan := ["a", "b", "c"];
    ThreePlanned(s, plan);
    AllOnMain(s);
    RebuildNamesDiffer();
    ds := LoseSecond(s, plan, {0}, OLDER_REBUILD, NEWER_REBUILD);
    assert {"a", "b", "c"} - {"b"} == {"a", "c"};
  }

  lemma ThreePlanned(s: State, plan: seq<Commit>)
    requires s == THREE_EMPTY && plan == ["a", "b", "c"]
    ensures s.tags.Keys == {"a", "b", "c"} && |s.tags| == 3 && Planned(s.tags, plan, {0})
  {
    assert s.tags.Keys == {"a", "b", "c"};
    PlannedInOrder(s.tags, "a", "b", "c", plan);
  }

  lemma AllOnMain(s: State)
    requires s == THREE_EMPTY
    ensures OnMain(s) && (forall c :: c in s.tags ==> Resolves(s, c)) && forall b :: Unused(s, b)
    ensures SnapshotOf(s, "a") == SnapshotOf(s, "b")
  {
  }

  lemma PlannedInOrder(tags: map<Commit, Ref>, a: Commit, b: Commit, c: Commit, plan: seq<Commit>)
    requires tags.Keys == {a, b, c} && a != b && a != c && b != c && plan == [a, b, c]
    requires tags[a].version <= tags[b].version <= tags[c].version
    ensures |tags| == 3 && Planned(tags, plan, {0})
  {
    assert |tags| == |tags.Keys| == |{a, b, c}| == 3;
    assert Versions(tags).Keys == tags.Keys;
    forall d ensures d in plan <==> d in {a, b, c} {}
    OneIsNoBoundary();
  }

  // ── Deleting a branch's index ──────────────────────────────────────────────

  /** Deleting a branch's index removes its tags; the rows stay. */
  function WithoutTagsOn(s: State, branch: Option<string>): State {
    s.(tags := map c | c in s.tags && s.tags[c].branch != branch :: s.tags[c])
  }

  /** Tags on rebuild branches that stay. */
  ghost predicate StaysOnRebuild(s: State, branch: Option<string>, d: Commit) {
    d in s.tags && OnRebuild(s.tags[d]) && s.tags[d].branch != branch
  }

  /** Some commit off the rebuild branches and off that branch is older than all of those, or there is none. */
  ghost predicate OldestStays(s: State, branch: Option<string>) {
    || (forall d :: !StaysOnRebuild(s, branch, d))
    || exists c :: c in s.tags && !OnRebuild(s.tags[c]) && s.tags[c].branch != branch
                   && forall d :: StaysOnRebuild(s, branch, d) ==> s.tags[c].version < s.tags[d].version
  }

  /** Deleting a branch's index leaves the dataset safe to compact iff an oldest commit stays. */
  lemma DeletionIsSafe(s: State, branch: Option<string>)
    ensures NextIsSafe(WithoutTagsOn(s, branch)) <==> OldestStays(s, branch)
  {
    AnchoredIffSafe(WithoutTagsOn(s, branch));
    if OldestStays(s, branch) {
      OldestAnchors(s, branch);
    } else if Anchored(WithoutTagsOn(s, branch)) {
      AnchorsOldest(s, branch);
    }
  }

  lemma OldestAnchors(s: State, branch: Option<string>)
    requires OldestStays(s, branch)
    ensures Anchored(WithoutTagsOn(s, branch))
  {
    var t := WithoutTagsOn(s, branch);
    forall d | d in t.tags && OnRebuild(t.tags[d]) ensures exists c :: Anchors(t, c, t.tags[d].version, 0) {
      assert StaysOnRebuild(s, branch, d);
      var c :| c in s.tags && !OnRebuild(s.tags[c]) && s.tags[c].branch != branch
               && forall d :: StaysOnRebuild(s, branch, d) ==> s.tags[c].version < s.tags[d].version;
      assert Anchors(t, c, t.tags[d].version, 0);
    }
  }

  lemma AnchorsOldest(s: State, branch: Option<string>)
    requires Anchored(WithoutTagsOn(s, branch))
    ensures OldestStays(s, branch)
  {
    if d :| StaysOnRebuild(s, branch, d) {
      var t := WithoutTagsOn(s, branch);
      var vs := map c | c in t.tags && OnRebuild(t.tags[c]) :: t.tags[c].version;
      assert d in vs.Keys;
      var m := LeastVersion(vs);
      var c :| Anchors(t, c, t.tags[m].version, 0);
      forall d | StaysOnRebuild(s, branch, d) ensures s.tags[c].version < s.tags[d].version {
        assert d in vs && vs[m] <= vs[d];
      }
    }
  }

  /** Once only rebuild tags are left, as when main's index is deleted, the next compaction loses exactly one commit. */
  lemma CompactionAfterDeletion(
      s: State, t: State, branch: Option<string>, rebuild: string, order: seq<Commit>, boundaries: set<nat>, at: seq<nat>)
    requires forall c :: c in s.tags && !OnRebuild(s.tags[c]) ==> s.tags[c].branch == branch
    requires Compacted(WithoutTagsOn(s, branch), t, rebuild, order, boundaries, at)
    ensures t.tags.Keys == WithoutTagsOn(s, branch).tags.Keys - {order[0]} && order[0] in WithoutTagsOn(s, branch).tags
  {
    CommitsSurvive(WithoutTagsOn(s, branch), t, rebuild, order, boundaries, at);
  }

  /** A deletion that leaves the dataset safe to compact. */
  ghost predicate IndexDeleted(s: State, t: State) {
    exists branch :: t == WithoutTagsOn(s, branch) && OldestStays(s, branch)
  }

  lemma DeletionKeepsHealth(s: State, t: State)
    requires Healthy(s) && IndexDeleted(s, t)
    ensures Healthy(t)
    ensures forall c :: c in s.tags && c !in t.tags ==> TakenByDeletion(s, t, c)
  {
    var branch :| t == WithoutTagsOn(s, branch) && OldestStays(s, branch);
    DeletionIsSafe(s, branch);
    AnchoredIffSafe(t);
    forall d | d in t.tags ensures Resolves(t, d) { assert Resolves(s, d); }
  }

  /** The step took the commit away, by deleting its branch's index. */
  ghost predicate TakenByDeletion(s: State, t: State, c: Commit) {
    c in s.tags && t == WithoutTagsOn(s, s.tags[c].branch)
  }

  ghost predicate TransitionOrDeletion(s: State, t: State) {
    Transition(s, t) || IndexDeleted(s, t)
  }

  lemma {:induction false} RunsStayHealthy(run: seq<State>, i: nat, j: nat)
    requires i <= j < |run| && Healthy(run[i]) && forall k :: i < k <= j ==> TransitionOrDeletion(run[k - 1], run[k])
    ensures Healthy(run[j])
    decreases j - i
  {
    if i < j {
      RunsStayHealthy(run, i, j - 1);
      StepStaysHealthy(run[j - 1], run[j], "");
    }
  }

  lemma StepStaysHealthy(s: State, t: State, c: Commit)
    requires Healthy(s) && TransitionOrDeletion(s, t)
    ensures Healthy(t) && (c in s.tags && c !in t.tags ==> TakenByDeletion(s, t, c))
  {
    if Transition(s, t) {
      TransitionKeepsHealth(s, t);
    } else {
      DeletionKeepsHealth(s, t);
    }
  }

  /** A commit that is gone was taken away by some step. */
  lemma {:induction false} LostAt(run: seq<State>, i: nat, j: nat, c: Commit) returns (k: nat)
    requires i <= j < |run| && c in run[i].tags && c !in run[j].tags
    ensures i < k <= j && c in run[k - 1].tags && c !in run[k].tags
    decreases j - i
  {
    if c in run[j - 1].tags {
      k := j;
    } else {
      k := LostAt(run, i, j - 1, c);
    }
  }

  /** With deletions that leave an oldest commit off the rebuild branches, a run loses deleted commits only. */
  lemma RunsLoseDeletedOnly(run: seq<State>, i: nat, j: nat, c: Commit)
    requires i <= j < |run| && Healthy(run[i]) && forall k :: i < k <= j ==> TransitionOrDeletion(run[k - 1], run[k])
    ensures Healthy(run[j])
    ensures c in run[i].tags && c !in run[j].tags ==> exists k :: i < k <= j && TakenByDeletion(run[k - 1], run[k], c)
  {
    RunsStayHealthy(run, i, j);
    if c in run[i].tags && c !in run[j].tags {
      var k := LostAt(run, i, j, c);
      RunsStayHealthy(run, i, k - 1);
      StepStaysHealthy(run[k - 1], run[k], c);
    }
  }
}
