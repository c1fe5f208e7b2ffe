/**
 Writing a push (src/store/lance/write.rs, src/service/mod.rs): delete, append,
 index, tag, with a crash possible before each; both pushes as a whole, and what
 they leave for every document.
 */
module CommitWrite {
  import opened Outcomes
  import opened Embedding
  import opened Snapshots
  import opened Pipeline
  import opened Push

  /** Where the process dies, if it does. */
  datatype Crash = Never | BeforeDelete | BeforeAppend | BeforeIndexing | BeforeTag

  function IdSet(ids: seq<DocId>): set<DocId> {
    set id | id in ids
  }

  /** The head after deleting and appending. */
  function Written(head: seq<ChunkRow>, c: Collected): seq<ChunkRow> {
    Without(head, IdSet(c.deletes)) + c.rows
  }

  /** The head a crash leaves behind. */
  function LeftAt(crash: Crash, head: seq<ChunkRow>, c: Collected): seq<ChunkRow> {
    match crash
    case BeforeDelete => head
    case BeforeAppend => Without(head, IdSet(c.deletes))
    case _ => Written(head, c)
  }

  /** One branch: the rows of every version, newest last, and the tagged versions. */
  class Branch {
    var versions: seq<seq<ChunkRow>>
    var tags: map<string, nat>

    predicate Valid()
      reads this
    {
      |versions| > 0
    }

    function Head(): seq<ChunkRow>
      requires Valid()
      reads this
    {
      versions[|versions| - 1]
    }

    /** `doc_id IN (…)`: all rows of the listed documents go, in a new version. */
    method Delete(ids: seq<DocId>)
      requires Valid()
      modifies this`versions
      ensures versions == old(versions) + [Without(old(Head()), IdSet(ids))]
    {
      versions := versions + [Without(Head(), IdSet(ids))];
    }

    method Append(rows: seq<ChunkRow>)
      requires Valid()
      modifies this`versions
      ensures versions == old(versions) + [old(Head()) + rows]
    {
      versions := versions + [Head() + rows];
    }

    /** Index builds and merges add versions with the same rows. */
    method Reindex(count: nat)
      requires Valid()
      modifies this`versions
      ensures Valid() && Head() == old(Head()) && |versions| == |old(versions)| + count && old(versions) <= versions
    {
      for i := 0 to count
        invariant Valid() && Head() == old(Head()) && |versions| == |old(versions)| + i && old(versions) <= versions
      {
        versions := versions + [Head()];
      }
    }

    /** At most two new versions, the delete before the append. */
    method DeleteThenAppend(c: Collected, crash: Crash) returns (alive: bool)
      requires Valid()
      modifies this`versions
      ensures Valid() && old(versions) <= versions && Head() == LeftAt(crash, old(Head()), c)
      ensures alive == !(crash in {BeforeDelete, BeforeAppend, BeforeIndexing})
      ensures alive ==> |versions| == |old(versions)| + (if c.deletes != [] then 1 else 0) + (if c.rows != [] then 1 else 0)
    {
      WithoutNone(Head());
      assert c.deletes == [] ==> IdSet(c.deletes) == {};
      if crash == BeforeDelete {
        return false;
      }
      if c.deletes != [] {
        Delete(c.deletes);
      }
      if crash == BeforeAppend {
        return false;
      }
      assert Head() + [] == Head();
      if c.rows != [] {
        Append(c.rows);
      }
      alive := crash != BeforeIndexing;
    }

    /**
       Delete, append, index and tag. The tag goes to the version that has the
       indices, before any merge; a commit that has a tag already is an error,
       but its rows are written. A crash or that error leaves the tags as they
       were; earlier versions never change.
       */
    method Write(commit: string, c: Collected, hasWork: bool, indexed: nat, merged: nat, crash: Crash)
      returns (r: Result<nat, PushError>)
      requires Valid() && hasWork == (c.rows != [] || c.deletes != [])
      modifies this
      ensures Valid() && old(versions) <= versions
      ensures Head() == LeftAt(crash, old(Head()), c)
      ensures r.Err? <==> crash != Never || commit in old(tags)
      ensures r.Err? ==> tags == old(tags) && r.error == if crash == Never then TagExists else Crashed
      ensures r.Ok? ==> tags == old(tags)[commit := r.value]
                        && r.value < |versions| && versions[r.value] == Written(old(Head()), c)
      ensures r.Ok? ==> |versions| == r.value + 1 + (if hasWork then merged else 0)
      ensures r.Ok? ==> r.value + 1 == |old(versions)| + (if c.deletes != [] then 1 else 0) + (if c.rows != [] then 1 else 0)
                                       + (if hasWork then indexed else 0)
    {
      var alive := DeleteThenAppend(c, crash);
      if !alive {
        return Err(Crashed);
      }
      var tagVersion := |versions| - 1;
      if hasWork {
        Reindex(indexed);
        tagVersion := |versions| - 1;
        Reindex(merged);
      }
      if crash == BeforeTag {
        return Err(Crashed);
      }
      if commit in tags {
        return Err(TagExists);
      }
      tags := tags[commit := tagVersion];
      r := Ok(tagVersion);
    }
  }

  // ── A push, by either pipeline ─────────────────────────────────────────────

  /** What a push of `ops` makes of a head, given what each document's embedding gave: nothing about the pipeline or the batch sizes. */
  function Pushed(ctx: Context, head: seq<ChunkRow>, ops: seq<Operation>, batches: seq<Batch>): seq<ChunkRow> {
    Written(head, CollectedBy(ctx, ops, batches))
  }

  lemma SameWrite(crash: Crash, head: seq<ChunkRow>, a: Collected, b: Collected)
    requires SameUpToOrder(a, b)
    ensures LeftAt(crash, head, a) == LeftAt(crash, head, b)
    ensures a.deletes == [] <==> b.deletes == []
  {
    assert forall id :: id in a.deletes <==> id in multiset(a.deletes);
    assert forall id :: id in b.deletes <==> id in multiset(b.deletes);
    assert IdSet(a.deletes) == IdSet(b.deletes);
    assert |a.deletes| == |multiset(a.deletes)| && |b.deletes| == |multiset(b.deletes)|;
  }

  /** A document's row list is never empty, so the two pipelines agree on whether there is anything to write. */
  lemma {:induction false} IndexedMeansRows(ctx: Context, answers: Answers, gives: Gives, docs: seq<DocToEmbed>, batches: seq<Batch>)
    requires Describes(ctx, answers, gives) && AllGiven(gives, docs, batches)
    requires forall i :: 0 <= i < |docs| ==> docs[i].chunks != []
    ensures Gathered(batches).indexed > 0 <==> Gathered(batches).rows != []
  {
    if docs != [] {
      var n := |docs| - 1;
      IndexedMeansRows(ctx, answers, gives, docs[..n], batches[..n]);
      assert Possible(ctx, answers, docs[n], batches[n]);
    }
  }

  lemma {:induction false} ChunksNotEmpty(ctx: Context, ops: seq<Operation>)
    ensures forall i :: 0 <= i < |DocsOf(ctx, ops)| ==> DocsOf(ctx, ops)[i].chunks != []
  {
    if ops != [] {
      ChunksNotEmpty(ctx, ops[..|ops| - 1]);
      var before, after := DocsOf(ctx, ops[..|ops| - 1]), DocsOf(ctx, ops);
      forall i | 0 <= i < |after| ensures after[i].chunks != [] {
        if i < |before| {
          assert after[..|before|][i] == before[i];
        }
      }
    }
  }

  /** The whole-list push. */
  method PushWhole(ctx: Context, branch: Branch, commit: string, ops: seq<Operation>, indexVersions: nat, merged: nat, crash: Crash,
                   ghost answers: Answers, ghost gives: Gives)
    returns (r: Result<(nat, seq<SkippedDoc>), PushError>, ghost batches: seq<Batch>)
    requires ctx.Configured(answers, gives) && ctx.cache.Agrees(answers) && branch.Valid()
    modifies ctx.provider`calls, ctx.clusteringProvider`calls, ctx.cache, branch
    ensures ctx.cache.Agrees(answers) && branch.Valid() && old(branch.versions) <= branch.versions
    ensures Abort in ops ==> r == Err(Aborted) && branch.versions == old(branch.versions)
    ensures Abort !in ops ==> AllGiven(gives, DocsOf(ctx, ops), batches)
    ensures Abort !in ops ==> branch.Head() == LeftAt(crash, old(branch.Head()), CollectedBy(ctx, ops, batches))
    ensures Abort !in ops ==> r == (if crash != Never then Err(Crashed) else if commit in old(branch.tags) then Err(TagExists)
                                    else Ok((CollectedBy(ctx, ops, batches).indexed, CollectedBy(ctx, ops, batches).skipped)))
    ensures r.Err? ==> branch.tags == old(branch.tags)
    ensures r.Ok? ==> commit in branch.tags && branch.tags == old(branch.tags)[commit := branch.tags[commit]]
                      && branch.tags[commit] < |branch.versions|
                      && branch.versions[branch.tags[commit]] == Pushed(ctx, old(branch.Head()), ops, batches)
                      && OldOrNew(ctx, answers, ops, old(branch.Head()), branch.versions[branch.tags[commit]])
  {
    var collected;
    collected, batches := CollectAll(ctx, ops, answers, gives);
    if collected.Err? {
      return Err(collected.error), batches;
    }
    var c := collected.value;
    var tagged := branch.Write(commit, c, c.rows != [] || c.deletes != [], indexVersions, merged, crash);
    r := if tagged.Ok? then Ok((c.indexed, c.skipped)) else Err(tagged.error);
    PushedRows(ctx, answers, gives, old(branch.Head()), ops, batches);
  }

  /**
     The streaming push: an abort or a truncated stream changes nothing stored;
     otherwise it does what the whole-list push does with those results.
     */
  method PushStream(ctx: Context, branch: Branch, commit: string, ops: seq<Operation>, expectedDocs: Option<nat>, microBatch: nat,
                    indexVersions: nat, merged: nat, crash: Crash, ghost answers: Answers, ghost gives: Gives)
    returns (r: Result<(nat, seq<SkippedDoc>), PushError>, ghost flushed: seq<Batch>, ghost batches: seq<Batch>)
    requires ctx.Configured(answers, gives) && ctx.cache.Agrees(answers) && branch.Valid() && microBatch > 0
    modifies ctx.provider`calls, ctx.clusteringProvider`calls, ctx.cache, branch
    ensures ctx.cache.Agrees(answers) && branch.Valid() && old(branch.versions) <= branch.versions
    ensures Abort in ops ==> r == Err(Aborted)
    ensures Abort !in ops ==> Streamed(ctx, gives, ops, microBatch, flushed)
    ensures Abort in ops || !Passes(ctx, ops, flushed, expectedDocs) ==> r.Err? && branch.versions == old(branch.versions)
    ensures Abort !in ops && !Passes(ctx, ops, flushed, expectedDocs) ==> r.error.Truncated?
    ensures Abort !in ops && Passes(ctx, ops, flushed, expectedDocs) ==>
              && flushed <= batches && AllGiven(gives, DocsOf(ctx, ops), batches)
              && branch.Head() == LeftAt(crash, old(branch.Head()), CollectedBy(ctx, ops, batches))
              && (r.Ok? <==> crash == Never && commit !in old(branch.tags))
              && (r.Err? ==> r == Err(if crash == Never then TagExists else Crashed))
    ensures r.Err? ==> branch.tags == old(branch.tags)
    ensures r.Ok? ==> r.value.0 == CollectedBy(ctx, ops, batches).indexed
                      && multiset(r.value.1) == multiset(CollectedBy(ctx, ops, batches).skipped)
    ensures r.Ok? ==> commit in branch.tags && branch.tags == old(branch.tags)[commit := branch.tags[commit]]
                      && branch.tags[commit] < |branch.versions|
                      && branch.versions[branch.tags[commit]] == Pushed(ctx, old(branch.Head()), ops, batches)
                      && OldOrNew(ctx, answers, ops, old(branch.Head()), branch.versions[branch.tags[commit]])
  {
    var run := new StreamRun(ctx, microBatch);
    var collected;
    collected, flushed, batches := run.Collect(ops, expectedDocs, answers, gives);
    if collected.Err? {
      return Err(collected.error), flushed, batches;
    }
    var c := collected.value;
    ghost var whole := CollectedBy(ctx, ops, batches);
    SameWrite(crash, branch.Head(), c, whole);
    SameWrite(Never, branch.Head(), c, whole);
    ChunksNotEmpty(ctx, ops);
    IndexedMeansRows(ctx, answers, gives, DocsOf(ctx, ops), batches);
    var tagged := branch.Write(commit, c, c.indexed > 0 || c.deletes != [], indexVersions, merged, crash);
    r := if tagged.Ok? then Ok((c.indexed, c.skipped)) else Err(tagged.error);
    PushedRows(ctx, answers, gives, old(branch.Head()), ops, batches);
  }

  /** Every row of the second version is one of the first, or new: the stored row of a chunk the operations bring. */
  ghost predicate OldOrNew(ctx: Context, answers: Answers, ops: seq<Operation>, before: seq<ChunkRow>, after: seq<ChunkRow>) {
    forall r :: r in after ==> r in before || IsNewRow(ctx, answers, ops, r)
  }

  lemma PushedRows(ctx: Context, answers: Answers, gives: Gives, head: seq<ChunkRow>, ops: seq<Operation>, batches: seq<Batch>)
    requires Describes(ctx, answers, gives) && AllGiven(gives, DocsOf(ctx, ops), batches)
    ensures OldOrNew(ctx, answers, ops, head, Pushed(ctx, head, ops, batches))
  {
    var c := CollectedBy(ctx, ops, batches);
    WithoutMembers(head, IdSet(c.deletes));
    forall r | r in Pushed(ctx, head, ops, batches) ensures r in head || IsNewRow(ctx, answers, ops, r) {
      if r in c.rows {
        RowsAreStored(ctx, answers, gives, ops, batches, r);
      }
    }
  }

  /** With providers that always answer a text the same way, both pushes leave the same rows. */
  lemma SamePush(ctx: Context, oracle: Oracle, gives: Gives, head: seq<ChunkRow>, ops: seq<Operation>, whole: seq<Batch>, streamed: seq<Batch>)
    requires Describes(ctx, AnswersOf(oracle), gives)
    requires AllGiven(gives, DocsOf(ctx, ops), whole)
    requires AllGiven(gives, DocsOf(ctx, ops), streamed)
    ensures Pushed(ctx, head, ops, whole) == Pushed(ctx, head, ops, streamed)
  {
    SameAnswersSameBatches(ctx, oracle, gives, DocsOf(ctx, ops), whole, streamed);
  }

  // ── Pushing again after a crash ────────────────────────────────────────────

  lemma {:induction false} WithoutJoin(a: seq<ChunkRow>, b: seq<ChunkRow>, ids: set<DocId>)
    ensures Without(a + b, ids) == Without(a, ids) + Without(b, ids)
  {
    if a == [] {
      assert a + b == b;
    } else {
      assert (a + b)[1..] == a[1..] + b;
      WithoutJoin(a[1..], b, ids);
    }
  }

  lemma {:induction false} WithoutTwice(rows: seq<ChunkRow>, ids: set<DocId>)
    ensures Without(Without(rows, ids), ids) == Without(rows, ids)
  {
    if rows != [] {
      WithoutTwice(rows[1..], ids);
      WithoutJoin(if rows[0].docId in ids then [] else [rows[0]], Without(rows[1..], ids), ids);
    }
  }

  lemma {:induction false} WithoutEmpties(rows: seq<ChunkRow>, ids: set<DocId>)
    ensures Without(rows, ids) == [] <==> forall i :: 0 <= i < |rows| ==> rows[i].docId in ids
  {
    if rows != [] {
      WithoutEmpties(rows[1..], ids);
      assert rows == [rows[0]] + rows[1..];
    }
  }

  lemma {:induction false} WithoutSame(rows: seq<ChunkRow>, gone: set<DocId>, ids: set<DocId>)
    ensures |Without(Without(rows, gone), ids)| <= |Without(rows, ids)|
    ensures Without(Without(rows, gone), ids) == Without(rows, ids)
            <==> forall r :: r in rows && r.docId in gone ==> r.docId in ids
  {
    if rows != [] {
      var first, rest := rows[0], rows[1..];
      WithoutSame(rest, gone, ids);
      assert rows == [first] + rest;
      assert forall r :: r in rows <==> r == first || r in rest;
      WithoutJoin(if first.docId in gone then [] else [first], Without(rest, gone), ids);
      var twice, once := Without(Without(rest, gone), ids), Without(rest, ids);
      if first.docId in ids {
        assert Without(Without(rows, gone), ids) == twice && Without(rows, ids) == once;
      } else if first.docId in gone {
        assert Without(Without(rows, gone), ids) == twice && Without(rows, ids) == [first] + once;
        assert first in rows;
      } else {
        assert Without(Without(rows, gone), ids) == [first] + twice && Without(rows, ids) == [first] + once;
        assert ([first] + twice)[1..] == twice && ([first] + once)[1..] == once;
      }
    }
  }

  /**
     A crash after the delete and before the append: the same operations pushed
     again, whatever their documents' embedding gives this time, make the head
     of an undisturbed push exactly when that push deletes again every document
     that lost rows. With the same results it does.
     */
  lemma RepushAfterDelete(ctx: Context, head: seq<ChunkRow>, ops: seq<Operation>, batches: seq<Batch>, again: seq<Batch>)
    ensures var c, d := CollectedBy(ctx, ops, batches), CollectedBy(ctx, ops, again);
            Pushed(ctx, LeftAt(BeforeAppend, head, c), ops, again) == Pushed(ctx, head, ops, again)
            <==> forall r :: r in head && r.docId in c.deletes ==> r.docId in d.deletes
    ensures Pushed(ctx, LeftAt(BeforeAppend, head, CollectedBy(ctx, ops, batches)), ops, batches) == Pushed(ctx, head, ops, batches)
  {
    var c, d := CollectedBy(ctx, ops, batches), CollectedBy(ctx, ops, again);
    WithoutSame(head, IdSet(c.deletes), IdSet(d.deletes));
    WithoutSame(head, IdSet(c.deletes), IdSet(c.deletes));
    var first, second := Without(Without(head, IdSet(c.deletes)), IdSet(d.deletes)), Without(head, IdSet(d.deletes));
    SameBefore(first, second, d.rows);
    forall id ensures (id in IdSet(c.deletes) <==> id in c.deletes) && (id in IdSet(d.deletes) <==> id in d.deletes) {}
  }

  lemma SameBefore(a: seq<ChunkRow>, b: seq<ChunkRow>, rows: seq<ChunkRow>)
    ensures a + rows == b + rows <==> a == b
  {
    if a + rows == b + rows {
      assert |a + rows| == |b + rows|;
      assert (a + rows)[..|a|] == a && (b + rows)[..|b|] == b;
    }
  }

  /**
     A crash after the append: pushing again with the same results gives the
     same head exactly when every appended document is one the push deletes
     first. An Inserted document is not, and gets its rows twice.
     */
  lemma RepushAfterAppend(ctx: Context, head: seq<ChunkRow>, ops: seq<Operation>, batches: seq<Batch>)
    ensures var c := CollectedBy(ctx, ops, batches);
            Pushed(ctx, LeftAt(BeforeIndexing, head, c), ops, batches) == Pushed(ctx, head, ops, batches)
            <==> forall i :: 0 <= i < |c.rows| ==> c.rows[i].docId in c.deletes
  {
    var c := CollectedBy(ctx, ops, batches);
    var ids := IdSet(c.deletes);
    WithoutJoin(Without(head, ids), c.rows, ids);
    WithoutTwice(head, ids);
    WithoutEmpties(c.rows, ids);
    var kept, again := Without(head, ids), Without(c.rows, ids);
    SameBefore(kept + again, kept, c.rows);
    assert kept + again == kept <==> again == [] by { assert |kept + again| == |kept| + |again|; }
    assert forall id :: id in ids <==> id in c.deletes;
  }

  // ── What a push leaves for one document ────────────────────────────────────

  /** What the i-th operation's document gave, if it has one that was embedded. */
  function DocBatch(ctx: Context, ops: seq<Operation>, batches: seq<Batch>, i: nat): Batch
    requires i < |ops|
  {
    var n := |DocsOf(ctx, ops[..i])|;
    if n < |DocsOf(ctx, ops[..i + 1])| && n < |batches| then batches[n] else NOTHING
  }

  predicate Mentions(op: Operation, id: DocId) {
    (op.Inserted? || op.Changed? || op.Deleted?) && op.id == id
  }

  /** A document's batch holds rows of that document only, and its id for deletion if it is a Changed one that was embedded. */
  lemma BatchOfOne(ctx: Context, answers: Answers, doc: DocToEmbed, batch: Batch)
    requires Possible(ctx, answers, doc, batch)
    ensures forall i :: 0 <= i < |batch.rows| ==> batch.rows[i].docId == doc.id
    ensures batch.changed == if doc.isChanged && batch.indexed > 0 then [doc.id] else []
    ensures batch.indexed == 0 ==> batch.rows == []
  {
  }

  /** What one more operation adds to the collected rows and deletions. */
  lemma CollectedStep(ctx: Context, ops: seq<Operation>, op: Operation, batches: seq<Batch>)
    requires |batches| == |DocsOf(ctx, ops + [op])|
    ensures |DocsOf(ctx, ops)| <= |batches|
    ensures var before, after := CollectedBy(ctx, ops, batches[..|DocsOf(ctx, ops)|]), CollectedBy(ctx, ops + [op], batches);
            var batch := DocBatch(ctx, ops + [op], batches, |ops|);
            && after.rows == before.rows + batch.rows
            && forall id :: id in after.deletes <==> id in before.deletes || id in batch.changed || op == Deleted(id)
  {
    DocsNext(ctx, ops, op);
    assert (ops + [op])[..|ops|] == ops && (ops + [op])[..|ops| + 1] == ops + [op];
    var n := |DocsOf(ctx, ops)|;
    if n == |batches| {
      assert batches[..n] == batches;
    }
  }

  lemma {:induction false} OnlyJoin(a: seq<ChunkRow>, b: seq<ChunkRow>, ids: set<DocId>)
    ensures Only(a + b, ids) == Only(a, ids) + Only(b, ids)
  {
    if a == [] {
      assert a + b == b;
    } else {
      assert (a + b)[1..] == a[1..] + b;
      OnlyJoin(a[1..], b, ids);
    }
  }

  lemma {:induction false} OnlyOf(rows: seq<ChunkRow>, of: DocId, id: DocId)
    requires forall i :: 0 <= i < |rows| ==> rows[i].docId == of
    ensures Only(rows, {id}) == if id == of then rows else []
  {
    if rows != [] {
      OnlyOf(rows[1..], of, id);
    }
  }

  lemma {:induction false} OnlyWithout(rows: seq<ChunkRow>, ids: set<DocId>, id: DocId)
    ensures Only(Without(rows, ids), {id}) == if id in ids then [] else Only(rows, {id})
  {
    if rows != [] {
      OnlyWithout(rows[1..], ids, id);
      OnlyJoin(if rows[0].docId in ids then [] else [rows[0]], Without(rows[1..], ids), {id});
    }
  }

  lemma {:induction false} OnlyAbsent(rows: seq<ChunkRow>, id: DocId)
    ensures id !in Ids(rows) ==> Only(rows, {id}) == []
  {
    if rows != [] {
      OnlyAbsent(rows[1..], id);
      assert rows[0] in rows && rows == [rows[0]] + rows[1..];
      assert forall r :: r in rows[1..] ==> r in rows;
    }
  }

  /** An earlier operation's batch is not changed by later ones. */
  lemma SameDocBatch(ctx: Context, ops: seq<Operation>, n: nat, batches: seq<Batch>, i: nat)
    requires i < n <= |ops| && |DocsOf(ctx, ops[..n])| <= |batches|
    ensures DocBatch(ctx, ops[..n], batches[..|DocsOf(ctx, ops[..n])|], i) == DocBatch(ctx, ops, batches, i)
  {
    assert ops[..n][..i] == ops[..i] && ops[..n][..i + 1] == ops[..i + 1];
    DocsGrow(ctx, ops[..n], i + 1);
  }

  lemma {:induction false} DocsGrow(ctx: Context, ops: seq<Operation>, i: nat)
    requires i <= |ops|
    ensures |DocsOf(ctx, ops[..i])| <= |DocsOf(ctx, ops)|
  {
    if i < |ops| {
      var n := |ops| - 1;
      assert ops == ops[..n] + [ops[n]] && ops[..n][..i] == ops[..i];
      DocsNext(ctx, ops[..n], ops[n]);
      DocsGrow(ctx, ops[..n], i);
    } else {
      assert ops[..i] == ops;
    }
  }

  /** What the operations collect for one document is what the operation that mentions it gave. */
  lemma {:induction false} CollectedFor(ctx: Context, answers: Answers, gives: Gives, ops: seq<Operation>, batches: seq<Batch>, id: DocId, at: Option<nat>)
    requires Describes(ctx, answers, gives) && AllGiven(gives, DocsOf(ctx, ops), batches)
    requires at.Some? ==> at.value < |ops|
    requires forall i :: 0 <= i < |ops| ==> (Mentions(ops[i], id) <==> at == Some(i))
    ensures var c := CollectedBy(ctx, ops, batches);
            && Only(c.rows, {id}) == (if at.Some? then DocBatch(ctx, ops, batches, at.value).rows else [])
            && (id in c.deletes <==> at.Some? && (ops[at.value].Deleted? || DocBatch(ctx, ops, batches, at.value).changed != []))
  {
    if ops != [] {
      var n := |ops| - 1;
      var earlier, op := ops[..n], ops[n];
      assert ops == earlier + [op];
      CollectedStep(ctx, earlier, op, batches);
      var mine := batches[..|DocsOf(ctx, earlier)|];
      DocsNext(ctx, earlier, op);
      CollectedFor(ctx, answers, gives, earlier, mine, id, if at == Some(n) then None else at);
      OnlyJoin(CollectedBy(ctx, earlier, mine).rows, DocBatch(ctx, ops, batches, n).rows, {id});
      BatchFor(ctx, answers, gives, ops, batches, n, id);
      if at.Some? && at.value < n {
        SameDocBatch(ctx, ops, n, batches, at.value);
      }
    }
  }

  lemma BatchFor(ctx: Context, answers: Answers, gives: Gives, ops: seq<Operation>, batches: seq<Batch>, i: nat, id: DocId)
    requires i < |ops| && Describes(ctx, answers, gives) && AllGiven(gives, DocsOf(ctx, ops), batches)
    ensures var op, batch := ops[i], DocBatch(ctx, ops, batches, i);
            && Only(batch.rows, {id}) == (if Mentions(op, id) then batch.rows else [])
            && (id in batch.changed <==> Mentions(op, id) && batch.changed != [])
            && (batch.changed != [] <==> op.Changed? && batch.indexed > 0)
            && (batch.indexed == 0 ==> batch.rows == [])
  {
    var op, n := ops[i], |DocsOf(ctx, ops[..i])|;
    assert ops[..i + 1] == ops[..i] + [op];
    DocsNext(ctx, ops[..i], op);
    if n < |DocsOf(ctx, ops[..i + 1])| {
      var doc := DocAt(ctx, ops, i);
      assert Possible(ctx, answers, doc, batches[n]);
      BatchOfOne(ctx, answers, doc, batches[n]);
      OnlyOf(batches[n].rows, op.id, id);
    }
  }

  /** The document of an operation that has one. */
  lemma DocAt(ctx: Context, ops: seq<Operation>, i: nat) returns (doc: DocToEmbed)
    requires i < |ops| && |DocsOf(ctx, ops[..i])| < |DocsOf(ctx, ops[..i + 1])|
    ensures |DocsOf(ctx, ops[..i])| < |DocsOf(ctx, ops)| && doc == DocsOf(ctx, ops)[|DocsOf(ctx, ops[..i])|]
    ensures (ops[i].Inserted? || ops[i].Changed?) && doc.id == ops[i].id && (doc.isChanged <==> ops[i].Changed?)
    ensures ctx.chunker(ops[i].text) == Ok(doc.chunks)
  {
    var n := |DocsOf(ctx, ops[..i])|;
    assert ops[..i + 1] == ops[..i] + [ops[i]];
    DocsNext(ctx, ops[..i], ops[i]);
    DocStays(ctx, ops, i + 1, n);
    doc := DocsOf(ctx, ops)[n];
  }

  lemma {:induction false} DocStays(ctx: Context, ops: seq<Operation>, i: nat, n: nat)
    requires i <= |ops| && n < |DocsOf(ctx, ops[..i])|
    ensures n < |DocsOf(ctx, ops)| && DocsOf(ctx, ops)[n] == DocsOf(ctx, ops[..i])[n]
  {
    if i < |ops| {
      var m := |ops| - 1;
      assert ops == ops[..m] + [ops[m]] && ops[..m][..i] == ops[..i];
      DocStays(ctx, ops[..m], i, n);
      DocsNext(ctx, ops[..m], ops[m]);
    } else {
      assert ops[..i] == ops;
    }
  }

  lemma OnlyPushed(ctx: Context, head: seq<ChunkRow>, ops: seq<Operation>, batches: seq<Batch>, id: DocId)
    ensures var c := CollectedBy(ctx, ops, batches);
            Only(Pushed(ctx, head, ops, batches), {id}) == (if id in c.deletes then [] else Only(head, {id})) + Only(c.rows, {id})
  {
    var c := CollectedBy(ctx, ops, batches);
    OnlyJoin(Without(head, IdSet(c.deletes)), c.rows, {id});
    OnlyWithout(head, IdSet(c.deletes), id);
  }

  /** What an operation makes of its document's rows, given what the document's embedding gave. */
  function AfterOperation(before: seq<ChunkRow>, op: Operation, batch: Batch): seq<ChunkRow> {
    if op.Deleted? then []
    else if batch.indexed == 0 then before
    else if op.Changed? then batch.rows
    else before + batch.rows
  }

  /**
     A document one operation mentions: deleted; or, if it was embedded,
     replaced whole when Changed and added when Inserted; or left as it was. A
     document none mentions is left as it was.
     */
  lemma DocumentAfterPush(ctx: Context, answers: Answers, gives: Gives, head: seq<ChunkRow>, ops: seq<Operation>, batches: seq<Batch>,
                          id: DocId, at: Option<nat>)
    requires Describes(ctx, answers, gives) && AllGiven(gives, DocsOf(ctx, ops), batches)
    requires at.Some? ==> at.value < |ops|
    requires forall i :: 0 <= i < |ops| ==> (Mentions(ops[i], id) <==> at == Some(i))
    ensures Only(Pushed(ctx, head, ops, batches), {id})
            == if at.None? then Only(head, {id})
               else AfterOperation(Only(head, {id}), ops[at.value], DocBatch(ctx, ops, batches, at.value))
    ensures id !in Ids(head) ==> Only(head, {id}) == []
    ensures at.Some? && DocBatch(ctx, ops, batches, at.value).indexed > 0 ==>
              RowsOfText(ctx, answers, ops[at.value], DocBatch(ctx, ops, batches, at.value).rows)
  {
    if at.Some? && DocBatch(ctx, ops, batches, at.value).indexed > 0 {
      BatchHasRows(ctx, answers, gives, ops, batches, at.value);
    }
    CollectedFor(ctx, answers, gives, ops, batches, id, at);
    OnlyPushed(ctx, head, ops, batches, id);
    OnlyAbsent(head, id);
    var before := Only(head, {id});
    assert before + [] == before;
    if at.Some? {
      BatchFor(ctx, answers, gives, ops, batches, at.value, id);
      NoBatch(ctx, ops, batches, at.value);
    }
  }

  /** One stored row for each chunk of the operation's text, in order. */
  ghost predicate RowsOfText(ctx: Context, answers: Answers, op: Operation, rows: seq<ChunkRow>) {
    && (op.Inserted? || op.Changed?) && ctx.chunker(op.text).Ok? && |rows| == |ctx.chunker(op.text).value|
    && forall k :: 0 <= k < |rows| ==> StoredRow(ctx, answers, op.id, ctx.chunker(op.text).value[k], rows[k])
  }

  lemma BatchHasRows(ctx: Context, answers: Answers, gives: Gives, ops: seq<Operation>, batches: seq<Batch>, i: nat)
    requires i < |ops| && Describes(ctx, answers, gives) && AllGiven(gives, DocsOf(ctx, ops), batches)
    requires DocBatch(ctx, ops, batches, i).indexed > 0
    ensures RowsOfText(ctx, answers, ops[i], DocBatch(ctx, ops, batches, i).rows)
  {
    var n := |DocsOf(ctx, ops[..i])|;
    var doc := DocAt(ctx, ops, i);
    assert Possible(ctx, answers, doc, batches[n]);
    BatchMeans(ctx, answers, doc, batches[n]);
  }

  /** Only documents to embed have a batch. */
  lemma NoBatch(ctx: Context, ops: seq<Operation>, batches: seq<Batch>, i: nat)
    requires i < |ops|
    ensures ops[i].Inserted? || ops[i].Changed? || DocBatch(ctx, ops, batches, i) == NOTHING
  {
    assert ops[..i + 1] == ops[..i] + [ops[i]];
    DocsNext(ctx, ops[..i], ops[i]);
  }
}
