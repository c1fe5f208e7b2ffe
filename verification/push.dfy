/**
 Collecting a push (src/service/mod.rs): the whole-list and the streaming run
 of the pipeline, and the check for truncated streams.
 */
module Push {
  import opened Outcomes
  import opened Embedding
  import opened Snapshots
  import opened Pipeline

  datatype PushError =
    | Aborted
    | Truncated(expected: nat, received: nat, first: Option<SkippedDoc>)
    | Crashed
    | TagExists

  /** What a run collects before it writes. */
  datatype Collected = Collected(rows: seq<ChunkRow>, deletes: seq<DocId>, indexed: nat, skipped: seq<SkippedDoc>)

  /** What the operations collect, given what each document's embedding gave. */
  function CollectedBy(ctx: Context, ops: seq<Operation>, batches: seq<Batch>): Collected {
    var taken := IntakeOf(ctx, ops);
    var batch := Gathered(batches);
    Collected(batch.rows, taken.deletes + batch.changed, batch.indexed, taken.skipped + batch.skipped)
  }

  /** The same rows in the same order, the same ids and skips in any order. */
  ghost predicate SameUpToOrder(a: Collected, b: Collected) {
    && a.rows == b.rows && a.indexed == b.indexed
    && multiset(a.deletes) == multiset(b.deletes) && multiset(a.skipped) == multiset(b.skipped)
  }

  // ── The whole-list run ─────────────────────────────────────────────────────

  method CollectAll(ctx: Context, ops: seq<Operation>, ghost answers: Answers, ghost gives: Gives)
    returns (r: Result<Collected, PushError>, ghost batches: seq<Batch>)
    requires ctx.Configured(answers, gives) && ctx.cache.Agrees(answers)
    modifies ctx.provider`calls, ctx.clusteringProvider`calls, ctx.cache
    ensures ctx.cache.Agrees(answers)
    ensures Abort in ops ==> r == Err(Aborted)
    ensures Abort !in ops ==> AllGiven(gives, DocsOf(ctx, ops), batches) && r == Ok(CollectedBy(ctx, ops, batches))
  {
    var docs: seq<DocToEmbed>, deletes: seq<DocId>, skipped: seq<SkippedDoc> := [], [], [];
    ghost var docOps := 0;
    batches := [];
    for i := 0 to |ops|
      invariant ctx.cache.Agrees(answers) && Abort !in ops[..i]
      invariant IntakeOf(ctx, ops[..i]) == Intake(docs, skipped, deletes, docOps)
    {
      assert ops[..i + 1][..i] == ops[..i] && ops[..i + 1] == ops[..i] + [ops[i]];
      match ops[i] {
        case Inserted(id, text) =>
          match ctx.chunker(text) {
            case Ok(chunks) =>
              if chunks == [] { skipped := skipped + [SkippedDoc(id, ZeroChunks)]; }
              else { docs := docs + [DocToEmbed(id, chunks, false)]; }
            case Err(e) => skipped := skipped + [SkippedDoc(id, ChunkingFailed(e))];
          }
          docOps := docOps + 1;
        case Changed(id, text) =>
          match ctx.chunker(text) {
            case Ok(chunks) =>
              if chunks == [] { skipped := skipped + [SkippedDoc(id, ZeroChunks)]; }
              else { docs := docs + [DocToEmbed(id, chunks, true)]; }
            case Err(e) => skipped := skipped + [SkippedDoc(id, ChunkingFailed(e))];
          }
          docOps := docOps + 1;
        case Deleted(id) => deletes := deletes + [id];
        case OperationError(message) => skipped := skipped + [SkippedDoc("unknown", ReportedError(message))];
        case Abort => return Err(Aborted), batches;
      }
    }
    assert ops[..|ops|] == ops;
    var batch;
    batch, batches := EmbedDocs(ctx, docs, answers, gives);
    r := Ok(Collected(batch.rows, deletes + batch.changed, batch.indexed, skipped + batch.skipped));
  }

  // ── The streaming run ──────────────────────────────────────────────────────

  /** Documents still buffered after n of them, when every m-th one empties the buffer. */
  function Waiting(n: nat, m: nat): (w: nat)
    ensures w <= n && (m > 0 ==> w < m)
  {
    if n == 0 then 0
    else
      var w := Waiting(n - 1, m) + 1;
      if w >= m then 0 else w
  }

  lemma {:induction false} WaitingIsRemainder(n: nat, m: nat) returns (full: nat)
    requires m > 0
    ensures n == m * full + Waiting(n, m)
  {
    if n == 0 {
      full := 0;
    } else {
      full := WaitingIsRemainder(n - 1, m);
      if Waiting(n, m) == 0 {
        assert m * (full + 1) == m * full + m;
        full := full + 1;
      }
    }
  }

  /** `whole` is `a` and `b` merged, each in its own order. */
  ghost predicate Shuffle<T(!new)>(whole: seq<T>, a: seq<T>, b: seq<T>)
    decreases |whole|
  {
    if whole == [] then a == [] && b == []
    else
      var last, earlier := whole[|whole| - 1], whole[..|whole| - 1];
      || (a != [] && a[|a| - 1] == last && Shuffle(earlier, a[..|a| - 1], b))
      || (b != [] && b[|b| - 1] == last && Shuffle(earlier, a, b[..|b| - 1]))
  }

  lemma ShuffleLeft<T(!new)>(whole: seq<T>, a: seq<T>, b: seq<T>, x: T)
    requires Shuffle(whole, a, b)
    ensures Shuffle(whole + [x], a + [x], b)
  {
    assert (whole + [x])[..|whole|] == whole && (a + [x])[..|a|] == a;
  }

  lemma {:induction false} ShuffleRight<T(!new)>(whole: seq<T>, a: seq<T>, b: seq<T>, part: seq<T>)
    requires Shuffle(whole, a, b)
    ensures Shuffle(whole + part, a, b + part)
  {
    if part == [] {
      assert whole + part == whole && b + part == b;
    } else {
      var n := |part| - 1;
      ShuffleRight(whole, a, b, part[..n]);
      assert (whole + part)[..|whole + part| - 1] == whole + part[..n];
      assert (b + part)[..|b + part| - 1] == b + part[..n];
    }
  }

  lemma CountsWith<T>(a: seq<T>, b: seq<T>)
    requires a != []
    ensures multiset(a + b) == multiset(a[..|a| - 1] + b) + multiset{a[|a| - 1]}
  {
    assert a == a[..|a| - 1] + [a[|a| - 1]];
  }

  lemma CountsAfter<T>(a: seq<T>, b: seq<T>)
    requires b != []
    ensures multiset(a + b) == multiset(a + b[..|b| - 1]) + multiset{b[|b| - 1]}
  {
    assert a + b == a + b[..|b| - 1] + [b[|b| - 1]];
  }

  lemma {:induction false} ShuffleCounts<T(!new)>(whole: seq<T>, a: seq<T>, b: seq<T>)
    requires Shuffle(whole, a, b)
    ensures |whole| == |a| + |b| && multiset(whole) == multiset(a + b)
    decreases |whole|
  {
    if whole != [] {
      CountsAfter([], whole);
      assert [] + whole == whole && [] + whole[..|whole| - 1] == whole[..|whole| - 1];
      if a != [] && a[|a| - 1] == whole[|whole| - 1] && Shuffle(whole[..|whole| - 1], a[..|a| - 1], b) {
        ShuffleCounts(whole[..|whole| - 1], a[..|a| - 1], b);
        CountsWith(a, b);
      } else {
        ShuffleCounts(whole[..|whole| - 1], a, b[..|b| - 1]);
        CountsAfter(a, b);
      }
    }
  }

  /** Where a stream stands: the operations taken, the documents buffered and what the others gave. */
  datatype Standing = Standing(taken: Intake, waiting: seq<DocToEmbed>, done: Batch)

  function DocsOf(ctx: Context, ops: seq<Operation>): seq<DocToEmbed> {
    IntakeOf(ctx, ops).docs
  }

  /** After `ops`, when the first |batches| documents have been embedded and the others are buffered. */
  function StandingAfter(ctx: Context, ops: seq<Operation>, batches: seq<Batch>): Standing
    requires |batches| <= |DocsOf(ctx, ops)|
  {
    var taken := IntakeOf(ctx, ops);
    Standing(taken, taken.docs[|batches|..], Gathered(batches))
  }

  /** One more operation: its document, if it has one, joins the buffer. */
  function Advanced(ctx: Context, op: Operation, so: Standing): Standing {
    var after := Taken(ctx, op, so.taken);
    Standing(after, so.waiting + after.docs[|so.taken.docs|..], so.done)
  }

  lemma AdvancedByDoc(ctx: Context, id: DocId, text: string, isChanged: bool, so: Standing)
    ensures var after := Advanced(ctx, if isChanged then Changed(id, text) else Inserted(id, text), so);
            var counted := so.taken.(docOps := so.taken.docOps + 1);
            match ctx.chunker(text)
            case Ok(chunks) =>
              if chunks == [] then after == Standing(counted.(skipped := so.taken.skipped + [SkippedDoc(id, ZeroChunks)]), so.waiting, so.done)
              else
                var doc := DocToEmbed(id, chunks, isChanged);
                after == Standing(counted.(docs := so.taken.docs + [doc]), so.waiting + [doc], so.done)
            case Err(e) => after == Standing(counted.(skipped := so.taken.skipped + [SkippedDoc(id, ChunkingFailed(e))]), so.waiting, so.done)
  {
    assert so.waiting + [] == so.waiting;
  }

  /** The buffered documents gave `part`. */
  function Flushed(so: Standing, part: seq<Batch>): Standing {
    Standing(so.taken, [], Joined(so.done, Gathered(part)))
  }

  /** A full buffer is flushed. */
  function Settled(microBatch: nat, so: Standing, part: seq<Batch>): Standing {
    if |so.waiting| >= microBatch then Flushed(so, part) else so
  }

  /** What flushing gives, if the buffer is full. */
  ghost predicate GivenBy(gives: Gives, microBatch: nat, so: Standing, part: seq<Batch>) {
    if |so.waiting| >= microBatch then AllGiven(gives, so.waiting, part) else part == []
  }

  /** The documents of the full micro-batches have been embedded, with those results. */
  ghost predicate Streamed(ctx: Context, gives: Gives, ops: seq<Operation>, microBatch: nat, batches: seq<Batch>) {
    AllGiven(gives, FlushedDocs(ctx, ops, microBatch), batches)
  }

  lemma WaitingNext(n: nat, m: nat, microBatch: nat)
    requires microBatch > 0 && n <= m <= n + 1
    ensures Waiting(m, microBatch) == if Waiting(n, microBatch) + m - n >= microBatch then 0 else Waiting(n, microBatch) + m - n
  {
  }

  /** One more operation adds at most one document, behind the others. */
  lemma DocsNext(ctx: Context, ops: seq<Operation>, op: Operation)
    ensures var before, after := DocsOf(ctx, ops), DocsOf(ctx, ops + [op]);
            |before| <= |after| <= |before| + 1 && after == before + after[|before|..]
    ensures IntakeOf(ctx, ops + [op]) == Taken(ctx, op, IntakeOf(ctx, ops))
  {
    assert (ops + [op])[..|ops|] == ops;
  }

  /** One more operation, before the buffer is looked at. */
  lemma StandingNext(ctx: Context, ops: seq<Operation>, op: Operation, batches: seq<Batch>)
    requires |batches| <= |DocsOf(ctx, ops)|
    ensures |batches| <= |DocsOf(ctx, ops + [op])|
    ensures StandingAfter(ctx, ops + [op], batches) == Advanced(ctx, op, StandingAfter(ctx, ops, batches))
  {
    DocsNext(ctx, ops, op);
    var before, after := DocsOf(ctx, ops), DocsOf(ctx, ops + [op]);
    assert after[|batches|..] == before[|batches|..] + after[|before|..];
  }

  /** Flushing the buffer. */
  lemma StandingFlushed(ctx: Context, ops: seq<Operation>, batches: seq<Batch>, part: seq<Batch>)
    requires |batches| + |part| == |DocsOf(ctx, ops)|
    ensures StandingAfter(ctx, ops, batches + part) == Flushed(StandingAfter(ctx, ops, batches), part)
  {
    GatheredJoin(batches, part);
  }

  /** What the stream has embedded after one more operation. */
  lemma StreamedNext(ctx: Context, gives: Gives, ops: seq<Operation>, op: Operation, microBatch: nat, batches: seq<Batch>, part: seq<Batch>)
    requires microBatch > 0 && Streamed(ctx, gives, ops, microBatch, batches)
    requires |batches| <= |DocsOf(ctx, ops + [op])|
    requires GivenBy(gives, microBatch, StandingAfter(ctx, ops + [op], batches), part)
    ensures Streamed(ctx, gives, ops + [op], microBatch, batches + part)
    ensures StandingAfter(ctx, ops + [op], batches + part) == Settled(microBatch, StandingAfter(ctx, ops + [op], batches), part)
  {
    FlushedNext(ctx, ops, op, microBatch);
    var docs := DocsOf(ctx, ops + [op]);
    if |docs| - |batches| >= microBatch {
      GivenJoin(gives, docs[..|batches|], batches, docs[|batches|..], part);
      assert docs[..|batches|] + docs[|batches|..] == docs;
      StandingFlushed(ctx, ops + [op], batches, part);
    } else {
      assert batches + [] == batches;
    }
  }

  /** One more operation empties a full buffer, or leaves what was flushed. */
  lemma FlushedNext(ctx: Context, ops: seq<Operation>, op: Operation, microBatch: nat)
    requires microBatch > 0
    ensures var n, docs := |FlushedDocs(ctx, ops, microBatch)|, DocsOf(ctx, ops + [op]);
            && n <= |docs| && docs[..n] == FlushedDocs(ctx, ops, microBatch)
            && FlushedDocs(ctx, ops + [op], microBatch) == if |docs| - n >= microBatch then docs else docs[..n]
  {
    DocsNext(ctx, ops, op);
    WaitingNext(|DocsOf(ctx, ops)|, |DocsOf(ctx, ops + [op])|, microBatch);
  }

  /** Documents of the micro-batches that were full before the stream ended. */
  function FlushedDocs(ctx: Context, ops: seq<Operation>, microBatch: nat): seq<DocToEmbed> {
    var docs := DocsOf(ctx, ops);
    docs[..|docs| - Waiting(|docs|, microBatch)]
  }

  /** Document operations delivered: inserted, changed and deleted ones. */
  function Delivered(ctx: Context, ops: seq<Operation>): nat {
    IntakeOf(ctx, ops).docOps + |IntakeOf(ctx, ops).deletes|
  }

  /** What the truncation check counts, given the results of the flushed documents: their Changed ids a second time. */
  function Received(ctx: Context, ops: seq<Operation>, flushed: seq<Batch>): nat {
    Delivered(ctx, ops) + |Gathered(flushed).changed|
  }

  class StreamRun {
    const ctx: Context
    /** MICRO_BATCH_DOCS, 2000 in the source. */
    const microBatch: nat
    var batchDocs: seq<DocToEmbed>
    var rows: seq<ChunkRow>
    var deleteIds: seq<DocId>
    var indexed: nat
    var skipped: seq<SkippedDoc>
    var docsSeen: nat

    constructor (ctx: Context, microBatch: nat)
      ensures this.ctx == ctx && this.microBatch == microBatch
      ensures Stands(NOTHING_YET)
    {
      this.ctx, this.microBatch := ctx, microBatch;
      batchDocs, rows, deleteIds, indexed, skipped, docsSeen := [], [], [], 0, [], 0;
    }

    ghost predicate Stands(so: Standing)
      reads this
    {
      && batchDocs == so.waiting && rows == so.done.rows && indexed == so.done.indexed && docsSeen == so.taken.docOps
      && Shuffle(deleteIds, so.taken.deletes, so.done.changed)
      && Shuffle(skipped, so.taken.skipped, so.done.skipped)
    }

    method Skip(doc: SkippedDoc, ghost so: Standing)
      requires Shuffle(skipped, so.taken.skipped, so.done.skipped)
      modifies this`skipped
      ensures Shuffle(skipped, so.taken.skipped + [doc], so.done.skipped)
    {
      ShuffleLeft(skipped, so.taken.skipped, so.done.skipped, doc);
      skipped := skipped + [doc];
    }

    /** The Inserted and Changed arms: chunk, and buffer the document or record why not. */
    method TakeDoc(id: DocId, text: string, isChanged: bool, ghost so: Standing)
      requires Stands(so)
      modifies this`batchDocs, this`skipped, this`docsSeen
      ensures Stands(Advanced(ctx, if isChanged then Changed(id, text) else Inserted(id, text), so))
    {
      AdvancedByDoc(ctx, id, text, isChanged, so);
      docsSeen := docsSeen + 1;
      match ctx.chunker(text)
      case Ok(chunks) =>
        if chunks == [] {
          Skip(SkippedDoc(id, ZeroChunks), so);
        } else {
          batchDocs := batchDocs + [DocToEmbed(id, chunks, isChanged)];
        }
      case Err(e) =>
        Skip(SkippedDoc(id, ChunkingFailed(e)), so);
    }

    method TakeOp(op: Operation, ghost so: Standing)
      requires op != Abort && Stands(so)
      modifies this`batchDocs, this`skipped, this`docsSeen, this`deleteIds
      ensures Stands(Advanced(ctx, op, so))
    {
      match op
      case Inserted(id, text) => TakeDoc(id, text, false, so);
      case Changed(id, text) => TakeDoc(id, text, true, so);
      case Deleted(id) =>
        ShuffleLeft(deleteIds, so.taken.deletes, so.done.changed, id);
        deleteIds := deleteIds + [id];
      case OperationError(message) => Skip(SkippedDoc("unknown", ReportedError(message)), so);
    }

    /** The ids, skips and count stand at `so` with `gathered` added; the rows come last. */
    ghost predicate Adds(so: Standing, gathered: Batch)
      reads this
    {
      && indexed == so.done.indexed + gathered.indexed
      && Shuffle(deleteIds, so.taken.deletes, so.done.changed + gathered.changed)
      && Shuffle(skipped, so.taken.skipped, so.done.skipped + gathered.skipped)
    }

    method Add(part: Batch, ghost so: Standing, ghost gathered: Batch)
      requires Adds(so, gathered)
      modifies this`deleteIds, this`skipped, this`indexed
      ensures Adds(so, Joined(gathered, part))
    {
      ShuffleRight(deleteIds, so.taken.deletes, so.done.changed + gathered.changed, part.changed);
      ShuffleRight(skipped, so.taken.skipped, so.done.skipped + gathered.skipped, part.skipped);
      JoinedAssociates(so.done, gathered, part);
      deleteIds := deleteIds + part.changed;
      skipped := skipped + part.skipped;
      indexed := indexed + part.indexed;
    }

    /** Embed the buffered documents in sub-batches and add what they give. */
    method FlushMicrobatch(ghost so: Standing, ghost answers: Answers, ghost gives: Gives) returns (ghost given: seq<Batch>)
      requires ctx.Configured(answers, gives) && ctx.cache.Agrees(answers) && Stands(so)
      modifies this`batchDocs, this`rows, this`deleteIds, this`indexed, this`skipped
      modifies ctx.provider`calls, ctx.clusteringProvider`calls, ctx.cache
      ensures ctx.cache.Agrees(answers)
      ensures AllGiven(gives, so.waiting, given) && Stands(Flushed(so, given))
    {
      var size := if ctx.embedBatchSize >= 1 then ctx.embedBatchSize else 1;
      var batchRows: seq<ChunkRow> := [];
      ghost var gathered := NOTHING;
      given := [];
      var done := 0;
      JoinedAssociates(so.done, NOTHING, NOTHING);
      while done < |batchDocs|
        invariant done <= |batchDocs| && batchDocs == so.waiting && ctx.cache.Agrees(answers)
        invariant gathered == Gathered(given) && AllGiven(gives, so.waiting[..done], given)
        invariant rows == so.done.rows && batchRows == gathered.rows && docsSeen == so.taken.docOps
        invariant Adds(so, gathered)
      {
        var next := if done + size <= |batchDocs| then done + size else |batchDocs|;
        ghost var batches;
        var part;
        part, batches := EmbedDocs(ctx, batchDocs[done..next], answers, gives);
        SubBatch(gives, so.waiting, done, next, given, batches);
        Add(part, so, gathered);
        batchRows := batchRows + part.rows;
        gathered, given := Joined(gathered, part), given + batches;
        done := next;
      }
      assert so.waiting[..done] == so.waiting;
      rows := rows + batchRows;
      batchDocs := [];
    }

    /**
       The stream rejects an abort and a count below the declared one, and
       otherwise collects what the whole-list run does, whatever the
       micro-batch and embedding batch sizes.
       */
    method Collect(ops: seq<Operation>, expectedDocs: Option<nat>, ghost answers: Answers, ghost gives: Gives)
      returns (r: Result<Collected, PushError>, ghost flushed: seq<Batch>, ghost batches: seq<Batch>)
      requires ctx.Configured(answers, gives) && ctx.cache.Agrees(answers) && microBatch > 0
      requires Stands(NOTHING_YET)
      modifies this, ctx.provider`calls, ctx.clusteringProvider`calls, ctx.cache
      ensures ctx.cache.Agrees(answers)
      ensures Abort in ops ==> r == Err(Aborted)
      ensures Abort !in ops ==> Streamed(ctx, gives, ops, microBatch, flushed)
      ensures Abort !in ops && !Passes(ctx, ops, flushed, expectedDocs) ==>
                r.Err? && r.error.Truncated? && r.error.expected == expectedDocs.value
                && r.error.received == Received(ctx, ops, flushed)
                && r.error.first == if skipped == [] then None else Some(skipped[0])
      ensures Abort !in ops && Passes(ctx, ops, flushed, expectedDocs) ==>
                && flushed <= batches && AllGiven(gives, DocsOf(ctx, ops), batches)
                && r.Ok? && SameUpToOrder(r.value, CollectedBy(ctx, ops, batches))
    {
      var complete;
      batches := [];
      complete, flushed := TakeAll(ops, answers, gives);
      if !complete {
        return Err(Aborted), flushed, batches;
      }
      ghost var so := StandingAfter(ctx, ops, flushed);
      if expectedDocs.Some? {
        var received := docsSeen + |deleteIds|;
        ShuffleCounts(deleteIds, so.taken.deletes, so.done.changed);
        if received < expectedDocs.value {
          return Err(Truncated(expectedDocs.value, received, if skipped != [] then Some(skipped[0]) else None)), flushed, batches;
        }
      }
      ghost var rest := FlushMicrobatch(so, answers, gives);
      r := Ok(Collected(rows, deleteIds, indexed, skipped));
      batches := flushed + rest;
      StreamedAtEnd(ctx, gives, ops, microBatch, flushed, rest);
      StandingAtEnd(ctx, ops, batches, r.value);
    }

    /** The receive loop: take operations, flushing whenever the micro-batch is full; false on an abort. */
    method TakeAll(ops: seq<Operation>, ghost answers: Answers, ghost gives: Gives) returns (complete: bool, ghost batches: seq<Batch>)
      requires ctx.Configured(answers, gives) && ctx.cache.Agrees(answers) && microBatch > 0
      requires Stands(NOTHING_YET)
      modifies this, ctx.provider`calls, ctx.clusteringProvider`calls, ctx.cache
      ensures ctx.cache.Agrees(answers) && complete == (Abort !in ops)
      ensures complete ==> Streamed(ctx, gives, ops, microBatch, batches) && Stands(StandingAfter(ctx, ops, batches))
    {
      batches := [];
      NothingYet(ctx);
      for i := 0 to |ops|
        invariant ctx.cache.Agrees(answers) && Abort !in ops[..i]
        invariant Streamed(ctx, gives, ops[..i], microBatch, batches) && Stands(StandingAfter(ctx, ops[..i], batches))
      {
        if ops[i] == Abort {
          return false, batches;
        }
        assert ops[..i + 1] == ops[..i] + [ops[i]];
        StandingNext(ctx, ops[..i], ops[i], batches);
        ghost var part := TakeNext(ops[i], StandingAfter(ctx, ops[..i], batches), answers, gives);
        StreamedNext(ctx, gives, ops[..i], ops[i], microBatch, batches, part);
        batches := batches + part;
      }
      assert ops[..|ops|] == ops;
      complete := true;
    }

    method TakeNext(op: Operation, ghost so: Standing, ghost answers: Answers, ghost gives: Gives) returns (ghost part: seq<Batch>)
      requires ctx.Configured(answers, gives) && ctx.cache.Agrees(answers)
      requires op != Abort && Stands(so)
      modifies this, ctx.provider`calls, ctx.clusteringProvider`calls, ctx.cache
      ensures ctx.cache.Agrees(answers)
      ensures GivenBy(gives, microBatch, Advanced(ctx, op, so), part)
      ensures Stands(Settled(microBatch, Advanced(ctx, op, so), part))
    {
      TakeOp(op, so);
      part := [];
      if |batchDocs| >= microBatch {
        part := FlushMicrobatch(Advanced(ctx, op, so), answers, gives);
      }
    }
  }

  const NOTHING_YET := Standing(Intake([], [], [], 0), [], NOTHING)

  lemma NothingYet(ctx: Context)
    ensures StandingAfter(ctx, [], []) == NOTHING_YET
  {
  }

  lemma SubBatch(
      gives: Gives, docs: seq<DocToEmbed>, done: nat, next: nat, given: seq<Batch>, part: seq<Batch>)
    requires done <= next <= |docs|
    requires AllGiven(gives, docs[..done], given) && AllGiven(gives, docs[done..next], part)
    ensures AllGiven(gives, docs[..next], given + part)
    ensures Gathered(given + part) == Joined(Gathered(given), Gathered(part))
  {
    assert docs[..next] == docs[..done] + docs[done..next];
    GivenJoin(gives, docs[..done], given, docs[done..next], part);
    GatheredJoin(given, part);
  }

  /** The last flush embeds the documents the full micro-batches left. */
  lemma StreamedAtEnd(
      ctx: Context, gives: Gives, ops: seq<Operation>, microBatch: nat, flushed: seq<Batch>, rest: seq<Batch>)
    requires Streamed(ctx, gives, ops, microBatch, flushed)
    requires AllGiven(gives, StandingAfter(ctx, ops, flushed).waiting, rest)
    ensures AllGiven(gives, DocsOf(ctx, ops), flushed + rest)
    ensures StandingAfter(ctx, ops, flushed + rest) == Flushed(StandingAfter(ctx, ops, flushed), rest)
  {
    var docs := DocsOf(ctx, ops);
    GivenJoin(gives, docs[..|flushed|], flushed, docs[|flushed|..], rest);
    assert docs[..|flushed|] + docs[|flushed|..] == docs;
    StandingFlushed(ctx, ops, flushed, rest);
  }

  /** A finished stream has collected what the whole list does. */
  lemma StandingAtEnd(ctx: Context, ops: seq<Operation>, batches: seq<Batch>, c: Collected)
    requires |batches| == |DocsOf(ctx, ops)|
    requires var so := StandingAfter(ctx, ops, batches);
             && c.rows == so.done.rows && c.indexed == so.done.indexed
             && Shuffle(c.deletes, so.taken.deletes, so.done.changed)
             && Shuffle(c.skipped, so.taken.skipped, so.done.skipped)
    ensures SameUpToOrder(c, CollectedBy(ctx, ops, batches))
  {
    var so := StandingAfter(ctx, ops, batches);
    ShuffleCounts(c.deletes, so.taken.deletes, so.done.changed);
    ShuffleCounts(c.skipped, so.taken.skipped, so.done.skipped);
  }

  // ── What is collected ──────────────────────────────────────────────────────

  /** The document comes from the i-th operation. */
  ghost predicate DocFrom(ctx: Context, ops: seq<Operation>, i: nat, doc: DocToEmbed) {
    && i < |ops| && (ops[i].Inserted? || ops[i].Changed?) && ctx.chunker(ops[i].text) == Ok(doc.chunks) && doc.chunks != []
    && doc.id == ops[i].id && (doc.isChanged <==> ops[i].Changed?)
  }

  lemma {:induction false} DocsComeFromOps(ctx: Context, ops: seq<Operation>, n: nat) returns (i: nat)
    requires n < |DocsOf(ctx, ops)|
    ensures DocFrom(ctx, ops, i, DocsOf(ctx, ops)[n])
  {
    var m := |ops| - 1;
    assert ops == ops[..m] + [ops[m]];
    DocsNext(ctx, ops[..m], ops[m]);
    if n < |DocsOf(ctx, ops[..m])| {
      i := DocsComeFromOps(ctx, ops[..m], n);
    } else {
      i := m;
    }
  }

  lemma {:induction false} GatheredRow(batches: seq<Batch>, r: ChunkRow) returns (n: nat, k: nat)
    requires r in Gathered(batches).rows
    ensures n < |batches| && k < |batches[n].rows| && batches[n].rows[k] == r
  {
    var m := |batches| - 1;
    if r in batches[m].rows {
      n := m;
      k :| k < |batches[m].rows| && batches[m].rows[k] == r;
    } else {
      n, k := GatheredRow(batches[..m], r);
    }
  }

  /** Every collected row is the stored row of a chunk of an inserted or changed document. */
  lemma RowsAreStored(ctx: Context, answers: Answers, gives: Gives, ops: seq<Operation>, batches: seq<Batch>, r: ChunkRow)
    requires Describes(ctx, answers, gives) && AllGiven(gives, DocsOf(ctx, ops), batches)
    requires r in CollectedBy(ctx, ops, batches).rows
    ensures IsNewRow(ctx, answers, ops, r)
  {
    var n, k := GatheredRow(batches, r);
    var doc := DocsOf(ctx, ops)[n];
    var i := DocsComeFromOps(ctx, ops, n);
    assert Possible(ctx, answers, doc, batches[n]);
    BatchMeans(ctx, answers, doc, batches[n]);
    assert StoredRow(ctx, answers, ops[i].id, doc.chunks[k], r);
  }

  /** A row the operations bring: a chunk's of a text that one of them inserts or changes. */
  ghost predicate IsNewRow(ctx: Context, answers: Answers, ops: seq<Operation>, r: ChunkRow) {
    exists i: nat, k: nat ::
      && i < |ops| && (ops[i].Inserted? || ops[i].Changed?)
      && ctx.chunker(ops[i].text).Ok? && k < |ctx.chunker(ops[i].text).value|
      && StoredRow(ctx, answers, ops[i].id, ctx.chunker(ops[i].text).value[k], r)
  }

  /** Inserted, changed and failing operations. */
  function Counted(ops: seq<Operation>): set<int> {
    set i | 0 <= i < |ops| && (ops[i].Inserted? || ops[i].Changed? || ops[i].OperationError?)
  }

  lemma CountedNext(ops: seq<Operation>, op: Operation)
    ensures |Counted(ops + [op])| == |Counted(ops)| + (if op.Inserted? || op.Changed? || op.OperationError? then 1 else 0)
  {
    var n := |ops|;
    forall i ensures i in Counted(ops + [op]) <==>
              i in Counted(ops) || (i == n && (op.Inserted? || op.Changed? || op.OperationError?)) {}
    if op.Inserted? || op.Changed? || op.OperationError? {
      assert Counted(ops + [op]) == Counted(ops) + {n};
    } else {
      assert Counted(ops + [op]) == Counted(ops);
    }
  }

  /** Why an operation is skipped before anything is embedded, if it is. */
  ghost predicate SkippedAtOnce(ctx: Context, op: Operation, s: SkippedDoc) {
    || (op.OperationError? && s == SkippedDoc("unknown", ReportedError(op.message)))
    || ((op.Inserted? || op.Changed?) && ctx.chunker(op.text) == Ok([]) && s == SkippedDoc(op.id, ZeroChunks))
    || ((op.Inserted? || op.Changed?) && ctx.chunker(op.text).Err? && s == SkippedDoc(op.id, ChunkingFailed(ctx.chunker(op.text).error)))
  }

  lemma {:induction false} IntakeSkips(ctx: Context, ops: seq<Operation>, s: SkippedDoc)
    ensures s in IntakeOf(ctx, ops).skipped <==> exists i :: 0 <= i < |ops| && SkippedAtOnce(ctx, ops[i], s)
  {
    if ops != [] {
      var m := |ops| - 1;
      IntakeSkips(ctx, ops[..m], s);
      assert ops == ops[..m] + [ops[m]];
      if s in IntakeOf(ctx, ops).skipped && s !in IntakeOf(ctx, ops[..m]).skipped {
        assert SkippedAtOnce(ctx, ops[m], s);
      }
    }
  }

  lemma {:induction false} IntakeCounts(ctx: Context, ops: seq<Operation>)
    ensures |IntakeOf(ctx, ops).docs| + |IntakeOf(ctx, ops).skipped| == |Counted(ops)|
  {
    if ops == [] {
      assert Counted(ops) == {};
    } else {
      var m := |ops| - 1;
      IntakeCounts(ctx, ops[..m]);
      CountedNext(ops[..m], ops[m]);
      assert ops == ops[..m] + [ops[m]];
    }
  }

  lemma {:induction false} GatheredSkips(batches: seq<Batch>, s: SkippedDoc)
    ensures s in Gathered(batches).skipped <==> exists n :: 0 <= n < |batches| && s in batches[n].skipped
  {
    if batches != [] {
      var m := |batches| - 1;
      GatheredSkips(batches[..m], s);
      assert batches == batches[..m] + [batches[m]];
    }
  }

  lemma {:induction false} GatheredCounts(batches: seq<Batch>)
    requires forall n :: 0 <= n < |batches| ==> batches[n].indexed + |batches[n].skipped| == 1
    ensures Gathered(batches).indexed + |Gathered(batches).skipped| == |batches|
  {
    if batches != [] {
      GatheredCounts(batches[..|batches| - 1]);
    }
  }

  /**
     Nothing is skipped in silence: every inserted, changed or failing operation
     is counted as indexed or has one skip, and the skips are exactly the failing
     operations, the texts without chunks or that could not be chunked, and the
     documents whose embedding failed.
     */
  lemma EveryOperationIsReported(ctx: Context, answers: Answers, gives: Gives, ops: seq<Operation>, batches: seq<Batch>)
    requires Describes(ctx, answers, gives) && AllGiven(gives, DocsOf(ctx, ops), batches)
    ensures var c := CollectedBy(ctx, ops, batches);
            && c.indexed + |c.skipped| == |Counted(ops)|
            && forall s :: s in c.skipped <==>
                 || (exists i :: 0 <= i < |ops| && SkippedAtOnce(ctx, ops[i], s))
                 || (exists n :: 0 <= n < |batches| && s in batches[n].skipped)
  {
    var c := CollectedBy(ctx, ops, batches);
    IntakeCounts(ctx, ops);
    forall n | 0 <= n < |batches| ensures batches[n].indexed + |batches[n].skipped| == 1 {
      assert Possible(ctx, answers, DocsOf(ctx, ops)[n], batches[n]);
      BatchMeans(ctx, answers, DocsOf(ctx, ops)[n], batches[n]);
    }
    GatheredCounts(batches);
    forall s
      ensures s in c.skipped <==>
                || (exists i :: 0 <= i < |ops| && SkippedAtOnce(ctx, ops[i], s))
                || (exists n :: 0 <= n < |batches| && s in batches[n].skipped)
    {
      IntakeSkips(ctx, ops, s);
      GatheredSkips(batches, s);
    }
  }

  /** With providers that always answer a text the same way, stream and whole list collect the same. */
  lemma PipelinesAgree(
      ctx: Context, oracle: Oracle, gives: Gives, ops: seq<Operation>, whole: seq<Batch>, streamed: seq<Batch>, c: Collected)
    requires Describes(ctx, AnswersOf(oracle), gives)
    requires AllGiven(gives, DocsOf(ctx, ops), whole)
    requires AllGiven(gives, DocsOf(ctx, ops), streamed)
    requires SameUpToOrder(c, CollectedBy(ctx, ops, streamed))
    ensures SameUpToOrder(c, CollectedBy(ctx, ops, whole))
  {
    SameAnswersSameBatches(ctx, oracle, gives, DocsOf(ctx, ops), whole, streamed);
  }

  // ── The check for truncated streams ────────────────────────────────────────

  lemma {:induction false} GatheredChanged(batches: seq<Batch>)
    ensures Gathered(batches).changed == [] <==> forall i :: 0 <= i < |batches| ==> batches[i].changed == []
  {
    if batches != [] {
      GatheredChanged(batches[..|batches| - 1]);
    }
  }

  /** The truncation check lets the stream through. */
  ghost predicate Passes(ctx: Context, ops: seq<Operation>, flushed: seq<Batch>, expectedDocs: Option<nat>) {
    expectedDocs.Some? ==> expectedDocs.value <= Received(ctx, ops, flushed)
  }

  /** Whatever count was declared, the stream passes only if as many documents were delivered. */
  ghost predicate AlwaysCaught(ctx: Context, ops: seq<Operation>, flushed: seq<Batch>) {
    forall expected: nat :: Passes(ctx, ops, flushed, Some(expected)) ==> expected <= Delivered(ctx, ops)
  }

  /**
     Every stream that passes delivered as many documents as declared exactly
     when no document of the full micro-batches gave an id to delete, as an
     embedded Changed one does: such an id is counted once as a document and
     once more in the delete list.
     */
  lemma TruncationAlwaysCaught(ctx: Context, ops: seq<Operation>, flushed: seq<Batch>)
    ensures AlwaysCaught(ctx, ops, flushed) <==> forall i :: 0 <= i < |flushed| ==> flushed[i].changed == []
  {
    GatheredChanged(flushed);
    assert Passes(ctx, ops, flushed, Some(Received(ctx, ops, flushed)));
  }

  /** Answers no provider is barred from. */
  const ANYTHING: Answers := (_: string, _: nat, _: string, _: Result<Vector, EmbedError>) => true

  /**
     What a caller can see before: every truncation is caught whatever the
     providers answer exactly when no document of the full micro-batches is a
     Changed one.
     */
  lemma TruncationCaughtForSure(ctx: Context, gives: Gives, ops: seq<Operation>, microBatch: nat)
    requires Describes(ctx, ANYTHING, gives)
    ensures (forall flushed: seq<Batch> :: Streamed(ctx, gives, ops, microBatch, flushed) ==> AlwaysCaught(ctx, ops, flushed))
            <==> forall i :: 0 <= i < |FlushedDocs(ctx, ops, microBatch)| ==> !FlushedDocs(ctx, ops, microBatch)[i].isChanged
  {
    var docs := FlushedDocs(ctx, ops, microBatch);
    if forall i :: 0 <= i < |docs| ==> !docs[i].isChanged {
      forall flushed: seq<Batch> | Streamed(ctx, gives, ops, microBatch, flushed) ensures AlwaysCaught(ctx, ops, flushed) {
        forall i | 0 <= i < |flushed| ensures flushed[i].changed == [] {
          assert Possible(ctx, ANYTHING, docs[i], flushed[i]);
        }
        TruncationAlwaysCaught(ctx, ops, flushed);
      }
    } else {
      var flushed := seq(|docs|, i requires 0 <= i < |docs| => Smooth(ctx, docs[i]));
      forall i | 0 <= i < |docs| ensures gives(docs[i], flushed[i]) {
        SmoothIsPossible(ctx, docs[i]);
      }
      TruncationAlwaysCaught(ctx, ops, flushed);
      assert Streamed(ctx, gives, ops, microBatch, flushed);
    }
  }

  /** What a document gives when every answer is a vector. */
  function Smooth(ctx: Context, doc: DocToEmbed): (batch: Batch)
    ensures batch.changed == if doc.isChanged then [doc.id] else []
  {
    var results := Zeros(|doc.chunks|, ctx.dim);
    NoFailure(results + results);
    Scattered(doc, RowsOrFailure(ctx, doc, results, results))
  }

  lemma SmoothIsPossible(ctx: Context, doc: DocToEmbed)
    ensures Possible(ctx, ANYTHING, doc, Smooth(ctx, doc))
  {
    var results := Zeros(|doc.chunks|, ctx.dim);
    assert Makes(ctx, ANYTHING, doc, results, results, Smooth(ctx, doc));
  }

  /** A stream too short to fill a micro-batch is always counted right. */
  lemma ShortStreamsAreCounted(ctx: Context, gives: Gives, ops: seq<Operation>, microBatch: nat, flushed: seq<Batch>)
    requires |DocsOf(ctx, ops)| < microBatch && Streamed(ctx, gives, ops, microBatch, flushed)
    ensures Received(ctx, ops, flushed) == Delivered(ctx, ops)
  {
    ShortWaits(|DocsOf(ctx, ops)|, microBatch);
  }

  lemma {:induction false} ShortWaits(n: nat, m: nat)
    requires n < m
    ensures Waiting(n, m) == n
  {
    if n > 0 {
      ShortWaits(n - 1, m);
    }
  }

  /** A Changed document that has chunks and was embedded. */
  predicate IsEmbeddedChange(ctx: Context, op: Operation, batch: Batch) {
    op.Changed? && ctx.chunker(op.text).Ok? && ctx.chunker(op.text).value != [] && batch.changed == [op.id]
  }

  lemma {:induction false} AllChanged(ctx: Context, ops: seq<Operation>, batches: seq<Batch>)
    requires |batches| == |ops| && forall i :: 0 <= i < |ops| ==> IsEmbeddedChange(ctx, ops[i], batches[i])
    ensures IntakeOf(ctx, ops).docOps == |DocsOf(ctx, ops)| == |ops| && IntakeOf(ctx, ops).deletes == []
    ensures |Gathered(batches).changed| == |ops|
  {
    if ops != [] {
      AllChanged(ctx, ops[..|ops| - 1], batches[..|ops| - 1]);
    }
  }

  /** A micro-batch of Changed documents, all embedded, passes for twice as many: half the push can be missing. */
  lemma TruncatedStreamAccepted(ctx: Context, ops: seq<Operation>, microBatch: nat, flushed: seq<Batch>)
    requires |ops| == |flushed| == microBatch > 0
    requires forall i :: 0 <= i < |ops| ==> IsEmbeddedChange(ctx, ops[i], flushed[i])
    ensures |FlushedDocs(ctx, ops, microBatch)| == microBatch
    ensures Delivered(ctx, ops) == microBatch && Received(ctx, ops, flushed) == 2 * microBatch
  {
    AllChanged(ctx, ops, flushed);
    ShortWaits(microBatch - 1, microBatch);
  }
}
