/**
 What the operations of a push contribute (src/service/mod.rs): documents
 chunked, embedded in both roles and turned into rows, document by document.
 */
module Pipeline {
  import opened Outcomes
  import opened Embedding
  import opened Snapshots

  datatype Operation =
    | Inserted(id: DocId, text: string)
    | Changed(id: DocId, text: string)
    | Deleted(id: DocId)
    | OperationError(message: string)
    | Abort

  datatype TextChunk = TextChunk(text: string, index: nat, count: nat, tokenStart: nat, docTokenLen: nat)

  datatype Reason =
    | ZeroChunks
    | ChunkingFailed(detail: string)
    | ReportedError(message: string)
    | EmbeddingFailed(why: Failure)

  datatype SkippedDoc = SkippedDoc(id: DocId, reason: Reason)

  datatype DocToEmbed = DocToEmbed(id: DocId, chunks: seq<TextChunk>, isChanged: bool)

  /** What the pipeline is given; chunking, normalisation and the type of an id are functions of their argument. */
  datatype Context = Context(
    chunker: string -> Result<seq<TextChunk>, string>,
    normalize: Vector -> Vector,
    docTypeOf: DocId -> string,
    provider: Provider,
    clusteringProvider: Provider,
    cache: EmbedCache,
    storeClustering: bool,
    dim: nat,
    embedBatchSize: nat)
  {
    /** Both providers give such answers, and `gives` is what those make possible; nothing says that a text has one answer. */
    ghost predicate Configured(answers: Answers, gives: Gives) {
      embedBatchSize > 0 && provider.Allowed(answers) && clusteringProvider.Allowed(answers) && Describes(this, answers, gives)
    }
  }

  // ── What an operation contributes ──────────────────────────────────────────

  /** Operations sorted into documents to embed, documents skipped at once and pure deletions. */
  datatype Intake = Intake(docs: seq<DocToEmbed>, skipped: seq<SkippedDoc>, deletes: seq<DocId>, docOps: nat)

  function Chunked(ctx: Context, id: DocId, text: string, isChanged: bool, so: Intake): (after: Intake)
    ensures |so.docs| <= |after.docs| <= |so.docs| + 1 && after.docs[..|so.docs|] == so.docs
  {
    var counted := so.(docOps := so.docOps + 1);
    match ctx.chunker(text)
    case Ok(chunks) =>
      if chunks == [] then counted.(skipped := so.skipped + [SkippedDoc(id, ZeroChunks)])
      else counted.(docs := so.docs + [DocToEmbed(id, chunks, isChanged)])
    case Err(e) => counted.(skipped := so.skipped + [SkippedDoc(id, ChunkingFailed(e))])
  }

  function Taken(ctx: Context, op: Operation, so: Intake): (after: Intake)
    ensures |so.docs| <= |after.docs| <= |so.docs| + 1 && after.docs[..|so.docs|] == so.docs
  {
    match op
    case Inserted(id, text) => Chunked(ctx, id, text, false, so)
    case Changed(id, text) => Chunked(ctx, id, text, true, so)
    case Deleted(id) => so.(deletes := so.deletes + [id])
    case OperationError(message) => so.(skipped := so.skipped + [SkippedDoc("unknown", ReportedError(message))])
    case Abort => so
  }

  function IntakeOf(ctx: Context, ops: seq<Operation>): Intake {
    if ops == [] then Intake([], [], [], 0)
    else Taken(ctx, ops[|ops| - 1], IntakeOf(ctx, ops[..|ops| - 1]))
  }

  function Texts(chunks: seq<TextChunk>): (r: seq<string>)
    ensures |r| == |chunks|
  {
    seq(|chunks|, i requires 0 <= i < |chunks| => chunks[i].text)
  }

  function FirstFailure(results: seq<EmbedResult>): Option<Failure> {
    if results == [] then None
    else if results[0].Failed? then Some(results[0].why)
    else FirstFailure(results[1..])
  }

  lemma {:induction false} NoFailure(results: seq<EmbedResult>)
    ensures FirstFailure(results) == None <==> forall i :: 0 <= i < |results| ==> results[i].Embedded?
  {
    if results != [] {
      NoFailure(results[1..]);
      assert results == [results[0]] + results[1..];
    }
  }

  lemma NeitherFails(a: seq<EmbedResult>, b: seq<EmbedResult>)
    requires FirstFailure(a + b) == None
    ensures forall i :: 0 <= i < |a| ==> a[i].Embedded?
    ensures forall i :: 0 <= i < |b| ==> b[i].Embedded?
  {
    NoFailure(a + b);
    forall i | 0 <= i < |a| ensures a[i].Embedded? { assert (a + b)[i] == a[i]; }
    forall i | 0 <= i < |b| ensures b[i].Embedded? { assert (a + b)[|a| + i] == b[i]; }
  }

  function Zeros(n: nat, dim: nat): (r: seq<EmbedResult>)
    ensures |r| == n
  {
    seq(n, _ => Embedded(seq(dim, _ => 0.0)))
  }

  /** Results a list of texts may get in the clustering role: zeros when that role is not stored. */
  ghost predicate ClusteringRight(ctx: Context, answers: Answers, texts: seq<string>, results: seq<EmbedResult>) {
    if ctx.storeClustering then ResultsRight(ctx.clusteringProvider, answers, Clustering, texts, results)
    else results == Zeros(|texts|, ctx.dim)
  }

  function RowOf(ctx: Context, id: DocId, chunk: TextChunk, document: Vector, clustering: Vector): ChunkRow {
    ChunkRow(id, chunk.index, chunk.text,
             Columns(ctx.docTypeOf(id), chunk.count, chunk.tokenStart, chunk.docTokenLen,
                     ctx.normalize(document), ctx.normalize(clustering)))
  }

  /** A document's rows, or the first failure among its chunks: document role first, then clustering. */
  function RowsOrFailure(ctx: Context, doc: DocToEmbed, document: seq<EmbedResult>, clustering: seq<EmbedResult>)
    : Result<seq<ChunkRow>, Failure>
    requires |document| == |clustering| == |doc.chunks|
  {
    var failure := FirstFailure(document + clustering);
    if failure.Some? then Err(failure.value)
    else
      NeitherFails(document, clustering);
      Ok(seq(|doc.chunks|, i requires 0 <= i < |doc.chunks| =>
        RowOf(ctx, doc.id, doc.chunks[i], document[i].vector, clustering[i].vector)))
  }

  /** Rows to append, Changed ids to delete first, failed documents and the number indexed. */
  datatype Batch = Batch(rows: seq<ChunkRow>, changed: seq<DocId>, skipped: seq<SkippedDoc>, indexed: nat)

  const NOTHING := Batch([], [], [], 0)

  function Joined(a: Batch, b: Batch): Batch {
    Batch(a.rows + b.rows, a.changed + b.changed, a.skipped + b.skipped, a.indexed + b.indexed)
  }

  /** What one document adds: all its rows, or nothing but a skip. */
  function Scattered(doc: DocToEmbed, outcome: Result<seq<ChunkRow>, Failure>): Batch {
    match outcome
    case Ok(rows) => Batch(rows, if doc.isChanged then [doc.id] else [], [], 1)
    case Err(why) => Batch([], [], [SkippedDoc(doc.id, EmbeddingFailed(why))], 0)
  }

  /** What a list of documents adds, given what each of them does. */
  function Gathered(batches: seq<Batch>): Batch {
    if batches == [] then NOTHING
    else Joined(Gathered(batches[..|batches| - 1]), batches[|batches| - 1])
  }

  /** Those results of a document's chunks, in both roles, make that batch. */
  ghost predicate Makes(
      ctx: Context, answers: Answers, doc: DocToEmbed, document: seq<EmbedResult>, clustering: seq<EmbedResult>, batch: Batch)
  {
    && ResultsRight(ctx.provider, answers, Document, Texts(doc.chunks), document)
    && ClusteringRight(ctx, answers, Texts(doc.chunks), clustering)
    && batch == Scattered(doc, RowsOrFailure(ctx, doc, document, clustering))
  }

  /** What embedding a document's chunks one by one may give. */
  ghost predicate Possible(ctx: Context, answers: Answers, doc: DocToEmbed, batch: Batch) {
    exists document, clustering :: Makes(ctx, answers, doc, document, clustering, batch)
  }

  /** Which batches a document's embedding may give. */
  type Gives = (DocToEmbed, Batch) -> bool

  ghost predicate Describes(ctx: Context, answers: Answers, gives: Gives) {
    forall doc, batch {:trigger Possible(ctx, answers, doc, batch)} :: gives(doc, batch) <==> Possible(ctx, answers, doc, batch)
  }

  /** One such batch for each document, in order. */
  ghost predicate AllGiven(gives: Gives, docs: seq<DocToEmbed>, batches: seq<Batch>) {
    |batches| == |docs| && forall i :: 0 <= i < |docs| ==> gives(docs[i], batches[i])
  }

  lemma GivenJoin(gives: Gives, docs: seq<DocToEmbed>, batches: seq<Batch>, more: seq<DocToEmbed>, part: seq<Batch>)
    requires AllGiven(gives, docs, batches) && AllGiven(gives, more, part)
    ensures AllGiven(gives, docs + more, batches + part)
  {
  }

  lemma OneMore(gives: Gives, docs: seq<DocToEmbed>, batches: seq<Batch>, doc: DocToEmbed, batch: Batch)
    requires AllGiven(gives, docs, batches) && gives(doc, batch)
    ensures AllGiven(gives, docs + [doc], batches + [batch])
    ensures Gathered(batches + [batch]) == Joined(Gathered(batches), batch)
  {
    assert (batches + [batch])[..|docs|] == batches;
  }

  lemma OneResult(provider: Provider, oracle: Oracle, role: Role, texts: seq<string>, a: seq<EmbedResult>, b: seq<EmbedResult>)
    requires ResultsRight(provider, AnswersOf(oracle), role, texts, a) && ResultsRight(provider, AnswersOf(oracle), role, texts, b)
    ensures a == b
  {
    forall i | 0 <= i < |texts| ensures a[i] == b[i] {
      assert ResultAllowed(provider, AnswersOf(oracle), role, texts[i], a[i]) && ResultAllowed(provider, AnswersOf(oracle), role, texts[i], b[i]);
    }
  }

  lemma OneOutcome(ctx: Context, oracle: Oracle, doc: DocToEmbed, a: Batch, b: Batch)
    requires Possible(ctx, AnswersOf(oracle), doc, a) && Possible(ctx, AnswersOf(oracle), doc, b)
    ensures a == b
  {
    var texts := Texts(doc.chunks);
    var d, c :| Makes(ctx, AnswersOf(oracle), doc, d, c, a);
    var d', c' :| Makes(ctx, AnswersOf(oracle), doc, d', c', b);
    OneResult(ctx.provider, oracle, Document, texts, d, d');
    if ctx.storeClustering {
      OneResult(ctx.clusteringProvider, oracle, Clustering, texts, c, c');
    }
  }

  /** Providers that always answer a text the same way make the same batches of the same documents. */
  lemma SameAnswersSameBatches(ctx: Context, oracle: Oracle, gives: Gives, docs: seq<DocToEmbed>, a: seq<Batch>, b: seq<Batch>)
    requires Describes(ctx, AnswersOf(oracle), gives) && AllGiven(gives, docs, a) && AllGiven(gives, docs, b)
    ensures a == b
  {
    forall i | 0 <= i < |docs| ensures a[i] == b[i] {
      assert Possible(ctx, AnswersOf(oracle), docs[i], a[i]) && Possible(ctx, AnswersOf(oracle), docs[i], b[i]);
      OneOutcome(ctx, oracle, docs[i], a[i], b[i]);
    }
  }

  lemma {:induction false} GatheredJoin(a: seq<Batch>, b: seq<Batch>)
    ensures Gathered(a + b) == Joined(Gathered(a), Gathered(b))
  {
    if b == [] {
      assert a + b == a;
    } else {
      var n := |b| - 1;
      assert (a + b)[..|a + b| - 1] == a + b[..n];
      GatheredJoin(a, b[..n]);
      JoinedAssociates(Gathered(a), Gathered(b[..n]), b[n]);
    }
  }

  /**
     The stored row of a chunk: the document's id and type, the chunk's place,
     lengths and text, its vector a normalised answer for the text behind the
     document prefix and its clustering vector one for the text behind the
     clustering prefix, or zeros if that role is not stored.
     */
  ghost predicate StoredRow(ctx: Context, answers: Answers, id: DocId, c: TextChunk, r: ChunkRow) {
    && r.docId == id && r.chunkIndex == c.index && r.content == c.text
    && r.columns.docType == ctx.docTypeOf(id) && r.columns.chunkCount == c.count
    && r.columns.tokenStart == c.tokenStart && r.columns.docTokenLen == c.docTokenLen
    && (exists v :: SentAs(ctx.provider, answers, (p: TaskPrefix) => p.document, c.text, Ok(v))
                    && r.columns.embedding == ctx.normalize(v))
    && (if ctx.storeClustering then
          exists v :: SentAs(ctx.clusteringProvider, answers, (p: TaskPrefix) => p.clustering, c.text, Ok(v))
                      && r.columns.clustering == ctx.normalize(v)
        else r.columns.clustering == ctx.normalize(seq(ctx.dim, _ => 0.0)))
  }

  /** A document either has a row for each of its chunks and counts, or nothing but a skip that names the error of one of them. */
  lemma BatchMeans(ctx: Context, answers: Answers, doc: DocToEmbed, batch: Batch)
    requires Possible(ctx, answers, doc, batch)
    ensures || (&& batch.indexed == 1 && batch.skipped == [] && |batch.rows| == |doc.chunks|
                && batch.changed == (if doc.isChanged then [doc.id] else [])
                && forall k :: 0 <= k < |doc.chunks| ==> StoredRow(ctx, answers, doc.id, doc.chunks[k], batch.rows[k]))
            || (&& batch.indexed == 0 && batch.rows == [] && batch.changed == []
                && exists k, e :: 0 <= k < |doc.chunks|
                     && batch.skipped == [SkippedDoc(doc.id, EmbeddingFailed(AfterRetry(e)))]
                     && (|| SentAs(ctx.provider, answers, (p: TaskPrefix) => p.document, doc.chunks[k].text, Err(e))
                         || (ctx.storeClustering
                             && SentAs(ctx.clusteringProvider, answers, (p: TaskPrefix) => p.clustering, doc.chunks[k].text, Err(e)))))
  {
    var document, clustering :| Makes(ctx, answers, doc, document, clustering, batch);
    var failure := FirstFailure(document + clustering);
    FailureMeans(document, clustering);
    if failure.None? {
      NeitherFails(document, clustering);
      forall k | 0 <= k < |doc.chunks| ensures StoredRow(ctx, answers, doc.id, doc.chunks[k], batch.rows[k]) {
        RowMeans(ctx, answers, doc, document, clustering, k);
      }
    } else {
      FailureIsAnswer(ctx, answers, doc, document, clustering, failure.value);
    }
  }

  lemma RowMeans(
      ctx: Context, answers: Answers, doc: DocToEmbed, document: seq<EmbedResult>, clustering: seq<EmbedResult>, k: nat)
    requires ResultsRight(ctx.provider, answers, Document, Texts(doc.chunks), document)
    requires ClusteringRight(ctx, answers, Texts(doc.chunks), clustering)
    requires k < |doc.chunks| && document[k].Embedded? && clustering[k].Embedded?
    ensures StoredRow(ctx, answers, doc.id, doc.chunks[k],
                      RowOf(ctx, doc.id, doc.chunks[k], document[k].vector, clustering[k].vector))
  {
    var text := doc.chunks[k].text;
    assert ResultAllowed(ctx.provider, answers, Document, Texts(doc.chunks)[k], document[k]);
    assert SentAs(ctx.provider, answers, (p: TaskPrefix) => p.document, text, Ok(document[k].vector));
    if ctx.storeClustering {
      assert ResultAllowed(ctx.clusteringProvider, answers, Clustering, Texts(doc.chunks)[k], clustering[k]);
      assert SentAs(ctx.clusteringProvider, answers, (p: TaskPrefix) => p.clustering, text, Ok(clustering[k].vector));
    }
  }

  lemma FailureIsAnswer(
      ctx: Context, answers: Answers, doc: DocToEmbed, document: seq<EmbedResult>, clustering: seq<EmbedResult>, why: Failure)
    requires ResultsRight(ctx.provider, answers, Document, Texts(doc.chunks), document)
    requires ClusteringRight(ctx, answers, Texts(doc.chunks), clustering)
    requires exists i :: 0 <= i < |doc.chunks| && (document[i] == Failed(why) || clustering[i] == Failed(why))
    ensures why.AfterRetry?
    ensures exists k :: 0 <= k < |doc.chunks|
              && (|| SentAs(ctx.provider, answers, (p: TaskPrefix) => p.document, doc.chunks[k].text, Err(why.error))
                  || (ctx.storeClustering
                      && SentAs(ctx.clusteringProvider, answers, (p: TaskPrefix) => p.clustering, doc.chunks[k].text, Err(why.error))))
  {
    var i :| 0 <= i < |doc.chunks| && (document[i] == Failed(why) || clustering[i] == Failed(why));
    if document[i] == Failed(why) {
      assert ResultAllowed(ctx.provider, answers, Document, Texts(doc.chunks)[i], document[i]);
      assert SentAs(ctx.provider, answers, (p: TaskPrefix) => p.document, doc.chunks[i].text, Err(why.error));
    } else {
      assert ResultAllowed(ctx.clusteringProvider, answers, Clustering, Texts(doc.chunks)[i], clustering[i]);
      assert SentAs(ctx.clusteringProvider, answers, (p: TaskPrefix) => p.clustering, doc.chunks[i].text, Err(why.error));
    }
  }

  lemma JoinedAssociates(a: Batch, b: Batch, c: Batch)
    ensures Joined(Joined(a, b), c) == Joined(a, Joined(b, c))
    ensures Joined(NOTHING, a) == a == Joined(a, NOTHING)
  {
    assert a.rows + b.rows + c.rows == a.rows + (b.rows + c.rows);
    assert a.changed + b.changed + c.changed == a.changed + (b.changed + c.changed);
    assert a.skipped + b.skipped + c.skipped == a.skipped + (b.skipped + c.skipped);
  }

  // ── Embedding a list of documents ──────────────────────────────────────────

  function FlatTexts(docs: seq<DocToEmbed>): seq<string> {
    if docs == [] then [] else FlatTexts(docs[..|docs| - 1]) + Texts(docs[|docs| - 1].chunks)
  }

  /** The i-th document's texts are the slice of the flat list that starts where the earlier documents end. */
  lemma {:induction false} FlatSlice(docs: seq<DocToEmbed>, i: nat)
    requires i < |docs|
    ensures var start := |FlatTexts(docs[..i])|;
            && start + |docs[i].chunks| <= |FlatTexts(docs)|
            && FlatTexts(docs)[start..start + |docs[i].chunks|] == Texts(docs[i].chunks)
  {
    var n := |docs| - 1;
    if i < n {
      FlatSlice(docs[..n], i);
      assert docs[..n][..i] == docs[..i];
    }
  }

  method Flatten(docs: seq<DocToEmbed>) returns (texts: seq<string>, ranges: seq<(nat, nat)>)
    ensures texts == FlatTexts(docs)
    ensures |ranges| == |docs|
    ensures forall i :: 0 <= i < |docs| ==> ranges[i] == (|FlatTexts(docs[..i])|, |docs[i].chunks|)
  {
    texts, ranges := [], [];
    for i := 0 to |docs|
      invariant texts == FlatTexts(docs[..i]) && |ranges| == i
      invariant forall j :: 0 <= j < i ==> ranges[j] == (|FlatTexts(docs[..j])|, |docs[j].chunks|)
    {
      ranges := ranges + [(|texts|, |docs[i].chunks|)];
      assert docs[..i + 1][..i] == docs[..i];
      texts := texts + Texts(docs[i].chunks);
    }
    assert docs[..|docs|] == docs;
  }

  /** The first failure of two lists of results, one behind the other. */
  lemma FailureMeans(document: seq<EmbedResult>, clustering: seq<EmbedResult>)
    requires |document| == |clustering|
    ensures var failure := FirstFailure(document + clustering);
            && (failure.Some? <==> exists i :: 0 <= i < |document| && (document[i].Failed? || clustering[i].Failed?))
            && (failure.Some? ==>
                  || (exists i :: 0 <= i < |document| && document[i] == Failed(failure.value)
                                  && forall j :: 0 <= j < i ==> document[j].Embedded?)
                  || ((forall i :: 0 <= i < |document| ==> document[i].Embedded?)
                      && exists i :: 0 <= i < |document| && clustering[i] == Failed(failure.value)
                                     && forall j :: 0 <= j < i ==> clustering[j].Embedded?))
  {
    var all := document + clustering;
    if FirstFailure(all).Some? {
      var k := FailureAt(all);
      if k < |document| {
        assert document[k] == all[k];
        assert forall j :: 0 <= j < k ==> document[j] == all[j];
      } else {
        assert clustering[k - |document|] == all[k];
        assert forall j :: 0 <= j < |document| ==> document[j] == all[j];
        assert forall j :: 0 <= j < k - |document| ==> clustering[j] == all[|document| + j];
      }
    } else {
      NeitherFails(document, clustering);
    }
  }

  lemma {:induction false} FailureAt(results: seq<EmbedResult>) returns (k: nat)
    requires FirstFailure(results).Some?
    ensures k < |results| && results[k] == Failed(FirstFailure(results).value)
    ensures forall j :: 0 <= j < k ==> results[j].Embedded?
  {
    if results[0].Failed? {
      k := 0;
    } else {
      k := FailureAt(results[1..]);
      assert forall j :: 0 < j < k + 1 ==> results[j] == results[1..][j - 1];
      k := k + 1;
    }
  }

  method FindFailure(results: seq<EmbedResult>) returns (failure: Option<Failure>)
    ensures failure == FirstFailure(results)
  {
    var i := 0;
    while i < |results|
      invariant i <= |results| && FirstFailure(results) == FirstFailure(results[i..])
    {
      if results[i].Failed? {
        return Some(results[i].why);
      }
      i := i + 1;
    }
    failure := None;
  }

  /**
     A document's rows, one for each chunk in order: its id and type, the chunk's
     place, lengths and text, and the normalised vectors of the two roles. If a
     text failed there are no rows but the first failure, document role first.
     */
  method ScatterDoc(ctx: Context, doc: DocToEmbed, document: seq<EmbedResult>, clustering: seq<EmbedResult>)
    returns (outcome: Result<seq<ChunkRow>, Failure>)
    requires |document| == |clustering| == |doc.chunks|
    ensures outcome == RowsOrFailure(ctx, doc, document, clustering)
    ensures outcome.Ok? ==>
              && |outcome.value| == |doc.chunks|
              && forall i :: 0 <= i < |doc.chunks| ==>
                   var r, c := outcome.value[i], doc.chunks[i];
                   && document[i].Embedded? && clustering[i].Embedded?
                   && r.docId == doc.id && r.chunkIndex == c.index && r.content == c.text
                   && r.columns.docType == ctx.docTypeOf(doc.id) && r.columns.chunkCount == c.count
                   && r.columns.tokenStart == c.tokenStart && r.columns.docTokenLen == c.docTokenLen
                   && r.columns.embedding == ctx.normalize(document[i].vector)
                   && r.columns.clustering == ctx.normalize(clustering[i].vector)
    ensures outcome.Err? <==> exists i :: 0 <= i < |doc.chunks| && (document[i].Failed? || clustering[i].Failed?)
    ensures outcome.Err? ==>
              || (exists i :: 0 <= i < |doc.chunks| && document[i] == Failed(outcome.error)
                              && forall j :: 0 <= j < i ==> document[j].Embedded?)
              || ((forall i :: 0 <= i < |doc.chunks| ==> document[i].Embedded?)
                  && exists i :: 0 <= i < |doc.chunks| && clustering[i] == Failed(outcome.error)
                                 && forall j :: 0 <= j < i ==> clustering[j].Embedded?)
  {
    FailureMeans(document, clustering);
    var failure := FindFailure(document + clustering);
    if failure.Some? {
      return Err(failure.value);
    }
    NeitherFails(document, clustering);
    var rows: seq<ChunkRow> := [];
    for i := 0 to |doc.chunks|
      invariant |rows| == i
      invariant forall j :: 0 <= j < i ==> rows[j] == RowOf(ctx, doc.id, doc.chunks[j], document[j].vector, clustering[j].vector)
    {
      rows := rows + [RowOf(ctx, doc.id, doc.chunks[i], document[i].vector, clustering[i].vector)];
    }
    assert rows == RowsOrFailure(ctx, doc, document, clustering).value;
    outcome := Ok(rows);
  }

  method ClusteringVectors(ctx: Context, texts: seq<string>, ghost answers: Answers) returns (results: seq<EmbedResult>)
    requires ctx.embedBatchSize > 0 && ctx.clusteringProvider.Allowed(answers) && ctx.cache.Agrees(answers)
    modifies ctx.clusteringProvider`calls, ctx.cache
    ensures ctx.cache.Agrees(answers)
    ensures ClusteringRight(ctx, answers, texts, results)
  {
    if ctx.storeClustering {
      results := EmbedBatched(ctx.clusteringProvider, ctx.cache, texts, ctx.embedBatchSize, Clustering, answers);
    } else {
      results := Zeros(|texts|, ctx.dim);
    }
  }

  /** A slice of the results of a flat list is results of that slice. */
  lemma RightSlice(provider: Provider, answers: Answers, role: Role, texts: seq<string>, results: seq<EmbedResult>, from: nat, to: nat)
    requires ResultsRight(provider, answers, role, texts, results) && from <= to <= |texts|
    ensures ResultsRight(provider, answers, role, texts[from..to], results[from..to])
  {
  }

  lemma ClusteringSlice(ctx: Context, answers: Answers, texts: seq<string>, results: seq<EmbedResult>, from: nat, to: nat)
    requires ClusteringRight(ctx, answers, texts, results) && from <= to <= |texts|
    ensures |results| == |texts| && ClusteringRight(ctx, answers, texts[from..to], results[from..to])
  {
    if ctx.storeClustering {
      RightSlice(ctx.clusteringProvider, answers, Clustering, texts, results, from, to);
    }
  }

  /** The i-th document's batch from its slices of the flat results. */
  method ScatterAt(ctx: Context, docs: seq<DocToEmbed>, i: nat, range: (nat, nat),
                   document: seq<EmbedResult>, clustering: seq<EmbedResult>, ghost answers: Answers)
    returns (batch: Batch)
    requires i < |docs| && range == (|FlatTexts(docs[..i])|, |docs[i].chunks|)
    requires ResultsRight(ctx.provider, answers, Document, FlatTexts(docs), document)
    requires ClusteringRight(ctx, answers, FlatTexts(docs), clustering)
    ensures Possible(ctx, answers, docs[i], batch)
  {
    FlatSlice(docs, i);
    var (start, count) := range;
    RightSlice(ctx.provider, answers, Document, FlatTexts(docs), document, start, start + count);
    ClusteringSlice(ctx, answers, FlatTexts(docs), clustering, start, start + count);
    var mine, others := document[start..start + count], clustering[start..start + count];
    var outcome := ScatterDoc(ctx, docs[i], mine, others);
    batch := Scattered(docs[i], outcome);
    assert Makes(ctx, answers, docs[i], mine, others, batch);
  }

  /** Turn the flat results into rows, document by document. */
  method ScatterAll(ctx: Context, docs: seq<DocToEmbed>, ranges: seq<(nat, nat)>,
                    document: seq<EmbedResult>, clustering: seq<EmbedResult>, ghost answers: Answers, ghost gives: Gives)
    returns (batch: Batch, ghost batches: seq<Batch>)
    requires Describes(ctx, answers, gives)
    requires |ranges| == |docs| && forall i :: 0 <= i < |docs| ==> ranges[i] == (|FlatTexts(docs[..i])|, |docs[i].chunks|)
    requires ResultsRight(ctx.provider, answers, Document, FlatTexts(docs), document)
    requires ClusteringRight(ctx, answers, FlatTexts(docs), clustering)
    ensures AllGiven(gives, docs, batches) && batch == Gathered(batches)
  {
    batch, batches := NOTHING, [];
    for i := 0 to |docs|
      invariant AllGiven(gives, docs[..i], batches) && batch == Gathered(batches)
    {
      var one := ScatterAt(ctx, docs, i, ranges[i], document, clustering, answers);
      assert docs[..i + 1] == docs[..i] + [docs[i]];
      assert Possible(ctx, answers, docs[i], one);
      OneMore(gives, docs[..i], batches, docs[i], one);
      batch, batches := Joined(batch, one), batches + [one];
    }
    assert docs[..|docs|] == docs;
  }

  /** Embed the chunks of some documents in both roles; per document, all its rows or one skip. */
  method EmbedDocs(ctx: Context, docs: seq<DocToEmbed>, ghost answers: Answers, ghost gives: Gives)
    returns (batch: Batch, ghost batches: seq<Batch>)
    requires ctx.Configured(answers, gives) && ctx.cache.Agrees(answers)
    modifies ctx.provider`calls, ctx.clusteringProvider`calls, ctx.cache
    ensures ctx.cache.Agrees(answers)
    ensures AllGiven(gives, docs, batches) && batch == Gathered(batches)
  {
    var texts, ranges := Flatten(docs);
    var document := EmbedBatched(ctx.provider, ctx.cache, texts, ctx.embedBatchSize, Document, answers);
    var clustering := ClusteringVectors(ctx, texts, answers);
    batch, batches := ScatterAll(ctx, docs, ranges, document, clustering, answers, gives);
  }
}
