/**
 Embedding texts through a remote provider with a cache (src/embed/mod.rs,
 src/embed/cache.rs): cache hits and misses in one request, and batches that
 fall back to single texts when a batch fails.
 */
module Embedding {
  import opened Outcomes

  type Vector = seq<real>

  datatype Role = Document | Query | Clustering | Classification

  datatype TaskPrefix = TaskPrefix(document: string, query: string, clustering: string, classification: string)

  datatype EmbedError =
    | Unreachable(detail: string)
    | ProviderError(status: nat, body: string)
    | DimensionMismatch(expected: nat, actual: nat)
    | ParseError(detail: string)
    | CountMismatch(sent: nat, received: nat)

  /** What comes back from one request; `Body` is a decoded JSON body. */
  datatype Reply =
    | NoConnection(detail: string)
    | Response(status: nat, body: Result<seq<Vector>, string>, text: string)

  function Prefix(prefixes: Option<TaskPrefix>, role: Role): string {
    match prefixes
    case None => ""
    case Some(p) =>
      match role
      case Document => p.document
      case Query => p.query
      case Clustering => p.clustering
      case Classification => p.classification
  }

  /** The first vector of the wrong length decides the error. */
  function FirstBadLength(vectors: seq<Vector>, dim: nat): Option<nat> {
    if vectors == [] then None
    else if |vectors[0]| != dim then Some(|vectors[0]|)
    else FirstBadLength(vectors[1..], dim)
  }

  lemma {:induction false} NoBadLength(vectors: seq<Vector>, dim: nat)
    ensures FirstBadLength(vectors, dim) == None <==> forall i :: 0 <= i < |vectors| ==> |vectors[i]| == dim
  {
    if vectors != [] {
      NoBadLength(vectors[1..], dim);
      assert vectors == [vectors[0]] + vectors[1..];
    }
  }

  /** A reply to `sent` texts is used only if it holds that many vectors, all of the expected length. */
  function Accepted(reply: Reply, sent: nat, dim: nat): Result<seq<Vector>, EmbedError> {
    match reply
    case NoConnection(detail) => Err(Unreachable(detail))
    case Response(status, body, text) =>
      if !(200 <= status < 300) then Err(ProviderError(status, text))
      else match body
      case Err(detail) => Err(ParseError(detail))
      case Ok(vectors) =>
        var bad := FirstBadLength(vectors, dim);
        if bad.Some? then Err(DimensionMismatch(dim, bad.value))
        else if |vectors| != sent then Err(CountMismatch(sent, |vectors|))
        else Ok(vectors)
  }

  /**
     A reply is accepted exactly if it is a success with a body of one vector of
     the right length for each text, and else the first of these errors is
     reported: no connection, the status, the body, a length, the count.
     */
  lemma {:induction false} AcceptedMeans(reply: Reply, sent: nat, dim: nat)
    ensures var r := Accepted(reply, sent, dim);
            && (r.Ok? <==> reply.Response? && 200 <= reply.status <= 299 && reply.body.Ok? && |reply.body.value| == sent
                           && forall i :: 0 <= i < |reply.body.value| ==> |reply.body.value[i]| == dim)
            && (r.Ok? ==> r.value == reply.body.value)
            && (reply.NoConnection? ==> r == Err(Unreachable(reply.detail)))
            && (reply.Response? && !(200 <= reply.status <= 299) ==> r == Err(ProviderError(reply.status, reply.text)))
            && (reply.Response? && 200 <= reply.status <= 299 && reply.body.Err? ==> r == Err(ParseError(reply.body.error)))
            && (reply.Response? && 200 <= reply.status <= 299 && reply.body.Ok? && r.Err? ==>
                  || (r.error.DimensionMismatch? && r.error.expected == dim
                      && exists i :: 0 <= i < |reply.body.value| && |reply.body.value[i]| == r.error.actual != dim
                                     && forall j :: 0 <= j < i ==> |reply.body.value[j]| == dim)
                  || (r.error == CountMismatch(sent, |reply.body.value|)
                      && forall i :: 0 <= i < |reply.body.value| ==> |reply.body.value[i]| == dim))
  {
    if reply.Response? && reply.body.Ok? {
      NoBadLength(reply.body.value, dim);
      if FirstBadLength(reply.body.value, dim).Some? {
        var i := BadLengthAt(reply.body.value, dim);
      }
    }
  }

  lemma {:induction false} BadLengthAt(vectors: seq<Vector>, dim: nat) returns (i: nat)
    requires FirstBadLength(vectors, dim).Some?
    ensures i < |vectors| && |vectors[i]| == FirstBadLength(vectors, dim).value != dim
    ensures forall j :: 0 <= j < i ==> |vectors[j]| == dim
  {
    if |vectors[0]| != dim {
      i := 0;
    } else {
      i := BadLengthAt(vectors[1..], dim);
      i := i + 1;
    }
  }

  /** Which answers are possible for a model, a dimension and a prefixed text. */
  type Answers = (string, nat, string, Result<Vector, EmbedError>) -> bool

  /** One answer for each. */
  type Oracle = (string, nat, string) -> Result<Vector, EmbedError>

  function AnswersOf(oracle: Oracle): Answers {
    (model: string, dim: nat, text: string, answer: Result<Vector, EmbedError>) => answer == oracle(model, dim, text)
  }

  /** A remote provider; its reply may depend on how many requests went before. */
  class Provider {
    const model: string
    const dim: nat
    const prefixes: Option<TaskPrefix>
    const reply: (nat, seq<string>) -> Reply
    var calls: nat

    /** Accepted replies give each text one of its answers, and so does the error of a request for one text. */
    ghost predicate Allowed(answers: Answers) {
      && (forall n: nat, texts: seq<string>, i: nat ::
            i < |texts| && Accepted(reply(n, texts), |texts|, dim).Ok? && i < |Accepted(reply(n, texts), |texts|, dim).value| ==>
              answers(model, dim, texts[i], Ok(Accepted(reply(n, texts), |texts|, dim).value[i])))
      && (forall n: nat, t: string :: Accepted(reply(n, [t]), 1, dim).Err? ==>
              answers(model, dim, t, Err(Accepted(reply(n, [t]), 1, dim).error)))
    }

    /** This provider gives that answer in some reply. */
    ghost predicate Replied(text: string, answer: Result<Vector, EmbedError>) {
      if answer.Ok? then
        exists n: nat, texts: seq<string>, i: nat ::
          && i < |texts| && Accepted(reply(n, texts), |texts|, dim).Ok? && i < |Accepted(reply(n, texts), |texts|, dim).value|
          && texts[i] == text && Accepted(reply(n, texts), |texts|, dim).value[i] == answer.value
      else
        exists n: nat :: Accepted(reply(n, [text]), 1, dim) == Err(answer.error)
    }

    /** Nothing is assumed of a provider: it is allowed the answers it gives. */
    lemma AllowedItsReplies()
      ensures Allowed((m, d, text, answer) => Replied(text, answer))
    {
    }

    method Post(texts: seq<string>) returns (r: Reply)
      modifies this`calls
      ensures r == reply(old(calls), texts) && calls == old(calls) + 1
    {
      r := reply(calls, texts);
      calls := calls + 1;
    }
  }

  /** Keyed by model name and prefixed text; a disabled cache stores nothing. */
  class EmbedCache {
    const enabled: bool
    var entries: map<(string, string), Vector>

    /** Every entry is an answer of its model for its text. */
    ghost predicate Agrees(answers: Answers)
      reads this
    {
      forall k :: k in entries ==> answers(k.0, |entries[k]|, k.1, Ok(entries[k]))
    }

    /** The texts the cache lacks, in order. */
    function Missing(model: string, dim: nat, texts: seq<string>): seq<string>
      reads this
    {
      if texts == [] then []
      else
        var last := texts[|texts| - 1];
        Missing(model, dim, texts[..|texts| - 1]) + (if Has(model, dim, last) then [] else [last])
    }

    predicate Has(model: string, dim: nat, text: string)
      reads this
    {
      enabled && (model, text) in entries && |entries[(model, text)]| == dim
    }

    method Get(model: string, text: string, dim: nat) returns (hit: Option<Vector>)
      ensures hit == if Has(model, dim, text) then Some(entries[(model, text)]) else None
      ensures hit.Some? <==> enabled && (model, text) in entries && |entries[(model, text)]| == dim
      ensures hit.Some? ==> hit.value == entries[(model, text)]
    {
      if !enabled || (model, text) !in entries || |entries[(model, text)]| != dim {
        return None;
      }
      hit := Some(entries[(model, text)]);
    }

    method Put(model: string, text: string, v: Vector)
      modifies this
      ensures entries == if enabled then old(entries)[(model, text) := v] else old(entries)
    {
      if enabled {
        entries := entries[(model, text) := v];
      }
    }
  }

  /** A possible answer for a text as it is sent: with the prefix of its role. */
  ghost predicate Answered(provider: Provider, answers: Answers, role: Role, text: string, answer: Result<Vector, EmbedError>) {
    answers(provider.model, provider.dim, Prefix(provider.prefixes, role) + text, answer)
  }

  /** A possible answer for a text behind one of the provider's prefixes, if it has any. */
  ghost predicate SentAs(
      provider: Provider, answers: Answers, prefix: TaskPrefix -> string, text: string, answer: Result<Vector, EmbedError>)
  {
    answers(provider.model, provider.dim,
            (if provider.prefixes.Some? then prefix(provider.prefixes.value) else "") + text, answer)
  }

  /** Each role goes behind its own prefix. */
  lemma AnsweredMeans(provider: Provider, answers: Answers, text: string, answer: Result<Vector, EmbedError>)
    ensures Answered(provider, answers, Document, text, answer) <==>
              SentAs(provider, answers, (p: TaskPrefix) => p.document, text, answer)
    ensures Answered(provider, answers, Query, text, answer) <==>
              SentAs(provider, answers, (p: TaskPrefix) => p.query, text, answer)
    ensures Answered(provider, answers, Clustering, text, answer) <==>
              SentAs(provider, answers, (p: TaskPrefix) => p.clustering, text, answer)
    ensures Answered(provider, answers, Classification, text, answer) <==>
              SentAs(provider, answers, (p: TaskPrefix) => p.classification, text, answer)
  {
  }

  function Prefixed(prefixes: Option<TaskPrefix>, role: Role, texts: seq<string>): (r: seq<string>)
    ensures |r| == |texts|
  {
    seq(|texts|, i requires 0 <= i < |texts| => Prefix(prefixes, role) + texts[i])
  }

  /** Result slots while a call is under way: filled ones are right, the others are the misses. */
  ghost predicate SlotsRight(provider: Provider, answers: Answers, texts: seq<string>, results: seq<Option<Vector>>) {
    && |results| == |texts|
    && forall i :: 0 <= i < |texts| && results[i].Some? ==> answers(provider.model, provider.dim, texts[i], Ok(results[i].value))
  }

  predicate Indexes(misses: seq<nat>, texts: seq<string>) {
    forall k :: 0 <= k < |misses| ==> misses[k] < |texts|
  }

  function Picked(texts: seq<string>, misses: seq<nat>): (r: seq<string>)
    requires Indexes(misses, texts)
    ensures |r| == |misses|
  {
    seq(|misses|, k requires 0 <= k < |misses| => texts[misses[k]])
  }

  method Partition(provider: Provider, cache: EmbedCache, texts: seq<string>, ghost answers: Answers)
    returns (results: seq<Option<Vector>>, misses: seq<nat>)
    requires cache.Agrees(answers)
    ensures SlotsRight(provider, answers, texts, results)
    ensures forall i :: 0 <= i < |texts| ==> (results[i].None? <==> !cache.Has(provider.model, provider.dim, texts[i]))
    ensures forall i: nat :: i in misses <==> i < |texts| && results[i].None?
    ensures Indexes(misses, texts) && Picked(texts, misses) == cache.Missing(provider.model, provider.dim, texts)
  {
    results, misses := [], [];
    for i := 0 to |texts|
      invariant SlotsRight(provider, answers, texts[..i], results)
      invariant forall j :: 0 <= j < i ==> (results[j].None? <==> !cache.Has(provider.model, provider.dim, texts[j]))
      invariant forall j: nat :: j in misses <==> j < i && results[j].None?
      invariant Indexes(misses, texts) && Picked(texts, misses) == cache.Missing(provider.model, provider.dim, texts[..i])
    {
      assert texts[..i + 1][..i] == texts[..i];
      var hit := cache.Get(provider.model, texts[i], provider.dim);
      results := results + [hit];
      if hit.None? {
        assert Picked(texts, misses + [i]) == Picked(texts, misses) + [texts[i]];
        misses := misses + [i];
      }
    }
    assert texts[..|texts|] == texts;
  }

  /**
     Embed texts in at most one request, which names only the texts the cache
     lacks; the call fails exactly when that request does. A successful call
     returns an answer of each text in order, and an error for a single text is
     an answer of that text. Nothing is assumed of the provider.
     */
  method Embed(provider: Provider, cache: EmbedCache, texts: seq<string>, role: Role, ghost answers: Answers)
    returns (r: Result<seq<Vector>, EmbedError>)
    requires provider.Allowed(answers) && cache.Agrees(answers)
    modifies provider`calls, cache
    ensures cache.Agrees(answers)
    ensures r.Ok? ==> |r.value| == |texts| && forall i :: 0 <= i < |texts| ==> Answered(provider, answers, role, texts[i], Ok(r.value[i]))
    ensures |texts| == 1 && r.Err? ==> Answered(provider, answers, role, texts[0], Err(r.error))
    ensures var missing := old(cache.Missing(provider.model, provider.dim, Prefixed(provider.prefixes, role, texts)));
            && provider.calls == old(provider.calls) + (if missing == [] then 0 else 1)
            && (missing == [] ==> r.Ok?)
            && (missing != [] ==> var accepted := Accepted(provider.reply(old(provider.calls), missing), |missing|, provider.dim);
                                  (r.Ok? <==> accepted.Ok?) && (r.Err? ==> accepted == Err(r.error)))
    ensures r.Ok? && cache.enabled ==>
              forall t :: t in Prefixed(provider.prefixes, role, texts) ==> cache.Has(provider.model, provider.dim, t)
  {
    if texts == [] {
      return Ok([]);
    }
    var prefixed := Prefixed(provider.prefixes, role, texts);
    var results, misses := Partition(provider, cache, prefixed, answers);
    if misses == [] {
      forall i | 0 <= i < |texts| ensures results[i].Some? { assert i !in misses; }
      return Ok(seq(|results|, i requires 0 <= i < |results| => results[i].value));
    }
    if |texts| == 1 {
      assert prefixed[..0] == [] && cache.Missing(provider.model, provider.dim, prefixed) == [prefixed[0]];
    }
    r := Fetch(provider, cache, prefixed, results, misses, answers);
  }

  /** Request the missing texts and fill their slots. */
  method Fetch(provider: Provider, cache: EmbedCache, texts: seq<string>, slots: seq<Option<Vector>>, misses: seq<nat>,
               ghost answers: Answers)
    returns (r: Result<seq<Vector>, EmbedError>)
    requires provider.Allowed(answers) && cache.Agrees(answers) && SlotsRight(provider, answers, texts, slots)
    requires forall i: nat :: i in misses <==> i < |texts| && slots[i].None?
    requires forall i :: 0 <= i < |texts| && slots[i].Some? ==> cache.Has(provider.model, provider.dim, texts[i])
    requires Indexes(misses, texts) && misses != []
    modifies provider`calls, cache
    ensures cache.Agrees(answers) && provider.calls == old(provider.calls) + 1
    ensures var request := Picked(texts, misses);
            var accepted := Accepted(provider.reply(old(provider.calls), request), |request|, provider.dim);
            (r.Ok? <==> accepted.Ok?) && (r.Err? ==> accepted == Err(r.error))
    ensures r.Ok? ==> |r.value| == |texts| && forall i :: 0 <= i < |texts| ==> answers(provider.model, provider.dim, texts[i], Ok(r.value[i]))
    ensures r.Ok? && cache.enabled ==> forall i :: 0 <= i < |texts| ==> cache.Has(provider.model, provider.dim, texts[i])
  {
    var reply := provider.Post(Picked(texts, misses));
    var accepted := Accepted(reply, |misses|, provider.dim);
    if accepted.Err? {
      return Err(accepted.error);
    }
    NoBadLength(accepted.value, provider.dim);
    forall k | 0 <= k < |misses| ensures misses[k] in misses {}
    var filled := FillMisses(provider, cache, texts, slots, misses, accepted.value, answers);
    r := Ok(filled);
  }

  /** Put the fetched vectors in the cache and in their slots. */
  method FillMisses(provider: Provider, cache: EmbedCache, texts: seq<string>, slots: seq<Option<Vector>>,
                    misses: seq<nat>, vectors: seq<Vector>, ghost answers: Answers)
    returns (filled: seq<Vector>)
    requires cache.Agrees(answers) && SlotsRight(provider, answers, texts, slots)
    requires forall i: nat :: i in misses <==> i < |texts| && slots[i].None?
    requires forall i :: 0 <= i < |texts| && slots[i].Some? ==> cache.Has(provider.model, provider.dim, texts[i])
    requires |vectors| == |misses|
    requires forall k :: 0 <= k < |misses| ==> misses[k] in misses && |vectors[k]| == provider.dim
    requires forall k :: 0 <= k < |misses| ==> answers(provider.model, provider.dim, texts[misses[k]], Ok(vectors[k]))
    modifies cache
    ensures cache.Agrees(answers)
    ensures |filled| == |texts|
    ensures forall i :: 0 <= i < |texts| ==> answers(provider.model, provider.dim, texts[i], Ok(filled[i]))
    ensures cache.enabled ==> forall i :: 0 <= i < |texts| ==> cache.Has(provider.model, provider.dim, texts[i])
  {
    var results := slots;
    for k := 0 to |misses|
      invariant cache.Agrees(answers) && SlotsRight(provider, answers, texts, results)
      invariant forall i :: 0 <= i < |texts| && slots[i].Some? ==> results[i].Some?
      invariant forall j :: 0 <= j < k ==> results[misses[j]].Some?
      invariant cache.enabled ==> forall i :: 0 <= i < |texts| && results[i].Some? ==> cache.Has(provider.model, provider.dim, texts[i])
    {
      cache.Put(provider.model, texts[misses[k]], vectors[k]);
      results := results[misses[k] := Some(vectors[k])];
    }
    forall i: nat | i < |texts| ensures results[i].Some? {
      if slots[i].None? {
        assert i in misses;
      }
    }
    filled := seq(|results|, i requires 0 <= i < |results| => results[i].value);
  }

  // ── Batches ────────────────────────────────────────────────────────────────

  /** One text's result: its vector, or why it failed on its own. */
  datatype EmbedResult = Embedded(vector: Vector) | Failed(why: Failure)

  datatype Failure = AfterRetry(error: EmbedError) | RetryReturnedEmpty

  /** The result is a possible answer of the text sent on its own. */
  ghost predicate ResultAllowed(provider: Provider, answers: Answers, role: Role, text: string, result: EmbedResult) {
    match result
    case Embedded(v) => Answered(provider, answers, role, text, Ok(v))
    case Failed(AfterRetry(e)) => Answered(provider, answers, role, text, Err(e))
    case Failed(RetryReturnedEmpty) => false
  }

  ghost predicate ResultsRight(provider: Provider, answers: Answers, role: Role, texts: seq<string>, results: seq<EmbedResult>) {
    && |results| == |texts|
    && forall i :: 0 <= i < |texts| ==> ResultAllowed(provider, answers, role, texts[i], results[i])
  }

  /** After a failed batch every text is retried alone, so only texts that fail alone are marked. */
  method RetryIndividually(provider: Provider, cache: EmbedCache, batch: seq<string>, role: Role, ghost answers: Answers)
    returns (results: seq<EmbedResult>)
    requires provider.Allowed(answers) && cache.Agrees(answers)
    modifies provider`calls, cache
    ensures cache.Agrees(answers)
    ensures ResultsRight(provider, answers, role, batch, results)
  {
    results := [];
    for i := 0 to |batch|
      invariant cache.Agrees(answers)
      invariant ResultsRight(provider, answers, role, batch[..i], results)
    {
      var single := Embed(provider, cache, [batch[i]], role, answers);
      assert [batch[i]][0] == batch[i];
      match single
      case Ok(vectors) =>
        if vectors != [] {
          results := results + [Embedded(vectors[|vectors| - 1])];
        } else {
          results := results + [Failed(RetryReturnedEmpty)];
        }
      case Err(error) =>
        results := results + [Failed(AfterRetry(error))];
    }
    assert batch[..|batch|] == batch;
  }

  /** One request for the batch, and single retries if it fails. */
  method EmbedOrRetry(provider: Provider, cache: EmbedCache, batch: seq<string>, role: Role, ghost answers: Answers)
    returns (results: seq<EmbedResult>)
    requires provider.Allowed(answers) && cache.Agrees(answers)
    modifies provider`calls, cache
    ensures cache.Agrees(answers)
    ensures ResultsRight(provider, answers, role, batch, results)
  {
    var whole := Embed(provider, cache, batch, role, answers);
    match whole
    case Ok(vectors) =>
      results := seq(|vectors|, i requires 0 <= i < |vectors| => Embedded(vectors[i]));
    case Err(_) =>
      results := RetryIndividually(provider, cache, batch, role, answers);
  }

  lemma ResultsJoin(provider: Provider, answers: Answers, role: Role, a: seq<string>, b: seq<string>,
                    ra: seq<EmbedResult>, rb: seq<EmbedResult>)
    requires ResultsRight(provider, answers, role, a, ra) && ResultsRight(provider, answers, role, b, rb)
    ensures ResultsRight(provider, answers, role, a + b, ra + rb)
  {
  }

  /**
     Whatever the batch size, whatever the cache holds and whichever batches
     fail: each text has one result, an answer of its own.
     */
  method EmbedBatched(provider: Provider, cache: EmbedCache, texts: seq<string>, batchSize: nat, role: Role, ghost answers: Answers)
    returns (results: seq<EmbedResult>)
    requires batchSize > 0
    requires provider.Allowed(answers) && cache.Agrees(answers)
    modifies provider`calls, cache
    ensures cache.Agrees(answers)
    ensures ResultsRight(provider, answers, role, texts, results)
  {
    results := [];
    var start := 0;
    while start < |texts|
      invariant start <= |texts| && cache.Agrees(answers)
      invariant ResultsRight(provider, answers, role, texts[..start], results)
    {
      var end := if start + batchSize <= |texts| then start + batchSize else |texts|;
      var batch := texts[start..end];
      var part := EmbedOrRetry(provider, cache, batch, role, answers);
      ResultsJoin(provider, answers, role, texts[..start], batch, results, part);
      assert texts[..end] == texts[..start] + batch;
      results := results + part;
      start := end;
    }
    assert texts[..|texts|] == texts;
  }
}
