/**
 The three endpoints over the model store: the health check, single-text
 vectorization and batch vectorization, each with readiness gating, input
 validation and the mapping of exceptions to typed outcomes.
 */
module Endpoints {
  import opened Api
  import opened Text

  // ---------------------------------------------------------------- GET /health and GET /

  /** The health check reads the store and never calls the model. It reports
      503 exactly when no model is loaded, and otherwise the fixed model
      identity with `ready` set. */
  function HealthCheck(store: ModelStore): (r: Outcome<HealthResponse>)
    ensures r.Failed? <==> !Ready(store)
    ensures r.Failed? ==> r.error == Unavailable && Status(r.error) == 503
    ensures r.Ok? ==> r.value == HealthResponse(HEALTH_STATUS, MODEL_NAME, EMBEDDING_DIMENSION, true)
  {
    var modelReady := Ready(store);
    if !modelReady then Failed(Unavailable)
    else Ok(HealthResponse(HEALTH_STATUS, MODEL_NAME, EMBEDDING_DIMENSION, modelReady))
  }

  // ---------------------------------------------------------------- POST /vectorize

  /** The `try` block of the single-text handler: strip, reject a blank text,
      encode the stripped text; paired with the model calls it makes.
      `GenerateVector`'s contract states what it gives. */
  function VectorAttempt(e: Encoder, raw: string): (Attempt<VectorResponse>, seq<Call>) {
    var text := Strip(raw);
    if text == [] then
      (Threw(Http(EmptyText)), [])
    else
      match e.encode(text)
      case Raised => (Threw(Fault), [EncodeText(text)])
      case Value(v) => (Returned(VectorResponse(SUCCESS, v, |v|)), [EncodeText(text)])
  }

  /** The single-text handler. Readiness is checked first; then a blank text is
      a 400 and makes no model call; otherwise the model is called exactly once,
      on the stripped text, and its exception (if any) becomes a 500. A success
      carries the model's vector and its length as `dimension`. */
  function GenerateVector(store: ModelStore, req: TextRequest): (r: Reply<VectorResponse>)
    requires req.Valid()
    ensures !Ready(store) ==> r == Reply(Failed(Unavailable), [])
    ensures r.outcome == Failed(EmptyText) <==> Ready(store) && IsBlank(req.text)
    ensures r.outcome == Failed(EncodeFailed) <==>
      Ready(store) && !IsBlank(req.text) && store[ENCODER_KEY].encode(Strip(req.text)).Raised?
    ensures r.outcome.Ok? <==>
      Ready(store) && !IsBlank(req.text) && store[ENCODER_KEY].encode(Strip(req.text)).Value?
    ensures r.outcome.Ok? ==>
      && r.outcome.value.vector == store[ENCODER_KEY].encode(Strip(req.text)).v
      && r.outcome.value.dimension == |r.outcome.value.vector|
      && r.outcome.value.status == SUCCESS
    ensures r.calls == if Ready(store) && !IsBlank(req.text) then [EncodeText(Strip(req.text))] else []
  {
    if ENCODER_KEY !in store then
      Reply(Failed(Unavailable), [])
    else
      var (attempt, calls) := VectorAttempt(store[ENCODER_KEY], req.text);
      Reply(Catch(attempt), calls)
  }

  /** `POST /vectorize`: the body schema is checked before the handler runs, so
      an empty string is refused with 422 whether or not a model is loaded. */
  function PostVectorize(store: ModelStore, text: string): (r: Reply<VectorResponse>)
    ensures text == [] ==> r == Reply(Failed(RequestInvalid), [])
    ensures text != [] ==> r == GenerateVector(store, TextRequest(text))
  {
    var req := TextRequest(text);
    if !req.Valid() then Reply(Failed(RequestInvalid), []) else GenerateVector(store, req)
  }

  // ---------------------------------------------------------------- POST /vectorize/batch

  /** The position of the first blank text, if there is one. */
  function FirstBlank(texts: seq<string>): (r: Option<nat>)
    ensures r.None? <==> forall i :: 0 <= i < |texts| ==> !IsBlank(texts[i])
    ensures r.Some? ==>
      && r.value < |texts|
      && IsBlank(texts[r.value])
      && forall j :: 0 <= j < r.value ==> !IsBlank(texts[j])
  {
    if texts == [] then None
    else if Strip(texts[0]) == [] then Some(0)
    else
      var rest := texts[1..];
      assert forall j :: 1 <= j < |texts| ==> texts[j] == rest[j - 1];
      match FirstBlank(rest)
      case None => None
      case Some(i) => Some(i + 1)
  }

  /** A blank text preceded only by non-blank ones is the one `FirstBlank`
      finds. */
  lemma FirstBlankIsUnique(texts: seq<string>, k: nat)
    requires k < |texts| && IsBlank(texts[k])
    requires forall j :: 0 <= j < k ==> !IsBlank(texts[j])
    ensures FirstBlank(texts) == Some(k)
  {
  }

  /** What the batch handler answers, stated without its loop. Readiness first;
      then the whole request fails on the first blank item, naming its
      zero-based index, with no model call; otherwise the model is called
      exactly once on the texts as given (not stripped), and its exception (if
      any) becomes a 500. A success carries the model's vectors, their number
      as `count` and the configured dimensionality; when the model keeps one
      vector per text, `count` is the number of texts. */
  function BatchReply(store: ModelStore, req: BatchTextRequest): (r: Reply<BatchVectorResponse>)
    requires req.Valid()
    ensures !Ready(store) ==> r == Reply(Failed(Unavailable), [])
    ensures r.outcome.Failed? && r.outcome.error.EmptyItem? <==>
      Ready(store) && exists i :: 0 <= i < |req.texts| && IsBlank(req.texts[i])
    ensures r.outcome.Failed? && r.outcome.error.EmptyItem? ==>
      var i := r.outcome.error.index;
      && i < |req.texts|
      && IsBlank(req.texts[i])
      && (forall j :: 0 <= j < i ==> !IsBlank(req.texts[j]))
      && r.calls == []
    ensures r.outcome == Failed(EncodeFailed) <==>
      && Ready(store)
      && (forall i :: 0 <= i < |req.texts| ==> !IsBlank(req.texts[i]))
      && store[ENCODER_KEY].encodeBatch(req.texts).Raised?
    ensures r.outcome.Ok? <==>
      && Ready(store)
      && (forall i :: 0 <= i < |req.texts| ==> !IsBlank(req.texts[i]))
      && store[ENCODER_KEY].encodeBatch(req.texts).Value?
    ensures r.outcome.Ok? ==>
      && r.outcome.value.vectors == store[ENCODER_KEY].encodeBatch(req.texts).v
      && r.outcome.value.count == |r.outcome.value.vectors|
      && r.outcome.value.dimension == EMBEDDING_DIMENSION
      && r.outcome.value.status == SUCCESS
    ensures r.outcome.Ok? && Aligned(store[ENCODER_KEY]) ==> r.outcome.value.count == |req.texts|
    ensures r.calls ==
      if Ready(store) && forall i :: 0 <= i < |req.texts| ==> !IsBlank(req.texts[i])
      then [EncodeTexts(req.texts)] else []
  {
    if ENCODER_KEY !in store then
      Reply(Failed(Unavailable), [])
    else
      match FirstBlank(req.texts)
      case Some(index) => Reply(Catch(Threw(Http(EmptyItem(index)))), [])
      case None =>
        var e := store[ENCODER_KEY];
        match e.encodeBatch(req.texts)
        case Raised => Reply(Catch(Threw(Fault)), [EncodeTexts(req.texts)])
        case Value(vectors) =>
          Reply(Catch(Returned(BatchVectorResponse(SUCCESS, vectors, |vectors|, EMBEDDING_DIMENSION))),
                [EncodeTexts(req.texts)])
  }

  /** The batch handler as written: readiness check, then inside the `try` a
      scan of the texts in order that raises on the first blank one, then one
      model call on the whole list. */
  method GenerateVectorsBatch(store: ModelStore, req: BatchTextRequest) returns (r: Reply<BatchVectorResponse>)
    requires req.Valid()
    ensures r == BatchReply(store, req)
  {
    if ENCODER_KEY !in store {
      return Reply(Failed(Unavailable), []);
    }
    var texts := req.texts;
    for index := 0 to |texts|
      invariant forall j :: 0 <= j < index ==> !IsBlank(texts[j])
    {
      if Strip(texts[index]) == [] {
        FirstBlankIsUnique(texts, index);
        // the HTTP error raised here passes through the `except` clauses
        return Reply(Catch(Threw(Http(EmptyItem(index)))), []);
      }
    }
    assert FirstBlank(texts) == None;
    var calls := [EncodeTexts(texts)];
    var encoded := store[ENCODER_KEY].encodeBatch(texts);
    if encoded.Raised? {
      return Reply(Catch(Threw(Fault)), calls);
    }
    var vectors := encoded.v;
    r := Reply(Catch(Returned(BatchVectorResponse(SUCCESS, vectors, |vectors|, EMBEDDING_DIMENSION))), calls);
  }

  /** `POST /vectorize/batch`: the body schema is checked before the handler
      runs, so an empty list or one of more than 100 texts is refused with 422
      whether or not a model is loaded. */
  method PostVectorizeBatch(store: ModelStore, texts: seq<string>) returns (r: Reply<BatchVectorResponse>)
    ensures !(MIN_BATCH <= |texts| <= MAX_BATCH) ==> r == Reply(Failed(RequestInvalid), [])
    ensures MIN_BATCH <= |texts| <= MAX_BATCH ==> r == BatchReply(store, BatchTextRequest(texts))
  {
    var req := BatchTextRequest(texts);
    if !req.Valid() {
      return Reply(Failed(RequestInvalid), []);
    }
    r := GenerateVectorsBatch(store, req);
  }

  // ---------------------------------------------------------------- properties across endpoints

  /** The single endpoint answers a text and its stripped form alike, and
      asks the same of the model. */
  lemma SingleTreatsTextAsStripped(store: ModelStore, text: string)
    requires !IsBlank(text)
    ensures text != [] && Strip(text) != []
    ensures GenerateVector(store, TextRequest(Strip(text))) == GenerateVector(store, TextRequest(text))
  {
    StripIdempotent(text);
    assert !IsBlank(Strip(text));
  }

  /** When the model's batch call is its single call applied item by item, a
      successful batch agrees with the single endpoint on every text that has
      no surrounding whitespace. */
  lemma BatchAgreesWithSingle(store: ModelStore, req: BatchTextRequest, i: nat)
    requires req.Valid() && Ready(store) && Consistent(store[ENCODER_KEY])
    requires BatchReply(store, req).outcome.Ok?
    requires i < |req.texts| && Strip(req.texts[i]) == req.texts[i]
    ensures req.texts[i] != []
    ensures GenerateVector(store, TextRequest(req.texts[i])).outcome.Ok?
    ensures GenerateVector(store, TextRequest(req.texts[i])).outcome.value.vector
         == BatchReply(store, req).outcome.value.vectors[i]
  {
    var e := store[ENCODER_KEY];
    assert !IsBlank(req.texts[i]);
    assert e.encodeBatch(req.texts).Value?;
    assert e.encode(req.texts[i]).Value?;
  }

  /** When every vector the model yields has the configured dimensionality,
      the two endpoints report the same `dimension`, and every batch vector has
      that length. */
  lemma DimensionsAgree(store: ModelStore, text: string, req: BatchTextRequest)
    requires TextRequest(text).Valid() && req.Valid()
    requires Ready(store) && Dimensioned(store[ENCODER_KEY])
    ensures GenerateVector(store, TextRequest(text)).outcome.Ok? ==>
      GenerateVector(store, TextRequest(text)).outcome.value.dimension == EMBEDDING_DIMENSION
    ensures BatchReply(store, req).outcome.Ok? ==>
      forall k :: 0 <= k < |BatchReply(store, req).outcome.value.vectors| ==>
        |BatchReply(store, req).outcome.value.vectors[k]| == BatchReply(store, req).outcome.value.dimension
  {
    var e := store[ENCODER_KEY];
    if GenerateVector(store, TextRequest(text)).outcome.Ok? {
      assert e.encode(Strip(text)).Value?;
    }
  }

  /** The batch path hands the texts to the model as given, while the single
      path strips: " a" is sent as " a" in a batch and as "a" alone. */
  lemma BatchDoesNotStrip(store: ModelStore)
    requires Ready(store)
    ensures BatchReply(store, BatchTextRequest([" a"])).calls == [EncodeTexts([" a"])]
    ensures GenerateVector(store, TextRequest(" a")).calls == [EncodeText("a")]
  {
    var padded := " a";
    assert IsSpace(padded[0]) && !IsSpace(padded[1]);
    StripUnique(padded, 1, 2);
    assert padded[1..2] == "a";
    assert !IsBlank(padded) by { assert !IsSpace(padded[1]); }
    assert forall i :: 0 <= i < |[padded]| ==> !IsBlank([padded][i]);
  }

  /** A batch with a blank item in the middle fails as a whole, naming that
      item's index. */
  lemma BlankMiddleItem(store: ModelStore)
    requires Ready(store)
    ensures BatchReply(store, BatchTextRequest(["a", "", "b"])) == Reply(Failed(EmptyItem(1)), [])
  {
    var texts := ["a", "", "b"];
    assert !IsBlank(texts[0]) by { assert !IsSpace(texts[0][0]); }
    assert IsBlank(texts[1]);
  }
}
