/**
 The service's configuration, request schemas, error taxonomy, the embedding
 model seen as an abstract collaborator, and the response records.
 */
module Api {

  // ---------------------------------------------------------------- configuration

  /** The pretrained model the service loads. */
  const MODEL_NAME: string := "paraphrase-multilingual-MiniLM-L12-v2"

  /** The output dimensionality the configuration promises for that model. */
  const EMBEDDING_DIMENSION: nat := 384

  /** The key under which the loaded model is kept in the model store. */
  const ENCODER_KEY: string := "encoder"

  /** Bounds of the batch request schema: 1 to 100 texts. */
  const MIN_BATCH: nat := 1
  const MAX_BATCH: nat := 100

  datatype Option<T> = None | Some(value: T)

  // ---------------------------------------------------------------- the model

  /** One element of an embedding; its numeric content is not modelled. */
  type Scalar(==)

  type Vector = seq<Scalar>

  /** What a call into the model library gives back: a value, or an exception
      of its own (never an HTTP error). */
  datatype Encoded<T> = Value(v: T) | Raised

  /** A loaded model: `encode` applied to one string and to a list of strings.
      Both are the same library method, called with a `str` or a `list`. */
  datatype Encoder = Encoder(
    encode: string -> Encoded<Vector>,
    encodeBatch: seq<string> -> Encoded<seq<Vector>>)

  /** The assumption the batch endpoint relies on: the model returns one vector
      per input text. */
  ghost predicate Aligned(e: Encoder) {
    forall ts: seq<string> {:trigger e.encodeBatch(ts)} ::
      e.encodeBatch(ts).Value? ==> |e.encodeBatch(ts).v| == |ts|
  }

  /** The stronger assumption that the batch call is the single call applied
      position by position: vector `i` of a batch is the embedding of text `i`. */
  ghost predicate Consistent(e: Encoder) {
    && Aligned(e)
    && forall ts: seq<string>, i: int {:trigger e.encode(ts[i]), e.encodeBatch(ts)} ::
         0 <= i < |ts| && e.encodeBatch(ts).Value? ==>
           e.encode(ts[i]).Value? && e.encodeBatch(ts).v[i] == e.encode(ts[i]).v
  }

  /** The assumption that every vector the model yields has the configured
      dimensionality. */
  ghost predicate Dimensioned(e: Encoder) {
    && (forall t: string {:trigger e.encode(t)} ::
          e.encode(t).Value? ==> |e.encode(t).v| == EMBEDDING_DIMENSION)
    && (forall ts: seq<string>, i: int {:trigger e.encodeBatch(ts).v[i]} ::
          e.encodeBatch(ts).Value? && 0 <= i < |e.encodeBatch(ts).v| ==>
            |e.encodeBatch(ts).v[i]| == EMBEDDING_DIMENSION)
  }

  /** The process-wide model store, `ml_models`: a dictionary that holds the
      loaded model under `ENCODER_KEY` once startup succeeded. */
  type ModelStore = map<string, Encoder>

  /** Readiness is exactly the presence of the model in the store. */
  predicate Ready(store: ModelStore) {
    ENCODER_KEY in store
  }

  /** One request to the model, as a handler issues it. */
  datatype Call = EncodeText(text: string) | EncodeTexts(texts: seq<string>)

  // ---------------------------------------------------------------- requests

  /** Body of `POST /vectorize`. */
  datatype TextRequest = TextRequest(text: string) {
    /** The schema's `min_length=1` on `text`. */
    predicate Valid() { |text| >= 1 }
  }

  /** Body of `POST /vectorize/batch`. */
  datatype BatchTextRequest = BatchTextRequest(texts: seq<string>) {
    /** The schema's `min_length=1, max_length=100` on `texts`. */
    predicate Valid() { MIN_BATCH <= |texts| <= MAX_BATCH }
  }

  // ---------------------------------------------------------------- outcomes

  /** The failures a client can see. */
  datatype Error =
    | RequestInvalid         // the body does not meet its schema
    | Unavailable            // no model loaded
    | EmptyText              // the single text is blank
    | EmptyItem(index: nat)  // the batch item at `index` is blank
    | EncodeFailed           // the model raised while encoding

  /** The HTTP status each failure is sent with. */
  function Status(e: Error): (code: int)
    ensures code == 503 <==> e.Unavailable?
    ensures code == 400 <==> e.EmptyText? || e.EmptyItem?
    ensures code == 500 <==> e.EncodeFailed?
    ensures code == 422 <==> e.RequestInvalid?
  {
    match e
    case RequestInvalid => 422
    case Unavailable => 503
    case EmptyText => 400
    case EmptyItem(_) => 400
    case EncodeFailed => 500
  }

  /** The typed outcome of one endpoint call. */
  datatype Outcome<T> = Ok(value: T) | Failed(error: Error)

  /** What an endpoint call answers, together with the model calls it made,
      in order. */
  datatype Reply<T> = Reply(outcome: Outcome<T>, calls: seq<Call>)

  /** An exception raised inside a handler's `try` block: an HTTP error the
      handler raised itself, or anything else (from the model library). */
  datatype Raise = Http(error: Error) | Fault

  /** How a `try` block ended. */
  datatype Attempt<T> = Returned(value: T) | Threw(exception: Raise)

  /** The handlers' `except HTTPException: raise` / `except Exception` pair:
      an HTTP error raised inside the block passes through unchanged, any other
      exception becomes a 500, and a normal return is a success. */
  function Catch<T>(a: Attempt<T>): (o: Outcome<T>)
    ensures a.Returned? <==> o.Ok?
    ensures a.Returned? ==> o.value == a.value
    ensures a.Threw? && a.exception.Http? ==> o == Failed(a.exception.error)
    ensures a == Threw(Fault) ==> o == Failed(EncodeFailed) && Status(o.error) == 500
  {
    match a
    case Returned(v) => Ok(v)
    case Threw(Http(e)) => Failed(e)
    case Threw(Fault) => Failed(EncodeFailed)
  }

  // ---------------------------------------------------------------- responses

  datatype HealthResponse = HealthResponse(status: string, model: string, dimension: int, ready: bool)

  datatype VectorResponse = VectorResponse(status: string, vector: Vector, dimension: int)

  datatype BatchVectorResponse = BatchVectorResponse(
    status: string, vectors: seq<Vector>, count: int, dimension: int)

  const HEALTH_STATUS: string := "AI Service is running"
  const SUCCESS: string := "success"
}
