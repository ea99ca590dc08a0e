# Kosera AI Service: a Dafny model of its request handling and lifecycle

The Kosera AI Service is a small HTTP service that turns text into embedding
vectors using a pretrained sentence-transformer model
(`paraphrase-multilingual-MiniLM-L12-v2`, 384 dimensions). It offers a health
check (`GET /health` and `GET /`), single-text vectorization
(`POST /vectorize`) and batch vectorization of 1 to 100 texts
(`POST /vectorize/batch`). The model is loaded into a process-wide dictionary
`ml_models` when the application starts and cleared when it stops.

This project models the service logic around the model and proves its
promises:

- readiness is exactly "the model is in the store"; the request schema is
  checked first, and then every handler checks readiness before its own
  content checks;
- whitespace-only input gets a 400, not a 500, and never reaches the model;
- a batch fails as a whole on its first blank item and reports that item's
  zero-based index, with no partial result and no model call;
- a valid request calls the model exactly once: on the stripped text for a
  single request, and on the texts as given for a batch;
- an exception from the model becomes a 500, while an HTTP error raised
  inside the handler's `try` block passes through unchanged;
- startup either stores the model or re-raises and leaves the store empty,
  and shutdown empties the store.

The model itself is abstract. `Api.Encoder` holds two arbitrary total
functions, one for `encode` on a string and one for `encode` on a list. Each
returns a value or `Raised`. Vector elements have the opaque type
`Api.Scalar`. What the batch endpoint takes for granted about the model is
stated as predicates and used only as hypotheses:

- `Api.Aligned`: one vector per input text;
- `Api.Consistent`: vector `i` of a batch is the single embedding of text `i`;
- `Api.Dimensioned`: every vector has 384 elements.

Each handler returns an `Api.Reply`. It holds the typed outcome (success, or
an `Api.Error` with its HTTP status from `Api.Status`) and the list of model
calls the handler made. That list is how "never called" and "called exactly
once, on this argument" are stated.

Modules:

- `Text` (`text.dfy`): Python's `str.strip()` and the blank test
  `not text.strip()`.
- `Api` (`api.dfy`): configuration constants, the model store and readiness,
  the encoder abstraction, the request schemas, errors, outcomes, the
  exception mapping, and the responses.
- `Endpoints` (`endpoints.dfy`): the three endpoints and the properties that
  relate them.
- `Lifecycle` (`lifecycle.dfy`): the class `App`, which owns the store, its
  startup and shutdown, and one whole process lifetime.

### Behaviour worth knowing

- The request schema comes before readiness. The request body schema is
  checked before a handler runs. An empty string for `/vectorize`, or a batch
  of 0 or more than 100 texts, is therefore refused as `RequestInvalid`,
  whether or not a model is loaded. That is FastAPI's request-validation
  status 422. Readiness comes first only relative to the handlers' own
  content checks.
- Whitespace-only text (non-empty, so it passes the schema) gets the 400
  `EmptyText` from the handler.
- `dimension` differs between the two paths. A single response reports the
  length of the vector it got (main.py:176). A batch response reports the
  configured constant 384 (main.py:219). `Endpoints.DimensionsAgree` proves
  the two agree when the model is `Dimensioned`.
- The batch path does not strip texts before encoding them, while the single
  path does. Batch and single are therefore guaranteed to agree item by item
  on texts without surrounding whitespace (`Endpoints.BatchAgreesWithSingle`);
  on a padded text they send the model different strings
  (`Endpoints.BatchDoesNotStrip`).
- The service has no failed state: a failed load re-raises out of startup and
  leaves the store empty, so the process never serves.

## Model

| member | source | states |
|---|---|---|
| `Text.StripStart` | main.py:163 | the number of leading whitespace characters: all characters before it are whitespace and the one at it is not |
| `Text.StripEnd` | main.py:163 | the end of the text without its trailing whitespace: all characters from it on are whitespace and the one before it is not |
| `Text.Strip` | main.py:163-164 | `strip()` is empty exactly when every character is whitespace (`Text.IsBlank`, the reference for `not text.strip()` at main.py:164 and 205); otherwise it is the slice between the leading and the trailing whitespace, and neither of its ends is whitespace; whitespace is `Text.IsSpace`, the code points of Python's `str.isspace()`, which `strip()` removes at main.py:163 and 205 |
| `Text.StripUnique` | main.py:163 | any slice with only whitespace around it and no whitespace at its ends is the stripped form |
| `Text.StripIdempotent` | main.py:163 | stripping an already stripped text changes nothing |
| `Api.Status` | main.py:136-227 | each error has one HTTP status: 503 for no model (main.py:136-140, 159-160, 198-199), 400 for a blank text or blank batch item (main.py:164-168, 205-209), 500 for a model failure (main.py:181-184, 224-227), and 422 for a schema violation, which FastAPI's request validation sends before a handler runs (the schemas at main.py:88-100) |
| `Api.Catch` | main.py:178-227 | inside a handler's `try` (single text: main.py:178-184; batch: main.py:221-227), an HTTP error passes through unchanged, any other exception becomes a 500, and a normal return is a success carrying that value |
| `Endpoints.HealthCheck` | main.py:130-147 | 503 exactly when the store holds no model (`Api.Ready`, the test `"encoder" in ml_models` that main.py:134, 159 and 198 make); otherwise status "AI Service is running", the configured model name, dimension 384 and `ready = true` |
| `Endpoints.GenerateVector` | main.py:150-184 | with no model: 503 and no model call; a blank text: 400 and no model call; otherwise exactly one call on the stripped text, a 500 exactly when it raised, and on success its vector with `dimension` equal to the vector's length; this contract also fixes what the helper `Endpoints.VectorAttempt` (the `try` block, main.py:162-184) gives |
| `Endpoints.PostVectorize` | main.py:88-90 | an empty string (the text fails `Api.TextRequest.Valid`, the schema's `min_length=1` at main.py:90) is refused by the schema whether or not a model is loaded; any other text goes to the single-text handler |
| `Endpoints.FirstBlank` | main.py:204-209 | finds nothing exactly when no text is blank; otherwise finds the smallest index of a blank text |
| `Endpoints.BatchReply` | main.py:187-227 | with no model: 503 and no call; a 400 exactly when some item is blank, naming the first blank item's index, with no call and no vectors; otherwise exactly one call on the unstripped texts, a 500 exactly when it raised, and on success the model's vectors with `count` equal to their number (and to the number of texts when the model is aligned) and dimension 384 |
| `Endpoints.GenerateVectorsBatch` | main.py:198-227 | the handler's in-order scan with early exit on the first blank item, followed by one model call and its `except` clauses, answers exactly what `BatchReply` describes |
| `Endpoints.PostVectorizeBatch` | main.py:93-100 | a batch of 0 or more than 100 texts (it fails `Api.BatchTextRequest.Valid`, the bounds at main.py:95-100) is refused by the schema whether or not a model is loaded; any other batch goes to the batch handler |
| `Endpoints.SingleTreatsTextAsStripped` | main.py:163-171 | a non-blank text and its stripped form get the same answer and the same model call |
| `Endpoints.BatchAgreesWithSingle` | main.py:212-213 | for a model whose batch call is its single call item by item, every batch vector of a text without surrounding whitespace equals that text's single-endpoint vector |
| `Endpoints.DimensionsAgree` | main.py:173-219 | for a model whose vectors all have 384 elements, a single response reports dimension 384 (main.py:173-177) and every batch vector has the batch dimension, the constant 384 (main.py:213, 219) |
| `Endpoints.BatchDoesNotStrip` | main.py:213 | a batch passes " a" to the model as is, while the single endpoint passes "a" |
| `Endpoints.BlankMiddleItem` | main.py:204-209 | the batch ["a", "", "b"] fails as a whole with the index 1 and makes no model call |
| `Lifecycle.App.constructor` | main.py:29 | the store starts empty, so the service is not ready |
| `Lifecycle.App.Startup` | main.py:48-56 | a successful load stores the model under "encoder" and the service is ready; a failed load leaves the store unchanged, so nothing is half-loaded |
| `Lifecycle.App.Shutdown` | main.py:62 | the store is cleared whatever it held, so the service is not ready and a second shutdown is a no-op |
| `Lifecycle.RunLifespan` | main.py:36-63 | over one lifetime, health is 503 before startup; the service serves exactly when the load succeeded, and then health reports the model as ready and is 503 again after shutdown; a failed load never serves and never shuts down |

## Left out

- `download_model.py`: a build-time script that downloads and caches the model. It is I/O and a foreign library call with no logic of its own.
- The model library: tokenisation, the network and the floating-point content of vectors. The model is an arbitrary function with opaque vector elements. The three provider assumptions (`Aligned`, `Consistent`, `Dimensioned`) are hypotheses of the lemmas that need them and are never taken as facts.
- `Api.Encoder`: the model is a pair of total functions, so whether it raises is decided by its input alone. A transient failure (resource exhaustion, say) that makes the same text fail once and succeed later is not modelled; `Endpoints.SingleTreatsTextAsStripped` relies on this determinism for "the same answer".
- `.tolist()`: the conversion of array output to lists is the identity on the opaque vectors.
- FastAPI and pydantic wiring: routing, JSON parsing, and CORS middleware (main.py:67-81). Of the schema, only the length bounds are modelled (`min_length=1` on the text, 1 to 100 texts). A missing field or a value of the wrong type is not modelled.
- Pydantic 2 semantics are assumed for the schema bounds: `min_length`/`max_length` on the `List[str]` field (main.py:95-100) bound the number of texts. Under pydantic 1 they would bound each string's length and leave the list unbounded; the pinned pydantic version is not part of this model.
- `async` lifespan and request concurrency. The model is sequential: startup, requests against the store, shutdown. The `yield` that hands control to the server is the gap between `App.Startup` and `App.Shutdown`.
- `print` logging, and the detail strings of the HTTP errors. The single-text detail is not modelled. The batch detail is modelled as the item's index. The exception text embedded in 500 details (main.py:183, main.py:226) is not modelled.
- The environment lookup of `CACHE_DIR` (main.py:25). Where the model is loaded from only affects whether the load succeeds, and that is the `load` parameter of `App.Startup`.
- Unicode: `Text.IsSpace` lists the code points for which Python's `str.isspace()` holds. Characters are Dafny's Unicode scalar values; surrogate code points, which Python strings can hold, are not modelled.
