# FaunaDB Rust client: create-index builder and request pipeline, in Dafny

This project models two parts of a Rust client for FaunaDB's query language and
proves properties of the model.

1. **The `CreateIndex` query** (`src/query/write/create_index.rs`).
   - `Term` is a datatype with one constructor, `Term(obj: TermObject)`, mirroring the source's
     `Term { object: TermObject }`; the two variants of `TermObject` make field and binding
     mutually exclusive.
   - `IndexValue` and `IndexParams` are classes. Each has one `obj` field, and its setters
     update that field in place, as `self.object.x = …` does in the source.
   - Serde's derived serialization is an explicit function into a JSON value tree (`Json.Json`).
     `Term`, `IndexValue` and `IndexParams` each hold their content in a field named `object`,
     so each serializes as `{"object": {...}}`; `CreateIndex` serializes as `{"create_index": ...}`.
     A `None` option writes no key.
   - The proofs cover setter frames and the exact key set of each serialized object.
     They also prove that serialization is injective, so no setting is lost on the wire.
     Finally they reproduce the `meows` example tree key by key.
2. **The client** (`src/client.rs`).
   - `ClientBuilder` is a class with the defaults of `Client::builder` and two setters.
   - `Build` derives the `Basic` authorization string from the secret.
   - `BuildRequest` assembles the POST request through a mutable request builder, as the source does.
   - The decisions `request` makes are total functions. They cover UTF-8 validation of the
     body, the HTTP status dispatch, transport failures and the deadline race.

Two supporting modules model Rust standard-library behaviour the client depends on:
- `Utf8` is UTF-8 encoding and `String::from_utf8` validation, following RFC 3629 section 4.
  The proofs show that decoding and encoding are inverse in both directions.
- `Decimal` is the `format!("{}", n)` rendering of the Content-Length value and its parse.
  The proofs show a round trip in both directions.

Inputs stand in for what the model cannot see:
- the transport's outcome (`Exchange`);
- how the deadline race ended (`Deadline`);
- whether the TLS connector could be built (`Connector`);
- the URI parser, the base64 encoder and the two `serde_json` parsers, given as function parameters.

## Model

| member | source | states |
|---|---|---|
| `CreateIndexQuery.Term.OfField` | src/query/write/create_index.rs:114-123 | the term is the Field variant holding the path segments in order; it serializes to `{"object": {"field": [segments]}}` |
| `CreateIndexQuery.Term.OfBinding` | src/query/write/create_index.rs:126-135 | the term is the Binding variant holding the name; it serializes to `{"object": {"binding": name}}` |
| `CreateIndexQuery.IndexValue.Field` | src/query/write/create_index.rs:140-153 | field set to the path, binding absent, reverse false |
| `CreateIndexQuery.IndexValue.Binding` | src/query/write/create_index.rs:156-169 | binding set to the name, field absent, reverse false |
| `CreateIndexQuery.IndexValue.Reverse` | src/query/write/create_index.rs:172-175 | reverse becomes true; field and binding unchanged |
| `CreateIndexQuery.IndexParams.constructor` | src/query/write/create_index.rs:182-200 | name and source stored unchanged; active, unique, serialized false; terms, values, partitions, permissions, data absent; the name is not checked |
| `CreateIndexQuery.IndexParams.Active` | src/query/write/create_index.rs:203-206 | only `active` changes, to true; a second call changes nothing |
| `CreateIndexQuery.IndexParams.Unique` | src/query/write/create_index.rs:209-212 | only `unique` changes, to true; a second call changes nothing |
| `CreateIndexQuery.IndexParams.Serialized` | src/query/write/create_index.rs:216-219 | only `serialized` changes, to true; a second call changes nothing |
| `CreateIndexQuery.IndexParams.Terms` | src/query/write/create_index.rs:223-226 | `terms` becomes the given list, overwriting any earlier one; nothing else changes |
| `CreateIndexQuery.IndexParams.Values` | src/query/write/create_index.rs:230-233 | `values` becomes the given values, overwriting any earlier ones; nothing else changes |
| `CreateIndexQuery.IndexParams.Partitions` | src/query/write/create_index.rs:236-239 | `partitions` becomes the given u16; nothing else changes |
| `CreateIndexQuery.IndexParams.Permissions` | src/query/write/create_index.rs:242-245 | `permissions` becomes the given permission; nothing else changes |
| `CreateIndexQuery.IndexParams.Data` | src/query/write/create_index.rs:249-252 | `data` becomes the object converted to an expression; nothing else changes |
| `CreateIndexQuery.ObjectExpr` | src/query/write/create_index.rs:250 | the converted object has the same `{"object": ...}` wrapping as a serialized `Term`, `IndexValue` or `IndexParams`, and unwrapping it gives back exactly the object's fields |
| `CreateIndexQuery.ObjectExprInjective` | src/query/write/create_index.rs:250 | two objects that convert to the same expression are equal, so the metadata passed to `data` is not lost on the wire |
| `CreateIndexQuery.NewCreateIndex` | src/query/write/create_index.rs:27-33 | the query holds exactly the params it was given, and on the wire its `create_index` key carries exactly their serialization (with `SerializeCreateIndexInjective`, different params give different queries) |
| `CreateIndexQuery.SerializeTerm` | src/query/write/create_index.rs:43-62 | `{"object": {k: v}}` with exactly one key, `field` for a Field term and `binding` for a Binding term, holding the path or name |
| `CreateIndexQuery.SerializeValue` | src/query/write/create_index.rs:64-85 | `{"object": ...}` that always has `reverse`, has `field` iff a field is set and `binding` iff a binding is set, and nothing else |
| `CreateIndexQuery.SerializeTerms` | src/query/write/create_index.rs:96 | a list of terms serializes element by element, in order |
| `CreateIndexQuery.SerializeValues` | src/query/write/create_index.rs:98 | a list of values serializes element by element, in order |
| `CreateIndexQuery.SerializeParams` | src/query/write/create_index.rs:87-110 | `{"object": ...}` whose inner object always has name, source, active, unique, serialized with their values; it has terms, values, partitions, permissions, data iff each is set; it has no other key |
| `CreateIndexQuery.SerializeCreateIndex` | src/query/write/create_index.rs:22-25 | a single-key object `{"create_index": serialized params}` |
| `CreateIndexQuery.SerializeTermInjective` | src/query/write/create_index.rs:43-62 | two terms with the same wire form are equal |
| `CreateIndexQuery.SerializeValueInjective` | src/query/write/create_index.rs:64-72 | two value objects with the same wire form are equal |
| `CreateIndexQuery.SerializeTermsInjective` | src/query/write/create_index.rs:96 | two term lists with the same wire form are equal |
| `CreateIndexQuery.SerializeValuesInjective` | src/query/write/create_index.rs:98 | two value lists with the same wire form are equal |
| `CreateIndexQuery.SerializeParamsInjective` | src/query/write/create_index.rs:87-110 | two parameter sets with the same wire form are equal, so no stored setting is dropped |
| `CreateIndexQuery.SerializeCreateIndexInjective` | src/query/write/create_index.rs:22-33 | two create-index queries with the same wire form are equal |
| `CreateIndexQuery.ActiveOnWire` | src/query/write/create_index.rs:203-206 | after `active()` the wire object is the old one with `active` set to true |
| `CreateIndexQuery.UniqueOnWire` | src/query/write/create_index.rs:209-212 | after `unique()` the wire object is the old one with `unique` set to true |
| `CreateIndexQuery.SerializedOnWire` | src/query/write/create_index.rs:216-219 | after `serialized()` the wire object is the old one with `serialized` set to true |
| `CreateIndexQuery.TermsOnWire` | src/query/write/create_index.rs:223-226 | after `terms(ts)` the wire object is the old one with `terms` added or replaced |
| `CreateIndexQuery.ValuesOnWire` | src/query/write/create_index.rs:230-233 | after `values(vs)` the wire object is the old one with `values` added or replaced |
| `CreateIndexQuery.PartitionsOnWire` | src/query/write/create_index.rs:236-239 | after `partitions(n)` the wire object is the old one with `partitions` added or replaced |
| `CreateIndexQuery.PermissionsOnWire` | src/query/write/create_index.rs:242-245 | after `permissions(p)` the wire object is the old one with `permissions` added or replaced |
| `CreateIndexQuery.DataOnWire` | src/query/write/create_index.rs:249-252 | after `data(o)` the wire object is the old one with `data` added or replaced by the escaped object |
| `CreateIndexQuery.MeowsSerialized` | src/query/write/create_index.rs:283-335 | the `meows` builder state serializes to exactly the expected tree of the test; the proof applies the wire effects of `permissions`, `terms` and `values`, in that order, to the serialization of freshly built params |
| `CreateIndexQuery.MeowsIndex` | src/query/write/create_index.rs:261-336 | the `meows` index, built through the same constructor and setter calls, serializes to exactly the expected tree |
| `FaunaClient.ClientBuilder.constructor` | src/client.rs:84-90 | uri `https://db.fauna.com`, timeout 60 s, the given secret |
| `FaunaClient.ClientBuilder.SetUri` | src/client.rs:37-40 | only the uri changes |
| `FaunaClient.ClientBuilder.SetTimeout` | src/client.rs:43-46 | only the timeout changes |
| `FaunaClient.Credentials` | src/client.rs:53 | the bytes given to base64 are the UTF-8 of `secret + ":"` and decode back to it |
| `FaunaClient.ClientBuilder.Build` | src/client.rs:49-61 | a connector failure comes first, then an invalid URI; otherwise the client has the parsed uri, the builder's timeout, and authorization `"Basic " + base64(secret + ":")` |
| `FaunaClient.RequestBuilder.constructor` | src/client.rs:165 | an empty request builder: method GET, uri `/`, no headers |
| `FaunaClient.RequestBuilder.SetUri` | src/client.rs:167 | only the uri changes |
| `FaunaClient.RequestBuilder.SetMethod` | src/client.rs:168 | only the method changes |
| `FaunaClient.RequestBuilder.AddHeader` | src/client.rs:170-173 | the header is appended; nothing else changes |
| `FaunaClient.RequestBuilder.Body` | src/client.rs:175 | the request carries the builder's method, uri and headers with the given body |
| `FaunaClient.BuildRequest` | src/client.rs:164-176 | POST to the client's uri; the body is the payload's UTF-8 and decodes back to it; the headers, in order, are content-length (the body's byte count in decimal, which parses back to that count), content-type `application/json`, the client's authorization, and `x-faunadb-api-version: 2.1` |
| `FaunaClient.IsSuccess` | src/client.rs:132 | `StatusCode::is_success`: exactly the 2xx class, statuses 200 to 299 |
| `FaunaClient.Classify` | src/client.rs:127-147 | a non-UTF-8 body gives EmptyResponse whatever the status; 2xx gives `Ok(decode(text))`; 401 gives Unauthorized; 400 and 404 give BadRequest and NotFound with the parsed errors, or a panic when the body does not parse; any other status gives DatabaseError(text) |
| `FaunaClient.ClassifyCauses` | src/client.rs:127-147 | read back from the outcome: success iff 2xx with a UTF-8 body; EmptyResponse iff the body is not UTF-8; Unauthorized iff 401; BadRequest only for 400; NotFound only for 404; a panic only for 400/404; DatabaseError only for another non-2xx status, and its text re-encodes to exactly the bytes received |
| `FaunaClient.DecodeOnlyOnSuccess` | src/client.rs:132 | outside the 2xx UTF-8 case, the outcome does not depend on the decode function |
| `FaunaClient.ParseOnlyOnClientErrors` | src/client.rs:134-141 | outside 400 and 404, the outcome does not depend on the error-list parser |
| `FaunaClient.Respond` | src/client.rs:112-148 | a send failure or a body-read failure gives ConnectionError with its cause; a delivered response is classified; this stage never yields TimeoutError or Other |
| `FaunaClient.MapTimeoutErrorAsWritten` | src/client.rs:150-159 | as written: a failed timer gives TimeoutError, an inner error passes through, an elapsed deadline gives Other |
| `FaunaClient.ElapsedDeadlineIsOtherAsWritten` | src/client.rs:150-159 | as written, an elapsed deadline maps to Other, which differs from the intended TimeoutError |
| `FaunaClient.MapTimeoutError` | src/client.rs:150-159 | an elapsed deadline gives TimeoutError, an inner error passes through unchanged, a failed timer, which carries no inner error, gives Other |
| `FaunaClient.Request` | src/client.rs:107-162 | in time, the outcome is the transport stage's outcome unchanged; TimeoutError iff the deadline elapsed; a failed timer gives Other; success only in time, for a 2xx UTF-8 body, equal to decoding that body |
| `Utf8.Encode` | src/client.rs:170 | the UTF-8 bytes of a `String`, which `payload.len()` counts and `Body::from(payload)` sends: each scalar value takes 1 to 4 bytes, so the byte count lies between the character count and four times it |
| `Utf8.Decode` | src/client.rs:128 | `String::from_utf8`: the text, or None when the bytes are not well-formed UTF-8 by the byte ranges of RFC 3629 section 4; accepted text has between a quarter of the byte count and the byte count in characters, and `Utf8.DecodeIff` states exactly which bytes it accepts |
| `Utf8.DecodeIff` | src/client.rs:128 | `Decode(b) == Some(s)` exactly when `b == Encode(s)`: `from_utf8` accepts exactly the encodings of strings and returns the string encoded |
| `Utf8.DecodeEncode` | src/client.rs:128 | decoding the UTF-8 bytes of any string gives the string back |
| `Utf8.EncodeDecode` | src/client.rs:128 | bytes that `from_utf8` accepts re-encode to exactly those bytes |
| `Decimal.Render` | src/client.rs:170 | the rendering of a byte count is a canonical decimal numeral: digits only, no leading zero |
| `Decimal.ParseRender` | src/client.rs:170 | parsing the rendered Content-Length gives back the count |
| `Decimal.RenderValue` | src/client.rs:170 | every canonical numeral is the rendering of its value |

## Left out

- The hyper transport, the HTTPS/TLS connector and keep-alive (src/client.rs:50-51, 56, 112-115) are network I/O. They appear only as inputs: `Connector` says whether the connector was built, and `Exchange` is a send failure, a body-read failure, or a status with the whole body.
- The futures chaining and the `tokio_timer::Timeout` race (src/client.rs:117-161) are concurrency. The input `Deadline` says how the race ended. The client's `timeout` value is stored but never compared with a clock.
- The `serde_json` parsing of the success body and of `FaunaErrors` (src/client.rs:103, 135, 139) is given as function parameters. The `unwrap` on a 400/404 body that does not parse is the outcome `Panicked`. There is no `DatabaseError` fallback for that case.
- Base64 encoding (src/client.rs:53) and URI parsing (src/client.rs:57) are library calls. `Build` takes them as parameters.
- `Client::query` (src/client.rs:93-105) is left out. It renders an expression to JSON text, and byte-level JSON text output is not modelled. For the same reason, serialization produces a JSON value tree in which key order is not represented.
- `builder.body(...).unwrap()` (src/client.rs:175) is modelled as always succeeding. The http crate's header-value validation is not part of this model.
- Header names are recorded in lower case, as the http crate normalizes them.
- The internals of `Expr`, `Ref`, `IndexPermission` and `Object` are not shown. They are kept as already-serialized JSON values.
- `Expr::from(Object)` is assumed to be the `{"object": ...}` escape, the same convention the permissions tree in the test uses. The expression module is not part of this model.
- The `Query` wrapper (`Query::from`) is not part of this model. `SerializeCreateIndex` stands for the serialized query.
- The reserved index names listed in the doc comment at src/query/write/create_index.rs:179 are not checked. The code does not check them either.
- `Term::field` accepts an empty path, and so does the model: the code does not check for one.
- `Duration` holds whole seconds and nanoseconds below one second, as a Rust `Duration` does. `Duration::new`'s carrying of excess nanoseconds into seconds is not modelled, because the source only calls it with `(60, 0)`.
- The crate's `Error` enum (src/error.rs) is not part of this model. Construction failures of `build` are a separate `BuildError` type, and `ConnectionError` carries its cause as text.
- `trace!` logging and the `sync_client` feature (src/client.rs:5-11, 63-66) are left out.
- FaunaClient.Request: uses the corrected timeout mapping `MapTimeoutError`, not the as-written one. See Findings.

## Findings

| source | as written | input that shows it | evidently intended | confidence | as-written member | corrected member |
|---|---|---|---|---|---|---|
| src/client.rs:150-159 | `e.is_timer()` selects `TimeoutError`; otherwise `into_inner()` or `Other` | a request whose deadline elapses before the response arrives. In tokio-timer 0.2, `is_timer()` holds only for a failed timer, and `into_inner()` of an elapsed error is `None`, so the result is `Error::Other` | an elapsed deadline yields `TimeoutError`; a failed timer, which carries no inner error, yields `Other` | medium: rests on tokio-timer 0.2's `timeout::Error` API, which is outside this repository; not executed | `FaunaClient.MapTimeoutErrorAsWritten`, `FaunaClient.ElapsedDeadlineIsOtherAsWritten` | `FaunaClient.MapTimeoutError` |
