# JWT interceptor: a Dafny model

This project models the authentication interceptor that sits in front of the
users gRPC service of `jwt-interceptor-sample`. It covers three pieces:

- The shared Google certificate cache (`SharedGoogleCertificate` holding a
  `GoogleCertificate`). It is a class with the fields `kids` and `expires`.
  `get_certificate` is a method on that store. Its effect is specified by the
  function `CertificateStep` on the store's snapshot.
- `convert_kids`. It turns the endpoint's key-id to PEM map into a key-id to
  decoding-key map, all or nothing, with an imperative loop.
- `authorize` and `InterceptedService::call`. These are the ordered token
  checks, the identity header injection, and the mapping of their outcome to
  a reply. `get_uuid_from_request` reads the identity back.

Conventions used throughout:

- Time is an integer number of nanoseconds since the epoch, because
  `Utc::now()` has sub-second precision. A token's `exp` is in whole seconds.
  The token is therefore accepted at exactly `exp * 10^9` ns and expired one
  nanosecond later.
- Each clock reading that affects behaviour is its own parameter:
  `createdAt` in the store's constructor, and per call the cache check
  (`now`), the refresh stamp (`refreshedAt`) and the token expiry check
  (`checkedAt`). The readings used only in log lines are left out along with
  logging.
- The endpoint's answer is a parameter. It is `None` when the HTTP request or
  the JSON decoding failed.
- The libraries are function values in a `Library` datatype, and every
  property holds whatever they answer. These are jsonwebtoken's
  `decode_header` and RS256 `decode`, the openssl X.509 to RSA PEM chain,
  `DecodingKey::from_rsa_pem`, and chrono's range check on timestamps.
- The http crate's `HeaderValue::to_str` and `HeaderValue::from_str` rules
  are modelled exactly. `to_str` accepts only visible ASCII and tab.
  `from_str` rejects control characters other than tab.
- A panic (`expect`, `unwrap`, or an out-of-range timestamp) is its own
  outcome. It is never turned into an error status.

Behaviours of the code worth noting:

- A certificate that fails to convert aborts the task (`expect`). It is not a
  recoverable fetch error, so `call` produces no status in that case.
- The expiry comparison is made against a sub-second clock.
- `call` obtains the certificates (std-sample/src/interceptor.rs:72) before
  `authorize` looks at the header (:140). A request with no `authorization`
  header still triggers a fetch when the store is stale, and if that fetch
  fails the client gets "Unable to retrieve GoogleAPIs KID" rather than
  "Token not found".

## Model

| member | source | states |
|---|---|---|
| Kid.ConvertKids | common/src/kid.rs:12-31 | succeeds iff every certificate converts; then same key set as the input and each key is the one derived from the PEM under the same key id; an empty input gives an empty map; never a partial map |
| Interceptor.SharedGoogleCertificate.constructor | std-sample/src/interceptor.rs:30-35 | new store: empty key map, expiry one second before creation, so any clock reading from then on finds it stale |
| Interceptor.CertificateStep | std-sample/src/interceptor.rs:102-127 | fresh store (expires > now): returned unchanged with its own map, the answer is ignored; stale (expires <= now): fetch failure or conversion panic leave the store as it was; success replaces keys and expiry together (converted map, refresh stamp + 3 s) and returns the new map |
| Interceptor.GetCertificate | std-sample/src/interceptor.rs:93-128 | the method's new store and result are exactly those of CertificateStep; a fresh store is not written; no store write on failure |
| Interceptor.RefreshedStoreIsFresh | std-sample/src/interceptor.rs:120-125 | after a refresh stamped no earlier than the cache check, the store is fresh at that check's time |
| Interceptor.CachedUntilTtl | std-sample/src/interceptor.rs:107-122 | after a refresh, a later call reuses the cached map while the clock is under stamp + 3 s, and refetches from then on |
| Interceptor.FailedFetchIsRetried | std-sample/src/interceptor.rs:113-117 | a failed fetch or conversion leaves the store stale, so the next call fetches again |
| Interceptor.Authorize | std-sample/src/interceptor.rs:130-179 | accepts iff the token verifies, its timestamp is representable, it is not expired, the issuer is non-empty and encodable; the forwarded request has the identity under the user-id key, replacing any client value, and all other headers and the body unchanged; errors are unauthenticated except the unencodable issuer (unknown) |
| Interceptor.RejectionOrder | std-sample/src/interceptor.rs:140-172 | each rejection message occurs exactly when all earlier checks pass and its own fails: not found, not text, bad header, missing kid, unknown kid (whatever the signature), claims invalid, expired, empty issuer, unencodable |
| Interceptor.ExpiryBoundary | std-sample/src/interceptor.rs:166-169 | a verified token is accepted at the first nanosecond of its exp second and rejected as expired one nanosecond later |
| Interceptor.ReadBackIdentity | std-sample/src/interceptor.rs:173-177 | reading back the identity authorize injected gives the issuer exactly when it is plain ASCII, and panics otherwise |
| Interceptor.ForwardsVerifiedIdentity | std-sample/src/interceptor.rs:158-178 | for any library answers: a token whose header names "k1", present in the store, that verifies with issuer "abc-123" and has not expired is forwarded with identity "abc-123", which reads back unchanged |
| Interceptor.ReplyStatus | std-sample/src/interceptor.rs:80-83 | unauthenticated and permission-denied statuses pass unchanged; any other becomes internal "Unable to process with authorization" |
| Interceptor.Respond | std-sample/src/interceptor.rs:72-84 | the inner service is reached iff keys were obtained and authorize accepted, with exactly the request authorize returned; fetch failure answers internal "Unable to retrieve GoogleAPIs KID"; an authorize error e is answered with ReplyStatus(e), so every unauthenticated rejection reaches the client unchanged; replies are only unauthenticated or internal |
| Interceptor.FetchPrecedesTokenCheck | std-sample/src/interceptor.rs:72-78 | with a stale store and a failed fetch, a request without an authorization header is answered "Unable to retrieve GoogleAPIs KID", although authorize alone would answer "Token not found" |
| Interceptor.InterceptedService.Call | std-sample/src/interceptor.rs:66-86 | the store afterwards and the reply are those of CertificateStep followed by Respond |
| UserId.GetUuidFromRequest | common/src/request.rs:8-19 | present and textual: exactly the stored string; absent: unauthenticated "Please authenticate first"; present but not text: panic |
| Metadata.ToStr | std-sample/src/interceptor.rs:141-144 | a header value reads as text iff every character is visible ASCII or tab, and then as its own characters |
| Metadata.FromStr | std-sample/src/interceptor.rs:173-176 | a string becomes a header value iff it has no control character other than tab, and the value holds that string |
| Metadata.FromStrThenToStr | common/src/request.rs:12-13 | a value made by from_str reads back through to_str iff it is plain ASCII |

## Left out

- Concurrency. The `Arc`/`RwLock` sharing and the unguarded refresh race between concurrent calls are not modelled. The store has one sequential caller.
- The HTTPS request to the certificate endpoint and the JSON deserialisation. Their result is a parameter.
- Signature verification, JWS header parsing, X.509/PEM/RSA parsing and `DecodingKey` construction. They are arbitrary functions in `Library`. Any validation jsonwebtoken does inside `decode`, such as its own `exp` check with leeway, is part of that function's answer.
- chrono's range of representable timestamps. It is the `timestampInRange` parameter.
- The i64 width of `exp` and of chrono's instants. Integers are unbounded.
- Transport plumbing: `poll_ready`, the boxed future, `NamedService`, `to_http`, and the inner service's own response. A forwarded call is recorded as the request the inner service receives.
- Logging and the per-call `Uuid`.
- The panic messages of `convert_kids`'s `expect`s. A conversion failure is only a panic.
- Header maps with several values under one name, and header-name case folding. Names are lower-case and hold one value each. tonic's filtering of reserved headers when building metadata is not modelled either.
- The value of `METADATA_USER_ID`: common/src/constant.rs is not part of this model. A placeholder is used that differs from `authorization`.
- Server bootstrap (std-sample/src/server.rs, tokio-sample/src/main.rs) and the users handler (common/src/server.rs).
