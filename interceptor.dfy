/**
  The authentication interceptor placed in front of the users service: the
  shared certificate cache with its refresh rule, the token checks of
  `authorize`, and the way `call` turns their outcome into a reply.

  Every clock reading is an integer number of nanoseconds since the epoch.
  Each clock reading that affects behaviour is its own parameter: the
  store's creation time, and per call the cache check, the refresh stamp and
  the token expiry check (readings used only for logging are left out). The certificate endpoint's answer (already
  deserialised into a key-id to PEM map, or `None` when the request or the
  JSON decoding failed) is a parameter too.
 */
module Interceptor {
  import opened Wrappers
  import opened Grpc
  import opened Metadata
  import opened Jwt
  import opened Kid
  import opened UserId

  const NanosPerSecond: int := 1_000_000_000

  /** How long a refreshed certificate set stays fresh: three seconds. */
  const CacheTtl: int := 3 * NanosPerSecond

  /* The store ------------------------------------------------------------ */

  /** The process-wide certificate store (`SharedGoogleCertificate`), used by one caller at a time. */
  class SharedGoogleCertificate {
    var kids: map<string, DecodingKey>
    var expires: int

    /** `SharedGoogleCertificate::new`: no keys, and already stale one second before it was made. */
    constructor (createdAt: int)
      ensures kids == map[] && expires == createdAt - NanosPerSecond
      ensures forall now :: now >= createdAt - NanosPerSecond ==> NeedsRefresh(Snapshot(), now)
    {
      kids := map[];
      expires := createdAt - NanosPerSecond;
    }

    /** The copy taken under the read lock. */
    function Snapshot(): GoogleCertificate
      reads this
    {
      GoogleCertificate(kids, expires)
    }
  }

  /** The refresh condition: the expiry instant has been reached (inclusive). */
  predicate NeedsRefresh(cert: GoogleCertificate, now: int) {
    cert.expires <= now
  }

  /** How `get_certificate` ends: with a key map, with an error, or with a panic of `convert_kids`. */
  datatype CertificateOutcome =
    | Keys(kids: map<string, DecodingKey>)
    | FetchFailed
    | ConversionPanicked

  /** The store's content after one `get_certificate`, and how that call ended. */
  datatype Step = Step(store: GoogleCertificate, outcome: CertificateOutcome)

  /**
    The store's new content and the outcome of one `get_certificate`, given the
    store's content before it. A fresh store is returned as it is and the
    endpoint's answer is never looked at; a stale one is replaced, keys and
    expiry together, only when the answer arrived and every certificate in it
    converted.
   */
  function CertificateStep(
    cert: GoogleCertificate, now: int, response: Option<map<string, string>>, refreshedAt: int, lib: Library
  ): (r: Step)
    ensures !NeedsRefresh(cert, now) ==> r == Step(cert, Keys(cert.kids))
    ensures r.outcome.Keys? ==> r.outcome.kids == r.store.kids
    ensures r.outcome.FetchFailed? <==> NeedsRefresh(cert, now) && response.None?
    ensures r.outcome.ConversionPanicked? <==>
      NeedsRefresh(cert, now) && response.Some? && ConvertedKids(response.value, lib).None?
    ensures !r.outcome.Keys? ==> r.store == cert
    ensures NeedsRefresh(cert, now) && r.outcome.Keys? ==>
      response.Some? && ConvertedKids(response.value, lib) == Some(r.store.kids) && r.store.expires == refreshedAt + CacheTtl
  {
    if !NeedsRefresh(cert, now) then
      Step(cert, Keys(cert.kids))
    else
      match response
      case None => Step(cert, FetchFailed)
      case Some(certificates) =>
        match ConvertedKids(certificates, lib)
        case None => Step(cert, ConversionPanicked)
        case Some(kids) =>
          var refreshed := GoogleCertificate(kids, refreshedAt + CacheTtl);
          Step(refreshed, Keys(refreshed.kids))
  }

  /**
    `get_certificate`: take a copy of the store; if it is stale, convert the
    endpoint's answer and write keys and expiry into the store, then return
    the (possibly new) copy's keys.
   */
  method GetCertificate(
    lock: SharedGoogleCertificate, now: int, response: Option<map<string, string>>, refreshedAt: int, lib: Library
  ) returns (r: CertificateOutcome)
    modifies lock
    ensures Step(lock.Snapshot(), r) == CertificateStep(old(lock.Snapshot()), now, response, refreshedAt, lib)
    ensures !NeedsRefresh(old(lock.Snapshot()), now) ==> unchanged(lock) && r == Keys(old(lock.kids))
    ensures !r.Keys? ==> unchanged(lock)
  {
    var cert := lock.Snapshot();
    if NeedsRefresh(cert, now) {
      if response.None? {
        return FetchFailed;
      }
      var kids := ConvertKids(response.value, lib);
      if kids.None? {
        return ConversionPanicked;
      }
      lock.expires := refreshedAt + CacheTtl;
      lock.kids := kids.value;
      cert := lock.Snapshot();
    }
    r := Keys(cert.kids);
  }

  /** A store refreshed with a clock that has not gone back stays fresh for the rest of that call. */
  lemma RefreshedStoreIsFresh(
    cert: GoogleCertificate, now: int, response: Option<map<string, string>>, refreshedAt: int, lib: Library
  )
    requires NeedsRefresh(cert, now) && CertificateStep(cert, now, response, refreshedAt, lib).outcome.Keys?
    requires now <= refreshedAt
    ensures !NeedsRefresh(CertificateStep(cert, now, response, refreshedAt, lib).store, now)
  {
  }

  /**
    After a refresh stamped at `refreshedAt`, a later call reuses the cached
    map, whatever the endpoint would answer, exactly while its clock reads
    less than three seconds after the stamp.
   */
  lemma CachedUntilTtl(
    cert: GoogleCertificate, now: int, response: Option<map<string, string>>, refreshedAt: int,
    later: int, response': Option<map<string, string>>, refreshedAt': int, lib: Library
  )
    requires NeedsRefresh(cert, now) && CertificateStep(cert, now, response, refreshedAt, lib).outcome.Keys?
    ensures var refreshed := CertificateStep(cert, now, response, refreshedAt, lib).store;
      later < refreshedAt + CacheTtl ==>
        CertificateStep(refreshed, later, response', refreshedAt', lib) == Step(refreshed, Keys(refreshed.kids))
    ensures var refreshed := CertificateStep(cert, now, response, refreshedAt, lib).store;
      later >= refreshedAt + CacheTtl ==>
        CertificateStep(refreshed, later, None, refreshedAt', lib) == Step(refreshed, FetchFailed)
  {
  }

  /** A failed fetch leaves the store stale, so the next call (clock not gone back) fetches again. */
  lemma FailedFetchIsRetried(
    cert: GoogleCertificate, now: int, response: Option<map<string, string>>, refreshedAt: int, later: int, lib: Library
  )
    requires !CertificateStep(cert, now, response, refreshedAt, lib).outcome.Keys?
    requires now <= later
    ensures NeedsRefresh(CertificateStep(cert, now, response, refreshedAt, lib).store, later)
  {
  }

  /* The token checks ------------------------------------------------------ */

  const TokenNotFound := Status(Code.Unauthenticated, "Token not found")
  const TokenNotText := Status(Code.Unauthenticated, "Token malformed (string)")
  const TokenBadHeader := Status(Code.Unauthenticated, "Token malformed (header)")
  const TokenMissingKid := Status(Code.Unauthenticated, "Token malformed (missing KID header)")
  const TokenUnknownKid := Status(Code.Unauthenticated, "Token invalid (no matching KID)")
  const ClaimsInvalid := Status(Code.Unauthenticated, "Claims invalid")
  const TokenExpired := Status(Code.Unauthenticated, "Token expired")
  const IssuerEmpty := Status(Code.Unauthenticated, "Issuer UID empty")
  const IssuerUnencodable := Status(Code.Unknown, "Internal service error")

  /** The raw token: the authorization header, when it is present and visible ASCII. */
  function BearerToken(request: Request): Option<string> {
    if Authorization in request.headers then ToStr(request.headers[Authorization]) else None
  }

  /** The key id declared in the token's (unverified) JWS header. */
  function DeclaredKid(request: Request, lib: Library): Option<string> {
    match BearerToken(request)
    case None => None
    case Some(token) =>
      match lib.decodeHeader(token)
      case None => None
      case Some(header) => header.kid
  }

  /** The claims of a token whose RS256 signature verifies under the key its header names. */
  function VerifiedClaims(request: Request, kids: map<string, DecodingKey>, lib: Library): Option<Claims> {
    match BearerToken(request)
    case None => None
    case Some(token) =>
      match DeclaredKid(request, lib)
      case None => None
      case Some(kid) => if kid in kids then lib.decodeRs256(token, kids[kid]) else None
  }

  /** A token is expired once the clock is past its `exp` second, to the nanosecond (section 4.1.4 of RFC 7519). */
  predicate Expired(claims: Claims, now: int) {
    now > claims.exp * NanosPerSecond
  }

  /** The request as forwarded: the identity under `MetadataUserId`, replacing any value sent by the client. */
  function WithIdentity(request: Request, uid: HeaderValue): Request {
    request.(headers := request.headers[MetadataUserId := uid])
  }

  /**
    `authorize`: the checks in their fixed order, each ending the call with its
    own status; on success the request with the identity attached.
   */
  function Authorize(request: Request, kids: map<string, DecodingKey>, now: int, lib: Library): (r: Outcome<Request>)
    ensures r.Ok? <==>
      && VerifiedClaims(request, kids, lib).Some?
      && lib.timestampInRange(VerifiedClaims(request, kids, lib).value.exp)
      && !Expired(VerifiedClaims(request, kids, lib).value, now)
      && VerifiedClaims(request, kids, lib).value.issuerUid != ""
      && FromStr(VerifiedClaims(request, kids, lib).value.issuerUid).Some?
    ensures r.Ok? ==>
      && r.value.body == request.body
      && r.value.headers.Keys == request.headers.Keys + {MetadataUserId}
      && r.value.headers[MetadataUserId] == HeaderValue(VerifiedClaims(request, kids, lib).value.issuerUid)
      && forall name :: name in request.headers && name != MetadataUserId ==>
           r.value.headers[name] == request.headers[name]
    ensures r.Err? ==> r.status.code == Code.Unauthenticated || r.status == IssuerUnencodable
    ensures r.Panic? <==>
      VerifiedClaims(request, kids, lib).Some? && !lib.timestampInRange(VerifiedClaims(request, kids, lib).value.exp)
  {
    if Authorization !in request.headers then Err(TokenNotFound)
    else
      match ToStr(request.headers[Authorization])
      case None => Err(TokenNotText)
      case Some(token) =>
        match lib.decodeHeader(token)
        case None => Err(TokenBadHeader)
        case Some(header) =>
          match header.kid
          case None => Err(TokenMissingKid)
          case Some(kid) =>
            if kid !in kids then Err(TokenUnknownKid)
            else
              match lib.decodeRs256(token, kids[kid])
              case None => Err(ClaimsInvalid)
              case Some(claims) =>
                if !lib.timestampInRange(claims.exp) then Panic
                else if Expired(claims, now) then Err(TokenExpired)
                else if |claims.issuerUid| == 0 then Err(IssuerEmpty)
                else
                  match FromStr(claims.issuerUid)
                  case None => Err(IssuerUnencodable)
                  case Some(uid) => Ok(WithIdentity(request, uid))
  }

  /**
    Each rejection of `authorize` happens exactly when every earlier check
    passed and its own check failed. In particular a missing header is
    rejected whatever the key map holds, and an unknown key id whatever the
    signature.
   */
  lemma RejectionOrder(request: Request, kids: map<string, DecodingKey>, now: int, lib: Library)
    ensures Authorize(request, kids, now, lib) == Err(TokenNotFound) <==> Authorization !in request.headers
    ensures Authorize(request, kids, now, lib) == Err(TokenNotText) <==>
      Authorization in request.headers && BearerToken(request).None?
    ensures Authorize(request, kids, now, lib) == Err(TokenBadHeader) <==>
      BearerToken(request).Some? && lib.decodeHeader(BearerToken(request).value).None?
    ensures Authorize(request, kids, now, lib) == Err(TokenMissingKid) <==>
      BearerToken(request).Some? && lib.decodeHeader(BearerToken(request).value) == Some(JwsHeader(None))
    ensures Authorize(request, kids, now, lib) == Err(TokenUnknownKid) <==>
      DeclaredKid(request, lib).Some? && DeclaredKid(request, lib).value !in kids
    ensures Authorize(request, kids, now, lib) == Err(ClaimsInvalid) <==>
      DeclaredKid(request, lib).Some? && DeclaredKid(request, lib).value in kids && VerifiedClaims(request, kids, lib).None?
    ensures Authorize(request, kids, now, lib) == Err(TokenExpired) <==>
      && VerifiedClaims(request, kids, lib).Some?
      && lib.timestampInRange(VerifiedClaims(request, kids, lib).value.exp)
      && Expired(VerifiedClaims(request, kids, lib).value, now)
    ensures Authorize(request, kids, now, lib) == Err(IssuerEmpty) <==>
      && VerifiedClaims(request, kids, lib).Some?
      && lib.timestampInRange(VerifiedClaims(request, kids, lib).value.exp)
      && !Expired(VerifiedClaims(request, kids, lib).value, now)
      && VerifiedClaims(request, kids, lib).value.issuerUid == ""
    ensures Authorize(request, kids, now, lib) == Err(IssuerUnencodable) <==>
      && VerifiedClaims(request, kids, lib).Some?
      && lib.timestampInRange(VerifiedClaims(request, kids, lib).value.exp)
      && !Expired(VerifiedClaims(request, kids, lib).value, now)
      && VerifiedClaims(request, kids, lib).value.issuerUid != ""
      && FromStr(VerifiedClaims(request, kids, lib).value.issuerUid).None?
  {
  }

  /**
    Expiry is checked after, and independently of, the signature: a verified
    token is still accepted at the very nanosecond its `exp` second begins,
    and rejected as expired one nanosecond later.
   */
  lemma ExpiryBoundary(request: Request, kids: map<string, DecodingKey>, lib: Library, claims: Claims)
    requires VerifiedClaims(request, kids, lib) == Some(claims)
    requires lib.timestampInRange(claims.exp) && claims.issuerUid != "" && FromStr(claims.issuerUid).Some?
    ensures Authorize(request, kids, claims.exp * NanosPerSecond, lib).Ok?
    ensures Authorize(request, kids, claims.exp * NanosPerSecond + 1, lib) == Err(TokenExpired)
  {
  }

  /**
    What `authorize` writes, `get_uuid_from_request` reads back: the issuer
    itself when it is plain ASCII, and a panic otherwise (`from_str` lets
    bytes at or above 0x80 through, `to_str` does not).
   */
  lemma ReadBackIdentity(request: Request, kids: map<string, DecodingKey>, now: int, lib: Library)
    requires Authorize(request, kids, now, lib).Ok?
    ensures var issuer := VerifiedClaims(request, kids, lib).value.issuerUid;
      GetUuidFromRequest(Authorize(request, kids, now, lib).value) == if IsAscii(issuer) then Ok(issuer) else Panic
  {
    var issuer := VerifiedClaims(request, kids, lib).value.issuerUid;
    FromStrThenToStr(issuer);
  }

  /**
    A token whose header names key "k1", present in the store, whose signature
    verifies and whose claims name "abc-123" and have not expired, is
    forwarded carrying "abc-123" as its identity, which reads back unchanged.
   */
  lemma ForwardsVerifiedIdentity(request: Request, kids: map<string, DecodingKey>, now: int, lib: Library, exp: int)
    requires BearerToken(request).Some?
    requires lib.decodeHeader(BearerToken(request).value) == Some(JwsHeader(Some("k1")))
    requires "k1" in kids
    requires lib.decodeRs256(BearerToken(request).value, kids["k1"]) == Some(Claims("abc-123", exp))
    requires lib.timestampInRange(exp) && now <= exp * NanosPerSecond
    ensures Authorize(request, kids, now, lib).Ok?
    ensures Authorize(request, kids, now, lib).value.headers[MetadataUserId] == HeaderValue("abc-123")
    ensures GetUuidFromRequest(Authorize(request, kids, now, lib).value) == Ok("abc-123")
  {
    var issuer := "abc-123";
    assert VerifiedClaims(request, kids, lib) == Some(Claims(issuer, exp));
    assert forall i :: 0 <= i < |issuer| ==> FieldChar(issuer[i]) && issuer[i] as int < 0x80;
    ReadBackIdentity(request, kids, now, lib);
  }

  /* The call ------------------------------------------------------------- */

  /** How a call ends: the inner service is invoked with a request, a status is returned, or the task panics. */
  datatype Reply = Forwarded(request: Request) | Replied(status: Status) | Panicked

  const KidUnavailable := Status(Code.Internal, "Unable to retrieve GoogleAPIs KID")
  const AuthorizationFailed := Status(Code.Internal, "Unable to process with authorization")

  /** The status `call` answers an `authorize` error with. */
  function ReplyStatus(error: Status): (r: Status)
    ensures error.code == Code.Unauthenticated || error.code == Code.PermissionDenied ==> r == error
    ensures error.code != Code.Unauthenticated && error.code != Code.PermissionDenied ==> r == AuthorizationFailed
  {
    match error.code
    case Unauthenticated => error
    case PermissionDenied => error
    case _ => AuthorizationFailed
  }

  /**
    The rest of `call` once the certificate step is over. The inner service
    sees the request only when `authorize` accepted it, and then exactly the
    request `authorize` returned.
   */
  function Respond(cert: CertificateOutcome, request: Request, now: int, lib: Library): (r: Reply)
    ensures r.Forwarded? <==> cert.Keys? && Authorize(request, cert.kids, now, lib).Ok?
    ensures r.Forwarded? ==> r.request == Authorize(request, cert.kids, now, lib).value
    ensures cert.FetchFailed? ==> r == Replied(KidUnavailable)
    ensures cert.Keys? && Authorize(request, cert.kids, now, lib).Err? ==>
      r == Replied(ReplyStatus(Authorize(request, cert.kids, now, lib).status))
    ensures cert.Keys? && Authorize(request, cert.kids, now, lib).Err?
      && Authorize(request, cert.kids, now, lib).status.code == Code.Unauthenticated
      ==> r == Replied(Authorize(request, cert.kids, now, lib).status)
    ensures r.Replied? ==> r.status.code == Code.Unauthenticated || r.status.code == Code.Internal
    ensures r.Panicked? <==> cert.ConversionPanicked? || (cert.Keys? && Authorize(request, cert.kids, now, lib).Panic?)
  {
    match cert
    case FetchFailed => Replied(KidUnavailable)
    case ConversionPanicked => Panicked
    case Keys(kids) =>
      match Authorize(request, kids, now, lib)
      case Ok(forwarded) => Forwarded(forwarded)
      case Err(error) => Replied(ReplyStatus(error))
      case Panic => Panicked
  }

  /**
    The certificates are obtained before the token is looked at: with a stale
    store and a failed fetch, even a request without an authorization header
    is answered "Unable to retrieve GoogleAPIs KID", not "Token not found".
   */
  lemma FetchPrecedesTokenCheck(
    cert: GoogleCertificate, now: int, refreshedAt: int, request: Request, checkedAt: int, lib: Library
  )
    requires NeedsRefresh(cert, now) && Authorization !in request.headers
    ensures Respond(CertificateStep(cert, now, None, refreshedAt, lib).outcome, request, checkedAt, lib) == Replied(KidUnavailable)
    ensures Authorize(request, cert.kids, checkedAt, lib) == Err(TokenNotFound)
  {
  }

  /** The interceptor wrapped around the users service, sharing one certificate store. */
  class InterceptedService {
    const lock: SharedGoogleCertificate

    constructor (lock: SharedGoogleCertificate)
      ensures this.lock == lock
    {
      this.lock := lock;
    }

    /**
      `InterceptedService::call`: make sure the keys are fresh, authorize, and
      forward or answer. Clock readings: `now` for the cache check,
      `refreshedAt` for stamping a refresh, `checkedAt` for the token expiry.
     */
    method Call(
      request: Request, now: int, response: Option<map<string, string>>, refreshedAt: int, checkedAt: int, lib: Library
    ) returns (r: Reply)
      modifies lock
      ensures lock.Snapshot() == CertificateStep(old(lock.Snapshot()), now, response, refreshedAt, lib).store
      ensures r == Respond(CertificateStep(old(lock.Snapshot()), now, response, refreshedAt, lib).outcome, request, checkedAt, lib)
    {
      var cert := GetCertificate(lock, now, response, refreshedAt, lib);
      match cert {
        case FetchFailed =>
          return Replied(KidUnavailable);
        case ConversionPanicked =>
          return Panicked;
        case Keys(kids) =>
          match Authorize(request, kids, checkedAt, lib) {
            case Ok(forwarded) =>
              r := Forwarded(forwarded);
            case Err(error) =>
              r := Replied(ReplyStatus(error));
            case Panic =>
              r := Panicked;
          }
      }
    }
  }
}
