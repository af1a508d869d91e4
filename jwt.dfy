/**
  The claims a verified token carries, and the external libraries the
  interceptor relies on, each given as a function value so that every result
  below holds whatever those libraries answer.
 */
module Jwt {
  import opened Wrappers

  /** The token payload: the caller's identity and the expiry, in whole seconds since the epoch (an i64). */
  datatype Claims = Claims(issuerUid: string, exp: int)

  /** The decoded JWS header; only its key id ("kid", section 4.1.4 of RFC 7515) is read. */
  datatype JwsHeader = JwsHeader(kid: Option<string>)

  /** An RSA public key ready for RS256 verification (jsonwebtoken's `DecodingKey`). */
  datatype DecodingKey = RsaPublicKey(pem: string)

  /**
    - decodeHeader: `jsonwebtoken::decode_header`, `None` when it errs;
    - decodeRs256: `jsonwebtoken::decode` with RS256 (section 3.3 of RFC 7518), signature
      check and claims deserialisation, `None` when it errs;
    - timestampInRange: whether chrono can represent an `exp` value as a date
      (`NaiveDateTime::from_timestamp` panics otherwise);
    - x509ToRsaPem: openssl's X.509 parsing, public-key and RSA extraction, and
      re-encoding as PEM, `None` when any of these steps errs;
    - rsaPemToKey: `DecodingKey::from_rsa_pem`, `None` when it errs.
   */
  datatype Library = Library(
    decodeHeader: string -> Option<JwsHeader>,
    decodeRs256: (string, DecodingKey) -> Option<Claims>,
    timestampInRange: int -> bool,
    x509ToRsaPem: string -> Option<string>,
    rsaPemToKey: string -> Option<DecodingKey>)
}
