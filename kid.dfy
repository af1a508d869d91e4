/**
  The provider's certificate set and its conversion from PEM-encoded X.509
  certificates to verification keys.
 */
module Kid {
  import opened Wrappers
  import opened Jwt

  /** The key-id to key map and the instant (nanoseconds since the epoch) after which it is stale. */
  datatype GoogleCertificate = GoogleCertificate(kids: map<string, DecodingKey>, expires: int)

  /** The key for one certificate: X.509 to RSA public key PEM, then PEM to decoding key. */
  function KeyFromCertificate(lib: Library, certificate: string): Option<DecodingKey>
  {
    match lib.x509ToRsaPem(certificate)
    case None => None
    case Some(pem) => lib.rsaPemToKey(pem)
  }

  /** What `convert_kids` produces: every entry converted, or nothing when any entry fails. */
  function ConvertedKids(input: map<string, string>, lib: Library): Option<map<string, DecodingKey>>
  {
    if forall kid :: kid in input ==> KeyFromCertificate(lib, input[kid]).Some? then
      Some(map kid | kid in input :: KeyFromCertificate(lib, input[kid]).value)
    else
      None
  }

  /**
    `GoogleCertificate::convert_kids`: fills a fresh map entry by entry, in the
    map's (arbitrary) iteration order. A failing conversion is an `expect`
    that aborts the task, so no partial map ever leaves the loop: `None`.
   */
  method ConvertKids(input: map<string, string>, lib: Library) returns (output: Option<map<string, DecodingKey>>)
    ensures output.Some? <==> forall kid :: kid in input ==> KeyFromCertificate(lib, input[kid]).Some?
    ensures output.Some? ==> output.value.Keys == input.Keys
    ensures output.Some? ==>
      forall kid :: kid in input ==> Some(output.value[kid]) == KeyFromCertificate(lib, input[kid])
    ensures input == map[] ==> output == Some(map[])
    ensures output == ConvertedKids(input, lib)
  {
    var converted: map<string, DecodingKey> := map[];
    var remaining := input.Keys;
    while remaining != {}
      invariant remaining <= input.Keys
      invariant converted.Keys == input.Keys - remaining
      invariant forall kid :: kid in converted ==> Some(converted[kid]) == KeyFromCertificate(lib, input[kid])
      decreases remaining
    {
      var kid :| kid in remaining;
      var pem := lib.x509ToRsaPem(input[kid]);
      if pem.None? {
        return None;  // "Unable to convert KID into PEM"
      }
      var key := lib.rsaPemToKey(pem.value);
      if key.None? {
        return None;  // "Unable to get decoding key"
      }
      converted := converted[kid := key.value];
      remaining := remaining - {kid};
    }
    assert converted == map kid | kid in input :: KeyFromCertificate(lib, input[kid]).value;
    output := Some(converted);
  }
}
