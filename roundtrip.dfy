/**
 * Issuance and validation together: what the issuer's completeness check
 * guarantees a validator downstream.
 */
module RoundTrip {

  import opened Wrappers
  import opened Claims
  import opened Keys
  import opened ErrorDetail
  import opened Issuance
  import opened Validation

  /**
   * A token the issuer produced always carries a non-empty string subject, so
   * once the library's parser accepts it and reads back the `sub` that was
   * signed, Validate returns that subject and cannot fail on "subject is empty".
   */
  lemma IssuedTokenYieldsSubject(j: Issuer, claimsMap: ClaimSet, sign: Signer,
                                 v: Validator, parseWithClaims: TokenParser)
    requires Issue(j, claimsMap, sign).1.None?
    requires parseWithClaims(v.parser, Issue(j, claimsMap, sign).0, v.publicKey)
             == Parsed(None, true, claimsMap["sub"].s, None)
    ensures Validate(v, Issue(j, claimsMap, sign).0, parseWithClaims) == (claimsMap["sub"].s, None)
    ensures claimsMap["sub"].s != ""
  {
  }
}
