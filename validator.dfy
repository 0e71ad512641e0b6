/**
 * The validator (validator.go): a parsed RSA public key and a token parser
 * configured with the trust policy (expected issuer, expected audience, RS256
 * as the only permitted algorithm). Signature, algorithm, issuer, audience
 * and expiry checks all happen inside the JWT library's parser; the model sees
 * only what that parser reports.
 */
module Validation {

  import opened Wrappers
  import opened Keys
  import opened ErrorDetail

  /** The configuration of `jwt.Parser` the validator builds: its trust policy. */
  datatype Parser = Parser(audience: string, issuer: string, validMethods: seq<string>)

  datatype Validator = Validator(publicKey: PublicKey, parser: Parser)

  /**
   * What `parser.ParseWithClaims` and `claims.GetSubject` report for one token:
   * the parse error, the token's `Valid` flag, and the subject read from the
   * registered claims the parser filled in, with the error of reading it.
   */
  datatype Parsed = Parsed(err: Option<LibError>, valid: bool, subject: string, subjectErr: Option<LibError>)

  /**
   * The library's parser, given the validator's policy, the token text and the
   * key that the validator's key function always returns.
   */
  type TokenParser = (Parser, string, PublicKey) -> Parsed

  /** The parser configuration NewValidator records for an issuer and an audience. */
  function Policy(trustedIssuer: string, audience: string): Parser {
    Parser(audience, trustedIssuer, ["RS256"])
  }

  /**
   * NewValidator: the three empty-string guards in order, then base64 decoding,
   * then PEM parsing, then the parser with its trust policy.
   */
  function NewValidator(publicKeyB64: string, trustedIssuer: string, audience: string,
                        decode: Base64Decoder, parse: PublicKeyParser): (r: Result<Validator, Detail>)
    ensures publicKeyB64 == "" ==> r == Err(Detail(0, PublicKeyEmpty))
    ensures publicKeyB64 != "" && trustedIssuer == "" ==> r == Err(Detail(0, TrustedIssuerEmpty))
    ensures publicKeyB64 != "" && trustedIssuer != "" && audience == "" ==> r == Err(Detail(0, AudienceEmpty))
    ensures publicKeyB64 != "" && trustedIssuer != "" && audience != "" && decode(publicKeyB64).None?
            ==> r == Err(Detail(0, PublicKeyUndecodable))
    ensures publicKeyB64 != "" && trustedIssuer != "" && audience != "" && decode(publicKeyB64).Some?
            && parse(decode(publicKeyB64).value).None?
            ==> r == Err(Detail(0, PublicKeyUnparsable))
    ensures r.Ok? <==> publicKeyB64 != "" && trustedIssuer != "" && audience != ""
                       && decode(publicKeyB64).Some? && parse(decode(publicKeyB64).value).Some?
    ensures r.Ok? ==> r.value.publicKey == parse(decode(publicKeyB64).value).value
    ensures r.Ok? ==> r.value.parser.issuer == trustedIssuer && r.value.parser.audience == audience
                      && r.value.parser.validMethods == ["RS256"]
    ensures r.Err? ==> r.error.code == 0
  {
    if publicKeyB64 == "" then Err(Detail(0, PublicKeyEmpty))
    else if trustedIssuer == "" then Err(Detail(0, TrustedIssuerEmpty))
    else if audience == "" then Err(Detail(0, AudienceEmpty))
    else match decode(publicKeyB64)
      case None => Err(Detail(0, PublicKeyUndecodable))
      case Some(bytes) =>
        match parse(bytes)
        case None => Err(Detail(0, PublicKeyUnparsable))
        case Some(parsedPublicKey) => Ok(Validator(parsedPublicKey, Policy(trustedIssuer, audience)))
  }

  /** The empty-string guards are decided before either decoder is consulted. */
  lemma NewValidatorGuardsPrecedeDecoding(publicKeyB64: string, trustedIssuer: string, audience: string,
                                          d1: Base64Decoder, p1: PublicKeyParser, d2: Base64Decoder, p2: PublicKeyParser)
    requires publicKeyB64 == "" || trustedIssuer == "" || audience == ""
    ensures NewValidator(publicKeyB64, trustedIssuer, audience, d1, p1)
         == NewValidator(publicKeyB64, trustedIssuer, audience, d2, p2)
    ensures NewValidator(publicKeyB64, trustedIssuer, audience, d1, p1).Err?
  {
  }

  /** A base64 failure is reported whatever the PEM parser would have said. */
  lemma NewValidatorDecodesBeforeParsing(publicKeyB64: string, trustedIssuer: string, audience: string,
                                         d: Base64Decoder, p1: PublicKeyParser, p2: PublicKeyParser)
    requires d(publicKeyB64).None?
    ensures NewValidator(publicKeyB64, trustedIssuer, audience, d, p1)
         == NewValidator(publicKeyB64, trustedIssuer, audience, d, p2)
    ensures NewValidator(publicKeyB64, trustedIssuer, audience, d, p1).Err?
  {
  }

  /** The parser's report accepts the token and names a readable, non-empty subject. */
  predicate Accepted(p: Parsed) {
    p.err.None? && p.valid && p.subjectErr.None? && p.subject != ""
  }

  /**
   * Validator.Validate: any parse error or invalid token is rejected with
   * code 401, and so is an empty or unreadable subject; otherwise the subject
   * is returned.
   */
  function Validate(j: Validator, tokenStr: string, parseWithClaims: TokenParser): (r: (string, Option<Detail>))
    ensures var p := parseWithClaims(j.parser, tokenStr, j.publicKey);
            && (r.1.None? <==> Accepted(p))
            && (r.1.None? ==> r.0 == p.subject && r.0 != "")
            && (r.1.Some? ==> r.0 == "" && r.1.value.code == 401)
            && (p.err.Some? || !p.valid ==> r.1 == Some(Detail(401, TokenInvalid)))
            && (p.err.None? && p.valid && (p.subject == "" || p.subjectErr.Some?)
                ==> r.1 == Some(Detail(401, SubjectEmpty)))
  {
    var parsed := parseWithClaims(j.parser, tokenStr, j.publicKey);
    if parsed.err.Some? || !parsed.valid then ("", Some(Detail(401, TokenInvalid)))
    else
      var (sub, err) := (parsed.subject, parsed.subjectErr);
      if sub == "" || err.Some? then ("", Some(Detail(401, SubjectEmpty)))
      else (sub, None)
  }

  /** A validator built by NewValidator hands the parser exactly the policy it was given. */
  lemma ValidateUsesConstructedPolicy(publicKeyB64: string, trustedIssuer: string, audience: string,
                                      decode: Base64Decoder, parse: PublicKeyParser,
                                      tokenStr: string, parseWithClaims: TokenParser)
    requires NewValidator(publicKeyB64, trustedIssuer, audience, decode, parse).Ok?
    ensures var v := NewValidator(publicKeyB64, trustedIssuer, audience, decode, parse).value;
            Validate(v, tokenStr, parseWithClaims).1.None?
            <==> Accepted(parseWithClaims(Policy(trustedIssuer, audience), tokenStr, parse(decode(publicKeyB64).value).value))
  {
  }
}
