/**
 * The `errordetail` error record: a numeric code and a message. Messages are
 * kept as an enumeration so that the model can say which check failed; the
 * text each one carries in the Go code is given by Message().
 */
module ErrorDetail {

  import opened Claims

  datatype Reason =
    // NewIssuer
    | PrivateKeyEmpty
    | PrivateKeyUndecodable
    | PrivateKeyUnparsable
      // Issuer.complete and Issuer.Issue
    | ClaimNotFound(claim: Claim)
    | EmptyAudienceEntry
    | SigningFailed
      // NewValidator
    | PublicKeyEmpty
    | TrustedIssuerEmpty
    | AudienceEmpty
    | PublicKeyUndecodable
    | PublicKeyUnparsable
      // Validator.Validate
    | TokenInvalid
    | SubjectEmpty
  {
    function Message(): string {
      match this
      case PrivateKeyEmpty => "privateKeyPem is empty"
      case PrivateKeyUndecodable => "unable to decode private key"
      case PrivateKeyUnparsable => "unable to create private key"
      case ClaimNotFound(Iss) => "issuer not found"
      case ClaimNotFound(Aud) => "audience not found"
      case ClaimNotFound(Iat) => "iat not found"
      case ClaimNotFound(Exp) => "exp not found"
      case ClaimNotFound(Sub) => "subject not found"
      case EmptyAudienceEntry => "empty audience is not allowed"
      case SigningFailed => "unable to sign token"
      case PublicKeyEmpty => "public key is empty"
      case TrustedIssuerEmpty => "issuer is empty"
      case AudienceEmpty => "audience is empty"
      case PublicKeyUndecodable => "unable to decode public key"
      case PublicKeyUnparsable => "unable to parse public key"
      case TokenInvalid => "token is not valid"
      case SubjectEmpty => "subject is empty"
    }
  }

  datatype Detail = Detail(code: int, reason: Reason)

  /** Every failure a caller can see carries its own message text. */
  lemma MessagesIdentifyReasons(a: Reason, b: Reason)
    ensures a.Message() == b.Message() ==> a == b
  {
  }
}
