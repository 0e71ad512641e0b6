/**
 * The dynamically typed claim map that callers hand to the issuer
 * (Go's `map[string]any`), and the five registered claims of
 * section 4.1 of RFC 7519 that the issuer insists on.
 */
module Claims {

  /** Go's `int64`; Go's `int` has the same width on the platforms that matter here. */
  newtype int64 = x: int | -0x8000_0000_0000_0000 <= x < 0x8000_0000_0000_0000

  /**
   * A claim value together with its Go dynamic type. A type assertion in Go
   * succeeds only on the exact dynamic type, so these must never be conflated:
   * an untyped constant `0` stored in the map is an `int` (GoInt), not an
   * `int64` (I64), and a plain `[]string` (StringSlice) is not a
   * `jwt.ClaimStrings` (ClaimStrings).
   */
  datatype Value =
    | Str(s: string)
    | I64(n: int64)
    | GoInt(i: int64)
    | F64Tag
    | ClaimStrings(list: seq<string>)
    | StringSlice(slice: seq<string>)
    | Other

  type ClaimSet = map<string, Value>

  /** The registered claims the issuer requires, in the order it checks them. */
  datatype Claim = Iss | Aud | Iat | Exp | Sub {

    /** The claim's key in the claim map. */
    function Name(): string {
      match this
      case Iss => "iss"
      case Aud => "aud"
      case Iat => "iat"
      case Exp => "exp"
      case Sub => "sub"
    }

    /** The Go dynamic type the issuer's type assertion demands of the claim's value. */
    predicate HasRequiredType(v: Value) {
      match this
      case Iss => v.Str?
      case Aud => v.ClaimStrings?
      case Iat => v.I64?
      case Exp => v.I64?
      case Sub => v.Str?
    }
  }

  /** The keys of the registered claims the issuer inspects; any other key is passed through. */
  const RequiredNames: set<string> := {"iss", "aud", "iat", "exp", "sub"}
}
