# jwtrsa: issuing and validating RS256 JSON Web Tokens — a Dafny model

The Go package `jwtrsa` wraps the `golang-jwt` library. It does two things:

- An **Issuer** holds an RSA private key. It refuses to sign a claim map unless the five registered claims of section 4.1 of RFC 7519 are present, well typed and non-empty.
- A **Validator** holds an RSA public key and a trust policy: the expected issuer, the expected audience, and RS256 as the only permitted algorithm. It returns a token's subject or rejects the token with code 401.

This project models the decision logic the package writes itself:

- `Issuer.complete`, the claim-completeness chain.
- `Issuer.Issue`, the sign-only-if-complete gate.
- `NewIssuer` and `NewValidator`, the constructor guard chains.
- `Validator.Validate`, which folds the parser's report into a result.

Every library call is a function-typed parameter whose behaviour is left open:

- `base64.StdEncoding.DecodeString` is `Keys.Base64Decoder`.
- `jwt.ParseRSAPrivateKeyFromPEM` is `Keys.PrivateKeyParser`.
- `jwt.ParseRSAPublicKeyFromPEM` is `Keys.PublicKeyParser`.
- RS256 signing (section 3.3 of RFC 7518) is `Issuance.Signer`.
- `Parser.ParseWithClaims` together with `GetSubject` is `Validation.TokenParser`.

Each property below is proved for every behaviour of these parameters.

Layout, one module per concern:

- `wrappers.dfy` (`Option`, `Result`).
- `claims.dfy`: the claim values with their Go dynamic types, and the registered claims.
- `errordetail.dfy`: the `(code, message)` error record.
- `keys.dfy`: opaque keys and the decoder types.
- `issuer.dfy`: models issuer.go.
- `validator.dfy`: models validator.go.
- `roundtrip.dfy`: what issuance guarantees to validation.

Modelling conventions:

- Go's `(string, error)` results are pairs `(string, Option<Detail>)`. `None` is a nil error.
- Constructors returning `(*T, error)` give `Result<T, Detail>`. The Go code never returns a non-nil object together with an error.
- Claim values keep Go's dynamic types apart: `Str`, `I64` (`int64`), `GoInt` (`int`, which an untyped constant such as `0` becomes), `F64Tag` (`float64`), `ClaimStrings` (`jwt.ClaimStrings`), `StringSlice` (`[]string`), and `Other`.
- A type assertion succeeds only on the exact type.
- Issuers and validators are immutable values. `Complete` and `Validate` therefore cannot change the claim map or the validator they are given.

## Model

| member | source | states |
|---|---|---|
| `Issuance.Complete` | issuer.go:50-82 | Succeeds (nil) exactly when `iss` is a non-empty string, `aud` is a non-empty `jwt.ClaimStrings` with no empty entry, `iat` and `exp` are non-zero `int64`s, and `sub` is a non-empty string. |
| `Issuance.NoEmptyEntryFrom` | issuer.go:60-64 | The scan over the audience entries, with its early exit, succeeds exactly when no entry from the starting index on is the empty string. |
| `Issuance.FirstFailureIsEarliest` | issuer.go:51-79 | The reference check table reports no error iff every check passes. Otherwise it reports the error of the earliest failing check. |
| `Issuance.CompleteFollowsOrder` | issuer.go:51-79 | `complete` returns the error of the first failing check, in the order iss, aud present, aud entries, iat, exp, sub. |
| `Issuance.ChecksHaveDistinctFailures` | issuer.go:51-79 | Each check of `complete` has its own error: two checks report the same error only if they are the same check. |
| `Issuance.CompleteErrorCodes` | issuer.go:53-78 | Every error of `complete` has code 0 or 1. Code 0 is used exactly for "audience not found". |
| `Issuance.MistypedIsMissing` | issuer.go:51-79 | For each required claim, a value of the wrong Go type gives the same result as a missing key. There is no coercion: `float64` or `int` for `iat`/`exp` and `[]string` for `aud` count as missing. |
| `Issuance.PassThroughIgnored` | issuer.go:50-82 | Adding or changing a key other than the five registered claims never changes the result of `complete`. |
| `Issuance.IssuerTestCases` | issuer_test.go:54-156 | Each claim map of the issuer tests meets the exact verdict it is meant to exercise. The well-formed map passes. A plain `[]string` audience is "audience not found" (code 0). A missing `sub` is "subject not found". A `float64` `iat` is "iat not found". An empty `iss` is "issuer not found". `["ledger-service", ""]` is "empty audience is not allowed". An untyped `0` `exp` is "exp not found" and an untyped `0` `iat` is "iat not found". |
| `Issuance.NewIssuer` | issuer.go:17-30 | Rejects `""` first, then a base64 failure, then a PEM parse failure, each with its own message and code 1. It yields an Issuer exactly when all three stages pass, holding the parsed key. |
| `Issuance.NewIssuerRejectsEmptyBeforeDecoding` | issuer.go:18-20 | An empty key is rejected with the same error whatever the decoders would do. |
| `Issuance.NewIssuerDecodesBeforeParsing` | issuer.go:21-28 | A base64 failure is reported without regard to the PEM parser. |
| `Issuance.Issue` | issuer.go:33-47 | If the claim map is incomplete, returns `""` with `complete`'s error. Otherwise it returns exactly the signer's token for the whole, unchanged map, or `""` with "unable to sign token" when the signer fails. It succeeds iff the map is complete and the signer succeeds. |
| `Issuance.IssueSignsOnlyComplete` | issuer.go:34-36 | For an incomplete claim map, the result does not depend on the signer, so the signer is never consulted. |
| `Validation.NewValidator` | validator.go:19-50 | Rejects an empty public key, then an empty issuer, then an empty audience, then a base64 failure, then a PEM parse failure, each with code 0. On success it holds the parsed key and a parser policy of exactly the given issuer, the given audience and `["RS256"]`. |
| `Validation.NewValidatorGuardsPrecedeDecoding` | validator.go:20-28 | When any input string is empty, the error does not depend on the decoders, so the emptiness guards run before any decoding. |
| `Validation.NewValidatorDecodesBeforeParsing` | validator.go:30-38 | A base64 failure rejects without regard to the PEM parser. |
| `Validation.Validate` | validator.go:54-70 | A parse error or an invalid token gives `""` with 401 "token is not valid". Otherwise an empty or unreadable subject gives `""` with 401 "subject is empty". Otherwise the parsed subject is returned, and it is non-empty. It succeeds iff the parser accepts and the subject is readable and non-empty. |
| `Validation.ValidateUsesConstructedPolicy` | validator.go:40-59 | A constructed validator consults the parser with exactly the policy and key that NewValidator recorded. |
| `RoundTrip.IssuedTokenYieldsSubject` | validator.go:65-69 | Take a token the issuer signed. If the parser accepts it and reads back its `sub`, Validate returns that subject, which the issuer guaranteed is non-empty. |
| `ErrorDetail.MessagesIdentifyReasons` | issuer.go:19-78 | Over the whole message table (issuer.go:19-78 and validator.go:21-67), distinct failures carry distinct messages. In particular, "empty audience is not allowed" differs from "audience not found". |

## Left out

- keygen.go (key generation, PKCS#1/PKIX marshalling, PEM and base64 encoding) is not part of this model. Its checks (the nil key at keygen.go:25-27, the marshalling error at keygen.go:33-36, the base64 and PEM-block checks of `ParsePrivateKey` at keygen.go:50-57) only guard library calls, and none of them feeds `complete`, `Issue` or `Validate`.
- RS256 signing and verification, JWS compact serialization, base64 and PEM decoding are not modelled. They belong to the Go standard library and `golang-jwt`, and appear only as uninterpreted parameters.
- The issuer, audience, expiry and algorithm checks of `jwt.Parser` happen inside the library. The model sees only the parser's error and its `Valid` flag, so expiry comparison and the clock are not modelled.
- The wrapped cause that `errordetail.New` records (its third argument) is not modelled. A `Detail` holds only the code and the message.
- `float64` claim values are an opaque tag. Their numeric value never matters, because the assertion to `int64` always fails on them.
- Go's `int` is modelled as 64 bits wide, as on 64-bit platforms.
- The code never falls back to raw PEM. It always base64-decodes the key text first (issuer.go:21, validator.go:30), so a raw PEM key is rejected at the decode stage.
- The code has no separate wrong-type claim error. A missing, mistyped or empty claim all give "X not found" (issuer.go:52).
- The code has no separate algorithm-mismatch error. Every parser failure gives 401 "token is not valid" (validator.go:61-62).
- Only issuers and validators built by their constructors are modelled. In the Go code a nil `*Issuer` given a complete map panics at `j.privateKey` (issuer.go:42), and a nil or zero-value `*Validator` panics at `j.parser` (validator.go:56); the model's `Issuer` and `Validator` values cannot be nil.
- The success cases of validator_test.go are not used. Its helper produces raw PEM, while NewValidator base64-decodes its input.
