/**
 * The issuer (issuer.go): a parsed RSA private key, the completeness check
 * every claim map must pass, and the gate that lets only complete claim maps
 * reach the RS256 signer (section 3.3 of RFC 7518).
 */
module Issuance {

  import opened Wrappers
  import opened Claims
  import opened Keys
  import opened ErrorDetail

  datatype Issuer = Issuer(privateKey: PrivateKey)

  /**
   * `token.SignedString(key)` for a token built with `jwt.SigningMethodRS256`
   * over the given claims: the signing library, left uninterpreted.
   */
  type Signer = (PrivateKey, ClaimSet) -> Result<string, LibError>

  // ---------------------------------------------------------------------------
  // Go's comma-ok type assertions on a map entry. A missing key yields a nil
  // interface, for which every assertion fails; a failed assertion yields the
  // zero value of the asserted type.

  function AssertString(c: ClaimSet, name: string): (string, bool) {
    if name in c && c[name].Str? then (c[name].s, true) else ("", false)
  }

  function AssertClaimStrings(c: ClaimSet, name: string): (seq<string>, bool) {
    if name in c && c[name].ClaimStrings? then (c[name].list, true) else ([], false)
  }

  function AssertInt64(c: ClaimSet, name: string): (int64, bool) {
    if name in c && c[name].I64? then (c[name].n, true) else (0, false)
  }

  // ---------------------------------------------------------------------------
  // What a complete claim map is, stated claim by claim.

  predicate IssPresent(c: ClaimSet) {
    "iss" in c && c["iss"].Str? && c["iss"].s != ""
  }

  predicate AudPresent(c: ClaimSet) {
    "aud" in c && c["aud"].ClaimStrings? && |c["aud"].list| > 0
  }

  /** Every entry of a `jwt.ClaimStrings` audience is non-empty. */
  predicate AudEntriesNonEmpty(c: ClaimSet) {
    "aud" in c && c["aud"].ClaimStrings? ==>
      forall i :: 0 <= i < |c["aud"].list| ==> c["aud"].list[i] != ""
  }

  predicate IatPresent(c: ClaimSet) {
    "iat" in c && c["iat"].I64? && c["iat"].n != 0
  }

  predicate ExpPresent(c: ClaimSet) {
    "exp" in c && c["exp"].I64? && c["exp"].n != 0
  }

  predicate SubPresent(c: ClaimSet) {
    "sub" in c && c["sub"].Str? && c["sub"].s != ""
  }

  /** A claim map the issuer agrees to sign. */
  predicate Issuable(c: ClaimSet) {
    IssPresent(c) && AudPresent(c) && AudEntriesNonEmpty(c)
    && IatPresent(c) && ExpPresent(c) && SubPresent(c)
  }

  // ---------------------------------------------------------------------------
  // The checks as a table: which property each tests, the error it reports,
  // and the order they run in. FirstFailure is the reference for "the error
  // returned is that of the first failing check".

  datatype Check = IssCheck | AudCheck | AudEntriesCheck | IatCheck | ExpCheck | SubCheck {

    predicate Passes(c: ClaimSet) {
      match this
      case IssCheck => IssPresent(c)
      case AudCheck => AudPresent(c)
      case AudEntriesCheck => AudEntriesNonEmpty(c)
      case IatCheck => IatPresent(c)
      case ExpCheck => ExpPresent(c)
      case SubCheck => SubPresent(c)
    }

    /** The error the check reports: code 0 for a missing audience, 1 otherwise. */
    function Failure(): Detail {
      match this
      case IssCheck => Detail(1, ClaimNotFound(Iss))
      case AudCheck => Detail(0, ClaimNotFound(Aud))
      case AudEntriesCheck => Detail(1, EmptyAudienceEntry)
      case IatCheck => Detail(1, ClaimNotFound(Iat))
      case ExpCheck => Detail(1, ClaimNotFound(Exp))
      case SubCheck => Detail(1, ClaimNotFound(Sub))
    }
  }

  const Order: seq<Check> := [IssCheck, AudCheck, AudEntriesCheck, IatCheck, ExpCheck, SubCheck]

  /** The error of the first check in `checks` that `c` fails, or None. */
  function FirstFailure(checks: seq<Check>, c: ClaimSet): Option<Detail> {
    if checks == [] then None
    else if !checks[0].Passes(c) then Some(checks[0].Failure())
    else FirstFailure(checks[1..], c)
  }

  /** FirstFailure reports nothing exactly when all checks pass, and otherwise the earliest failure. */
  lemma {:induction false} FirstFailureIsEarliest(checks: seq<Check>, c: ClaimSet)
    ensures FirstFailure(checks, c).None? <==> forall j :: 0 <= j < |checks| ==> checks[j].Passes(c)
    ensures forall i :: 0 <= i < |checks| && !checks[i].Passes(c)
                        && (forall j :: 0 <= j < i ==> checks[j].Passes(c))
                        ==> FirstFailure(checks, c) == Some(checks[i].Failure())
  {
    if checks != [] {
      FirstFailureIsEarliest(checks[1..], c);
      if checks[0].Passes(c) {
        forall i | 0 < i < |checks| && !checks[i].Passes(c)
                   && (forall j :: 0 <= j < i ==> checks[j].Passes(c))
          ensures FirstFailure(checks, c) == Some(checks[i].Failure())
        {
          assert checks[1..][i - 1] == checks[i];
          forall j | 0 <= j < i - 1 ensures checks[1..][j].Passes(c) {
            assert checks[1..][j] == checks[j + 1];
          }
        }
        forall j | 0 <= j < |checks| - 1 && !checks[1..][j].Passes(c)
          ensures !(forall j :: 0 <= j < |checks| ==> checks[j].Passes(c))
        {
          assert checks[1..][j] == checks[j + 1];
        }
      }
    }
  }

  // ---------------------------------------------------------------------------
  // The code.

  /** The loop over the audience entries: true when no entry from index i on is "". */
  function NoEmptyEntryFrom(aud: seq<string>, i: nat): (ok: bool)
    requires i <= |aud|
    decreases |aud| - i
    ensures ok <==> forall k :: i <= k < |aud| ==> aud[k] != ""
  {
    if i == |aud| then true
    else if aud[i] == "" then false
    else NoEmptyEntryFrom(aud, i + 1)
  }

  /**
   * Issuer.complete: the chain of type-assertion guards, nil (None) when the
   * claim map may be signed.
   */
  function Complete(c: ClaimSet): (r: Option<Detail>)
    ensures r.None? <==> Issuable(c)
  {
    var (iss, okIss) := AssertString(c, "iss");
    if !okIss || iss == "" then Some(Detail(1, ClaimNotFound(Iss)))
    else
      var (aud, okAud) := AssertClaimStrings(c, "aud");
      if !okAud || |aud| == 0 then Some(Detail(0, ClaimNotFound(Aud)))
      else if !NoEmptyEntryFrom(aud, 0) then Some(Detail(1, EmptyAudienceEntry))
      else
        var (iat, okIat) := AssertInt64(c, "iat");
        if !okIat || iat == 0 then Some(Detail(1, ClaimNotFound(Iat)))
        else
          var (exp, okExp) := AssertInt64(c, "exp");
          if !okExp || exp == 0 then Some(Detail(1, ClaimNotFound(Exp)))
          else
            var (sub, okSub) := AssertString(c, "sub");
            if !okSub || sub == "" then Some(Detail(1, ClaimNotFound(Sub)))
            else None
  }

  /** The checks run in the order iss, aud, aud entries, iat, exp, sub; the first failure is reported. */
  lemma CompleteFollowsOrder(c: ClaimSet)
    ensures Complete(c) == FirstFailure(Order, c)
  {
    FirstFailureIsEarliest(Order, c);
    if !IssPresent(c) {
      assert !Order[0].Passes(c);
    } else if !AudPresent(c) {
      assert Order[0].Passes(c) && !Order[1].Passes(c);
    } else if !AudEntriesNonEmpty(c) {
      assert Order[0].Passes(c) && Order[1].Passes(c) && !Order[2].Passes(c);
    } else if !IatPresent(c) {
      assert forall j :: 0 <= j < 3 ==> Order[j].Passes(c);
      assert !Order[3].Passes(c);
    } else if !ExpPresent(c) {
      assert forall j :: 0 <= j < 4 ==> Order[j].Passes(c);
      assert !Order[4].Passes(c);
    } else if !SubPresent(c) {
      assert forall j :: 0 <= j < 5 ==> Order[j].Passes(c);
      assert !Order[5].Passes(c);
    } else {
      assert forall j :: 0 <= j < |Order| ==> Order[j].Passes(c);
    }
  }

  /** No two checks report the same error, so the error identifies the failing check. */
  lemma ChecksHaveDistinctFailures(a: Check, b: Check)
    ensures a.Failure() == b.Failure() ==> a == b
  {
  }

  /** A failing Complete names the claim, and only "audience not found" uses code 0. */
  lemma CompleteErrorCodes(c: ClaimSet)
    ensures Complete(c).Some? ==> (Complete(c).value.code == 0 <==> Complete(c).value.reason == ClaimNotFound(Aud))
    ensures Complete(c).Some? ==> Complete(c).value.code in {0, 1}
  {
  }

  /** A key holding a value of the wrong Go type is treated exactly like a missing key. */
  lemma MistypedIsMissing(c: ClaimSet, k: Claim, v: Value)
    requires !k.HasRequiredType(v)
    ensures Complete(c[k.Name() := v]) == Complete(c - {k.Name()})
  {
  }

  /** Keys other than the five registered claims are never looked at. */
  lemma PassThroughIgnored(c: ClaimSet, name: string, v: Value)
    requires name !in RequiredNames
    ensures Complete(c[name := v]) == Complete(c)
  {
  }

  // ---------------------------------------------------------------------------
  // Construction and issuance.

  /** NewIssuer: reject "", then base64-decode, then parse the PEM private key. */
  function NewIssuer(privateKeyPem: string, decode: Base64Decoder, parse: PrivateKeyParser): (r: Result<Issuer, Detail>)
    ensures privateKeyPem == "" ==> r == Err(Detail(1, PrivateKeyEmpty))
    ensures privateKeyPem != "" && decode(privateKeyPem).None? ==> r == Err(Detail(1, PrivateKeyUndecodable))
    ensures privateKeyPem != "" && decode(privateKeyPem).Some? && parse(decode(privateKeyPem).value).None?
            ==> r == Err(Detail(1, PrivateKeyUnparsable))
    ensures r.Ok? <==> privateKeyPem != "" && decode(privateKeyPem).Some? && parse(decode(privateKeyPem).value).Some?
    ensures r.Ok? ==> r.value.privateKey == parse(decode(privateKeyPem).value).value
  {
    if privateKeyPem == "" then Err(Detail(1, PrivateKeyEmpty))
    else match decode(privateKeyPem)
      case None => Err(Detail(1, PrivateKeyUndecodable))
      case Some(privStr) =>
        match parse(privStr)
        case None => Err(Detail(1, PrivateKeyUnparsable))
        case Some(privateKey) => Ok(Issuer(privateKey))
  }

  /** An empty key is rejected before either decoder is consulted. */
  lemma NewIssuerRejectsEmptyBeforeDecoding(d1: Base64Decoder, p1: PrivateKeyParser, d2: Base64Decoder, p2: PrivateKeyParser)
    ensures NewIssuer("", d1, p1) == NewIssuer("", d2, p2)
    ensures NewIssuer("", d1, p1).Err?
  {
  }

  /** A base64 failure is reported whatever the PEM parser would have said. */
  lemma NewIssuerDecodesBeforeParsing(pem: string, d: Base64Decoder, p1: PrivateKeyParser, p2: PrivateKeyParser)
    requires pem != "" && d(pem).None?
    ensures NewIssuer(pem, d, p1) == NewIssuer(pem, d, p2)
  {
  }

  /**
   * Issuer.Issue: the completeness check first; only a complete claim map is
   * handed, whole and unchanged, to the signer, whose token is returned as is.
   * Every failure returns "" beside the error.
   */
  function Issue(j: Issuer, claimsMap: ClaimSet, sign: Signer): (r: (string, Option<Detail>))
    ensures !Issuable(claimsMap) ==> r == ("", Complete(claimsMap)) && r.1.Some?
    ensures Issuable(claimsMap) && sign(j.privateKey, claimsMap).Err? ==> r == ("", Some(Detail(1, SigningFailed)))
    ensures r.1.None? <==> Issuable(claimsMap) && sign(j.privateKey, claimsMap).Ok?
    ensures r.1.None? ==> r.0 == sign(j.privateKey, claimsMap).value
    ensures r.1.Some? ==> r.0 == ""
  {
    match Complete(claimsMap)
    case Some(err) => ("", Some(err))
    case None =>
      match sign(j.privateKey, claimsMap)
      case Err(_) => ("", Some(Detail(1, SigningFailed)))
      case Ok(signedToken) => (signedToken, None)
  }

  /** An incomplete claim map never reaches the signer: any two signers give the same answer. */
  lemma IssueSignsOnlyComplete(j: Issuer, c: ClaimSet, s1: Signer, s2: Signer)
    requires !Issuable(c)
    ensures Issue(j, c, s1) == Issue(j, c, s2)
  {
  }

  // ---------------------------------------------------------------------------
  // The cases of issuer_test.go, with the error each one meets.

  function TestClaims(iss: Value, aud: Value, iat: Value, exp: Value, sub: Option<Value>): ClaimSet {
    var base := map["iss" := iss, "aud" := aud, "iat" := iat, "exp" := exp];
    if sub.Some? then base["sub" := sub.value] else base
  }

  lemma IssuerTestCases(now: int64)
    requires 0 < now < 0x7FFF_FFFF_FFFF_0000
    ensures var ok := ClaimStrings(["ledger-service"]);
      && Complete(TestClaims(Str("test-issuer"), ok, I64(now), I64(now + 3600), Some(Str("user-123")))) == None
      && Complete(TestClaims(Str("test-issuer"), StringSlice(["ledger-service"]), I64(now), I64(now + 3600), Some(Str("user-123"))))
         == Some(Detail(0, ClaimNotFound(Aud)))
      && Complete(TestClaims(Str("test-issuer"), ok, I64(now), I64(now + 3600), None))
         == Some(Detail(1, ClaimNotFound(Sub)))
      && Complete(TestClaims(Str("test-issuer"), ok, F64Tag, I64(now + 3600), Some(Str("user-123"))))
         == Some(Detail(1, ClaimNotFound(Iat)))
      && Complete(TestClaims(Str(""), ok, I64(now), I64(now + 3600), Some(Str("user-123"))))
         == Some(Detail(1, ClaimNotFound(Iss)))
      && Complete(TestClaims(Str("test-issuer"), ClaimStrings(["ledger-service", ""]), I64(now), I64(now + 3600), Some(Str("user-123"))))
         == Some(Detail(1, EmptyAudienceEntry))
      && Complete(TestClaims(Str("test-issuer"), ok, I64(now), GoInt(0), Some(Str("user-123"))))
         == Some(Detail(1, ClaimNotFound(Exp)))
      && Complete(TestClaims(Str("test-issuer"), ok, GoInt(0), I64(now + 3600), Some(Str("user-123"))))
         == Some(Detail(1, ClaimNotFound(Iat)))
  {
  }
}
