/** Who a signing request comes from: JWT claims for users, an HMAC over the hash for the backend. */
module Auth {
  import opened Text
  import opened Wrappers
  import Pem

  datatype Claims = Claims(appId: string, expiration: int, issuer: string, privyId: string)

  /**
   * parse stands for the JWT library: claims of a token whose ES256 signature the PEM key verifies and
   * which the library's own checks of time accept now.
   */
  datatype AuthConfig = AuthConfig(
    verificationKey: string,
    appId: string,
    environment: string,
    axalSecret: string,
    parse: (string, string, int) -> Option<Claims>,
    hmac: (string, string) -> string)

  predicate ValidClaims(claims: Claims, appId: string, environment: string, now: int) {
    if claims.appId != appId then false
    else if claims.issuer != "privy.io" then false
    else if (environment == "prod" || environment == "staging") && claims.expiration < now then false
    else if claims.privyId == "" then false
    else "did:privy:" <= claims.privyId
  }

  /** ValidateJWTAndExtractPrivyID, with None for every error. */
  function ExtractPrivyId(cfg: AuthConfig, token: string, now: int): Option<string> {
    if token == "" || cfg.verificationKey == "" || cfg.appId == "" then None
    else
      match cfg.parse(token, Pem.Format(cfg.verificationKey), now)
      case None => None
      case Some(claims) => if ValidClaims(claims, cfg.appId, cfg.environment, now) then Some(claims.privyId) else None
  }

  function VerifyAxalSignature(cfg: AuthConfig, payload: string, signature: string): bool {
    Hex(cfg.hmac(cfg.axalSecret, payload)) == signature
  }

  /** An accepted token names a Privy user of this app, and in prod or staging has not expired. */
  lemma AcceptedToken(cfg: AuthConfig, token: string, now: int, claims: Claims)
    requires cfg.parse(token, Pem.Format(cfg.verificationKey), now) == Some(claims)
    ensures ExtractPrivyId(cfg, token, now).Some? <==>
            && token != "" && cfg.verificationKey != "" && cfg.appId == claims.appId != "" && claims.issuer == "privy.io"
            && "did:privy:" <= claims.privyId
            && (cfg.environment in {"prod", "staging"} ==> now <= claims.expiration)
    ensures ExtractPrivyId(cfg, token, now).Some? ==> ExtractPrivyId(cfg, token, now).value == claims.privyId
  {
    assert "did:privy:" <= claims.privyId ==> claims.privyId[0] == 'd';
  }

  /** The stored form of the verification key does not matter: any two forms of one key accept the same tokens. */
  lemma KeyFormIrrelevant(cfg: AuthConfig, lines: seq<string>, token: string, now: int)
    requires Pem.BodyLines(lines)
    ensures ExtractPrivyId(cfg.(verificationKey := Pem.PemText(lines, "\\n")), token, now) ==
            ExtractPrivyId(cfg.(verificationKey := Pem.PemText(lines, "\n")), token, now) ==
            ExtractPrivyId(cfg.(verificationKey := Pem.OneLineText(Pem.Concat(lines))), token, now)
  {
    Pem.FormatConfluence(lines);
    assert |Pem.BEGIN| > 0;
  }

  /** What PEM decoding does to a base64 body: its white space does not matter. */
  ghost predicate SkipsBodySpaces(parse: (string, string, int) -> Option<Claims>) {
    forall token, body, body', now | Pem.Compact(body) == Pem.Compact(body') && Pem.IsBase64(Pem.Compact(body)) ::
      parse(token, Pem.KeyText(body), now) == parse(token, Pem.KeyText(body'), now)
  }

  /**
   * With such a decoder the form with spaces for line breaks does as well, for a body of any length:
   * what formatting does not restore of it is white space.
   */
  lemma SpacedFormIrrelevant(cfg: AuthConfig, lines: seq<string>, token: string, now: int)
    requires Pem.BodyLines(lines) && SkipsBodySpaces(cfg.parse)
    ensures ExtractPrivyId(cfg.(verificationKey := Pem.PemText(lines, " ")), token, now) ==
            ExtractPrivyId(cfg.(verificationKey := Pem.PemText(lines, "\n")), token, now)
  {
    var body := Pem.SpacedDiffersInSpaces(lines);
    Pem.FormatConfluence(lines);
    Pem.BodyOf(lines);
    assert cfg.parse(token, Pem.KeyText(body), now) == cfg.parse(token, Pem.KeyText(Join(lines, "\n")), now);
    assert |Pem.BEGIN| > 0;
  }
}
