/**
 * The two authentication providers' `get_current_user`: the basic provider, which
 * expects `Authorization: Bearer <token>` and surfaces the decoder's reason on failure,
 * and the PKCE/IAP provider, which decodes the `x-goog-iap-jwt-assertion` header and
 * answers every decoding failure with the same fixed detail.
 *
 * JWT decoding is outside the model: a provider is given a `Decoder`, a function
 * from a token and a key to either the token's claims or the decoder's error message.
 */
module Auth {
  import opened Wrappers
  import opened Text

  /** Request headers, keyed by lower-case header name as the web framework presents them. */
  type Headers = map<string, string>

  type Claims = map<string, string>

  /** What the JWT decoder does with a token and a key: the claims, or a failure carrying its message. */
  datatype Decoded = Decoded(claims: Claims) | DecodeFailed(message: string)

  type Decoder = (string, string) -> Decoded

  const HttpUnauthorized: int := 401
  const CredentialsDetail: string := "Could not validate credentials"
  const AuthorizationHeader: string := "authorization"
  const IapAssertionHeader: string := "x-goog-iap-jwt-assertion"
  const BearerScheme: string := "bearer"

  datatype AuthError =
    /** An `HTTPException` with this status code and detail. */
    | Unauthorized(status: int, detail: string)
    /** The header names the bearer scheme but holds no second word: indexing `split()[1]` fails. */
    | MalformedHeader
    /** The decoded claims have no `email` entry: indexing `data["email"]` fails. */
    | MissingEmailClaim
    /** The assertion header is absent and the decoder is handed no token at all. */
    | MissingAssertion

  /** `Ok(Some(email))` is an authenticated user, `Ok(None)` a request without credentials. */
  type Outcome = Result<Option<string>, AuthError>

  function HeaderValue(headers: Headers, name: string): (v: Option<string>)
  {
    if name in headers then Some(headers[name]) else None
  }

  /**
   * `get_authorization_scheme_param`: a missing or empty value gives two empty strings,
   * otherwise the text before the first space and the text after it.
   */
  function SchemeParam(value: Option<string>): (r: (string, string))
    ensures value.None? || value.value == [] ==> r == ([], [])
    ensures value.Some? && value.value != [] ==> r == PartitionSpace(value.value)
  {
    match value
    case None => ([], [])
    case Some(v) => if v == [] then ([], []) else PartitionSpace(v)
  }

  predicate IsBearer(scheme: string)
  {
    EqualsIgnoreCase(scheme, BearerScheme)
  }

  /** The request carries a non-empty `Authorization` header whose scheme is "bearer" in any case. */
  predicate PresentsBearer(headers: Headers)
  {
    && AuthorizationHeader in headers
    && headers[AuthorizationHeader] != []
    && IsBearer(SchemeParam(Some(headers[AuthorizationHeader])).0)
  }

  /** The bearer token as the first word of the header's parameter part (the text after the scheme). */
  function BearerToken(headers: Headers): Option<string>
  {
    if !PresentsBearer(headers) then None
    else
      var words := Split(SchemeParam(Some(headers[AuthorizationHeader])).1);
      if words == [] then None else Some(words[0])
  }

  /** A bearer header's words are its scheme followed by the words of its parameter. */
  lemma BearerWords(value: string)
    requires IsBearer(PartitionSpace(value).0)
    ensures Split(value) == [PartitionSpace(value).0] + Split(PartitionSpace(value).1)
  {
    var (scheme, param) := PartitionSpace(value);
    EqualsIgnoreCaseNoSpace(scheme, BearerScheme);
    if scheme == value {
      SplitWord(value);
      assert param == [];
    } else {
      SplitWordSpace(scheme, param);
    }
  }

  /** What an authenticated response is made of once the decoder has answered. */
  function ClaimsOutcome(claims: Claims): (r: Outcome)
    ensures r.Ok? <==> "email" in claims
    ensures r.Ok? ==> r.value == Some(claims["email"])
    ensures r.Err? ==> r.error == MissingEmailClaim
  {
    if "email" in claims then Ok(Some(claims["email"])) else Err(MissingEmailClaim)
  }

  /**
   * `BasicAuthProviderPlugin.get_current_user`: no bearer header means no identity and no
   * error; otherwise the second word of the header is decoded with the configured secret,
   * a decoding failure is a 401 whose detail is the decoder's message, and a success yields
   * the `email` claim.
   */
  function BasicCurrentUser(headers: Headers, secret: string, decode: Decoder): (r: Outcome)
    ensures r == Ok(None) <==> !PresentsBearer(headers)
    ensures r == Err(MalformedHeader) <==> PresentsBearer(headers) && BearerToken(headers).None?
    ensures BearerToken(headers).Some? ==>
      match decode(BearerToken(headers).value, secret)
      case DecodeFailed(m) => r == Err(Unauthorized(HttpUnauthorized, m))
      case Decoded(claims) => r == ClaimsOutcome(claims)
  {
    var authorization := HeaderValue(headers, AuthorizationHeader);
    var (scheme, _) := SchemeParam(authorization);
    if authorization.None? || authorization.value == [] || !IsBearer(scheme) then Ok(None)
    else
      BearerWords(authorization.value);
      var words := Split(authorization.value);
      if |words| < 2 then Err(MalformedHeader)
      else
        match decode(words[1], secret)
        case DecodeFailed(m) => Err(Unauthorized(HttpUnauthorized, m))
        case Decoded(claims) => ClaimsOutcome(claims)
  }

  /**
   * `get_current_user` of the PKCE and IAP providers (identical code): the assertion header
   * is the token, with no scheme check (the scheme is split off and then ignored); it is decoded with the signing key, any decoding
   * failure is a 401 with the fixed detail whatever the decoder said, and a success yields
   * the `email` claim.
   */
  function IapCurrentUser(headers: Headers, key: string, decode: Decoder): (r: Outcome)
    ensures r == Err(MissingAssertion) <==> IapAssertionHeader !in headers
    ensures r.Err? && r.error.Unauthorized? ==> r.error == Unauthorized(HttpUnauthorized, CredentialsDetail)
    ensures IapAssertionHeader in headers ==>
      match decode(headers[IapAssertionHeader], key)
      case DecodeFailed(_) => r == Err(Unauthorized(HttpUnauthorized, CredentialsDetail))
      case Decoded(claims) => r == ClaimsOutcome(claims)
    ensures r != Ok(None)
  {
    match HeaderValue(headers, IapAssertionHeader)
    case None => Err(MissingAssertion)
    case Some(token) =>
      match decode(token, key)
      case DecodeFailed(_) => Err(Unauthorized(HttpUnauthorized, CredentialsDetail))
      case Decoded(claims) => ClaimsOutcome(claims)
  }

  /** The IAP provider's rejection does not depend on why the decoder failed. */
  lemma IapRejectionIsOpaque(headers: Headers, key: string, d1: Decoder, d2: Decoder)
    requires IapAssertionHeader in headers
    requires d1(headers[IapAssertionHeader], key).DecodeFailed?
    requires d2(headers[IapAssertionHeader], key).DecodeFailed?
    ensures IapCurrentUser(headers, key, d1) == IapCurrentUser(headers, key, d2)
  {
  }

  /** The basic provider's rejection carries the decoder's reason, so different reasons give different errors. */
  lemma BasicRejectionIsDetailed(headers: Headers, secret: string, d1: Decoder, d2: Decoder)
    requires BearerToken(headers).Some?
    requires d1(BearerToken(headers).value, secret).DecodeFailed?
    requires d2(BearerToken(headers).value, secret).DecodeFailed?
    requires d1(BearerToken(headers).value, secret).message != d2(BearerToken(headers).value, secret).message
    ensures BasicCurrentUser(headers, secret, d1) != BasicCurrentUser(headers, secret, d2)
  {
  }

  /** The scheme is matched in any case, and extra spaces before the token are skipped. */
  lemma BearerTokenExample()
    ensures BearerToken(map[AuthorizationHeader := "BeArEr  t0k"]) == Some("t0k")
  {
    MixedCaseSchemeParam();
    MixedCaseIsBearer();
    SplitSpacedToken();
  }

  lemma MixedCaseSchemeParam()
    ensures SchemeParam(Some("BeArEr  t0k")) == ("BeArEr", " t0k")
  {
    assert "BeArEr  t0k" == "BeArEr" + [' '] + " t0k";
    PartitionAfter("BeArEr", " t0k");
  }

  lemma MixedCaseIsBearer()
    ensures IsBearer("BeArEr")
  {
  }

  lemma SplitSpacedToken()
    ensures Split(" t0k") == ["t0k"]
  {
    assert IsWord("t0k");
    SplitWord("t0k");
    assert " t0k"[1..] == "t0k";
  }

  /** The scheme alone, with no token, is the malformed header. */
  lemma SchemeWithoutTokenExample()
    ensures BasicCurrentUser(map[AuthorizationHeader := "Bearer"], "secret", (t, k) => DecodeFailed("bad"))
         == Err(MalformedHeader)
  {
  }

  /** Another scheme gives no identity and no error. */
  lemma OtherSchemeExample()
    ensures BasicCurrentUser(map[AuthorizationHeader := "Basic t0k"], "secret", (t, k) => DecodeFailed("bad")) == Ok(None)
  {
  }
}
