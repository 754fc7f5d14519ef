/** Session tokens and the auth gate (server/src/requests/jwt.rs).
    The jsonwebtoken crate is abstract: signing is an `Encoder` and checking
    a token (HS256 signature, expiry with the library's leeway) a `Decoder`,
    both function parameters. The clock is the parameter `now`, read once. */
module Jwt {
  import opened Wrappers
  import opened Text
  import opened Models
  import TomlEnv
  import Auth

  /** The claims of every issued token. */
  datatype Claims = Claims(sub: string, iat: usize, exp: usize)

  /** The kinds of `jsonwebtoken::errors::ErrorKind`. */
  datatype ErrorKind =
    | InvalidToken
    | InvalidSignature
    | InvalidEcdsaKey
    | InvalidRsaKey(reason: string)
    | RsaFailedSigning
    | InvalidAlgorithmName
    | InvalidKeyFormat
    | MissingRequiredClaim(claim: string)
    | ExpiredSignature
    | InvalidIssuer
    | InvalidAudience
    | InvalidSubject
    | ImmatureSignature
    | InvalidAlgorithm
    | MissingAlgorithm
    | Base64(detail: string)
    | Json(detail: string)
    | Utf8(detail: string)
    | Crypto(detail: string)

  /** `encode(&Header::default(), &claims, &EncodingKey::from_secret(secret))`. */
  type Encoder = (Claims, string) -> Result<string, ErrorKind>

  /** `decode::<Claims>(token, &DecodingKey::from_secret(secret), &Validation::new(HS256))`. */
  type Decoder = (string, string) -> Result<Claims, ErrorKind>

  /** Lifetime of an issued token: 15 minutes, in seconds. */
  const TOKEN_LIFETIME: int := 15 * 60

  const USIZE_MODULUS: int := 0x1_0000_0000_0000_0000

  /** `t as usize` for a 64-bit signed timestamp on a 64-bit target: the same
      bits read as unsigned, so a time before 1970 wraps around. */
  function AsUsize(t: i64): (u: usize)
    ensures 0 <= t ==> u as int == t as int
    ensures t < 0 ==> u as int == t as int + USIZE_MODULUS
  {
    (t as int % USIZE_MODULUS) as usize
  }

  /** The claims `generate_jwt` signs at time `now`. The source reads the
      clock twice; the model reads it once. The sum `now + 15 min` must not
      overflow, as chrono would panic. */
  function IssueClaims(sub: string, now: i64): (claims: Claims)
    requires now as int + TOKEN_LIFETIME < 0x8000_0000_0000_0000
    ensures claims.sub == sub
    ensures 0 <= now ==> claims.iat as int == now as int && claims.exp as int == claims.iat as int + TOKEN_LIFETIME
    ensures -TOKEN_LIFETIME <= now as int < 0 ==> claims.exp < claims.iat
  {
    Claims(sub, AsUsize(now), AsUsize((now as int + TOKEN_LIFETIME) as i64))
  }

  /** `generate_jwt`: the issued claims for `sub`, signed with `secret`. */
  function GenerateJwt(sub: string, secret: string, now: i64, encode: Encoder): (token: Result<string, ErrorKind>)
    requires now as int + TOKEN_LIFETIME < 0x8000_0000_0000_0000
    ensures token == encode(IssueClaims(sub, now), secret)
  {
    encode(IssueClaims(sub, now), secret)
  }

  /** `validate_jwt`: never `Ok(false)`; `Ok(true)` exactly when the token
      decodes; an expired token stays `ExpiredSignature` and every other
      failure becomes `InvalidToken`. */
  function ValidateJwt(token: string, secret: string, decode: Decoder): (r: Result<bool, ErrorKind>)
    ensures r != Ok(false)
    ensures r.Ok? <==> decode(token, secret).Ok?
    ensures r.Err? ==> (r.error == ExpiredSignature <==> decode(token, secret).error == ExpiredSignature)
    ensures r.Err? ==> r.error == ExpiredSignature || r.error == InvalidToken
  {
    match decode(token, secret)
    case Ok(_) => Ok(true)
    case Err(e) => if e == ExpiredSignature then Err(ExpiredSignature) else Err(InvalidToken)
  }

  const NO_USER := "Error generating token: no user found"
  const SIGNING_FAILED := "Error generating token: "
  const INVALID_TOKEN := "Invalid JWT Token"

  /** `refresh`: a fresh token for the email in the path and the first user
      with that email. Nothing is checked about the caller. A signing error
      gives 500; so does a missing user, although a token was signed. */
  function Refresh(users: seq<User>, email: string, secret: string, now: i64, encode: Encoder): (r: Response<Auth.AuthRes>)
    requires now as int + TOKEN_LIFETIME < 0x8000_0000_0000_0000
    ensures r.status == OK || r.status == INTERNAL_SERVER_ERROR
    ensures r.status == OK <==> GenerateJwt(email, secret, now, encode).Ok? && Auth.UsersWithEmail(users, email) != []
    ensures r.status == OK ==>
      r.body == Success(Auth.AuthRes(Auth.UsersWithEmail(users, email)[0], GenerateJwt(email, secret, now, encode).value))
    ensures GenerateJwt(email, secret, now, encode).Ok? && Auth.UsersWithEmail(users, email) == [] ==>
      r == Failure(INTERNAL_SERVER_ERROR, NO_USER)
    ensures GenerateJwt(email, secret, now, encode).Err? ==>
      r.status == INTERNAL_SERVER_ERROR && r.body.Error? && SIGNING_FAILED <= r.body.errorMsg
  {
    var found := Auth.UsersWithEmail(users, email);
    match GenerateJwt(email, secret, now, encode)
    case Ok(jwt) =>
      if found == [] then Failure(INTERNAL_SERVER_ERROR, NO_USER)
      else Response(OK, Success(Auth.AuthRes(found[0], jwt)))
    case Err(e) => Failure(INTERNAL_SERVER_ERROR, SIGNING_FAILED + KindName(e))
  }

  /** The name of an error kind, standing for the library's message text. */
  function KindName(e: ErrorKind): string {
    match e
    case InvalidToken => "InvalidToken"
    case ExpiredSignature => "ExpiredSignature"
    case InvalidSignature => "InvalidSignature"
    case _ => "Error"
  }

  /** Anyone who knows an email gets a token for it: the refresh route asks
      for no credential. */
  lemma RefreshWithoutCredential(users: seq<User>, u: User, secret: string, now: i64, encode: Encoder)
    requires now as int + TOKEN_LIFETIME < 0x8000_0000_0000_0000
    requires u in users
    requires encode(IssueClaims(u.email, now), secret).Ok?
    ensures Refresh(users, u.email, secret, now, encode).status == OK
    ensures Refresh(users, u.email, secret, now, encode).body.content.token == encode(IssueClaims(u.email, now), secret).value
  {
    var i :| 0 <= i < |users| && users[i] == u;
    assert users[i] in Auth.UsersWithEmail(users, u.email);
  }

  /** `validate_jwt_route`: 200 with `true` exactly when the token decodes,
      401 otherwise. */
  function ValidateJwtRoute(token: string, secret: string, decode: Decoder): (r: Response<bool>)
    ensures r.status == OK <==> decode(token, secret).Ok?
    ensures r.status == OK ==> r.body == Success(true)
    ensures r.status != OK ==> r == Failure(UNAUTHORIZED, INVALID_TOKEN)
  {
    match ValidateJwt(token, secret, decode)
    case Ok(_) => Response(OK, Success(true))
    case Err(_) => Failure(UNAUTHORIZED, INVALID_TOKEN)
  }

  // ---------------------------------------------------------------------
  // The gate
  // ---------------------------------------------------------------------

  /** What `jwt_middleware` does with a request: run the handler, or answer
      with a status and never run it. */
  datatype Decision = RunHandler | Reject(status: StatusCode)

  /** The characters `HeaderValue::to_str` accepts: visible ASCII and tab. */
  predicate IsVisibleAscii(b: byte) {
    b == 9 || 32 <= b < 127
  }

  /** `HeaderValue::to_str`: the bytes as text when every one is visible
      ASCII or a tab. */
  function HeaderToStr(bytes: seq<byte>): (text: Option<string>)
    ensures text.Some? <==> forall i :: 0 <= i < |bytes| ==> IsVisibleAscii(bytes[i])
    ensures text.Some? ==> |text.value| == |bytes| && forall i :: 0 <= i < |bytes| ==> text.value[i] as int == bytes[i] as int
  {
    if forall i :: 0 <= i < |bytes| ==> IsVisibleAscii(bytes[i])
    then Some(seq(|bytes|, i requires 0 <= i < |bytes| => bytes[i] as int as char))
    else None
  }

  /** `auth_header.split_whitespace().nth(1)`: the second word of the
      header. The first word, the scheme, is not looked at. */
  function BearerToken(header: string): (token: Option<string>)
    ensures token.Some? ==> IsWord(token.value)
    ensures token.None? <==> |Words(header)| < 2
  {
    var words := Words(header);
    if |words| >= 2 then Some(words[1]) else None
  }

  /** A header `pad scheme sep token rest` yields `token`: any whitespace
      (or none) in front, any non-empty whitespace between the two words,
      and anything after the token that starts with whitespace. */
  lemma BearerTokenOfHeader(pad: string, scheme: string, sep: string, token: string, rest: string)
    requires IsBlank(pad) && IsWord(scheme)
    requires |sep| > 0 && IsBlank(sep) && IsWord(token)
    requires rest == [] || IsWhitespace(rest[0])
    ensures BearerToken(pad + scheme + sep + token + rest) == Some(token)
  {
    var after := sep + token + rest;
    assert pad + scheme + sep + token + rest == pad + scheme + after;
    assert after[0] == sep[0];
    WordsOfFirstWord(pad, scheme, after);
    WordsOfFirstWord(sep, token, rest);
  }

  /** `jwt_middleware`, given how reading the configuration went, the raw
      Authorization header (if any) and the token decoder. */
  function JwtMiddleware(config: Result<TomlEnv.Config, string>, authorization: Option<seq<byte>>, decode: Decoder): (d: Decision)
    ensures config.Err? ==> d == Reject(INTERNAL_SERVER_ERROR)
    ensures config.Ok? && config.value.server.env.IsDev() ==> d == RunHandler
    ensures d == RunHandler <==> config.Ok? && (config.value.server.env.IsDev() || Presents(authorization, config.value.server.secret, decode))
    ensures config.Ok? && d != RunHandler ==> d == Reject(UNAUTHORIZED)
  {
    match config
    case Err(_) => Reject(INTERNAL_SERVER_ERROR)
    case Ok(parsed) =>
      if parsed.server.env.IsDev() then RunHandler
      else
        var secret := parsed.server.secret;
        var header := if authorization.Some? then HeaderToStr(authorization.value) else None;
        match header
        case None => Reject(UNAUTHORIZED)
        case Some(text) =>
          match BearerToken(text)
          case Some(tok) =>
            (match ValidateJwt(tok, secret, decode)
             case Ok(_) => RunHandler
             case Err(_) => Reject(UNAUTHORIZED))
          case None => Reject(UNAUTHORIZED)
  }

  /** The request carries a readable Authorization header whose second word
      decodes under `secret`. */
  predicate Presents(authorization: Option<seq<byte>>, secret: string, decode: Decoder) {
    && authorization.Some?
    && HeaderToStr(authorization.value).Some?
    && BearerToken(HeaderToStr(authorization.value).value).Some?
    && decode(BearerToken(HeaderToStr(authorization.value).value).value, secret).Ok?
  }

  /** Without a header, or with one that is not visible ASCII, the request
      is refused (outside DEV) before the handler runs. */
  lemma MissingHeaderRejected(config: TomlEnv.Config, authorization: Option<seq<byte>>, decode: Decoder)
    requires config.server.env.IsProd()
    requires authorization.None? || HeaderToStr(authorization.value).None?
    ensures JwtMiddleware(Ok(config), authorization, decode) == Reject(UNAUTHORIZED)
  {
  }

  /** A header with fewer than two words is refused. */
  lemma ShortHeaderRejected(config: TomlEnv.Config, authorization: seq<byte>, decode: Decoder)
    requires config.server.env.IsProd()
    requires HeaderToStr(authorization).Some? && |Words(HeaderToStr(authorization).value)| < 2
    ensures JwtMiddleware(Ok(config), Some(authorization), decode) == Reject(UNAUTHORIZED)
  {
  }

  /** Outside DEV, a header `scheme token ...` lets the handler run exactly
      when `token` decodes under the configured secret, whatever the scheme,
      whatever whitespace surrounds the words and whatever follows the
      token. */
  lemma {:induction false} GateDecidesOnSecondWord(config: TomlEnv.Config, authorization: seq<byte>, decode: Decoder,
                                                   pad: string, scheme: string, sep: string, token: string, rest: string)
    requires config.server.env.IsProd()
    requires IsBlank(pad) && IsWord(scheme) && |sep| > 0 && IsBlank(sep) && IsWord(token)
    requires rest == [] || IsWhitespace(rest[0])
    requires HeaderToStr(authorization) == Some(pad + scheme + sep + token + rest)
    ensures JwtMiddleware(Ok(config), Some(authorization), decode) == RunHandler <==> decode(token, config.server.secret).Ok?
    ensures JwtMiddleware(Ok(config), Some(authorization), decode) != RunHandler ==>
      JwtMiddleware(Ok(config), Some(authorization), decode) == Reject(UNAUTHORIZED)
  {
    BearerTokenOfHeader(pad, scheme, sep, token, rest);
  }

  /** Any environment text other than a case variant of "production" reads
      as DEV, and DEV lets every request through. */
  lemma {:induction false} UnrecognisedEnvOpensGate(config: TomlEnv.Config, envText: string, authorization: Option<seq<byte>>, decode: Decoder)
    requires config.server.env == TomlEnv.DeserializeEnv(envText)
    requires !CaseVariant(envText, "production")
    ensures JwtMiddleware(Ok(config), authorization, decode) == RunHandler
  {
  }
}
