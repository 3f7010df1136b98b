/** Stateless bearer tokens: JWT (RFC 7519) signed with HMAC-SHA256 (section
    3.2 of RFC 7518). Encoding, signing, parsing and signature and expiry
    checking belong to the JWT library and are parameters here (`JwtLibrary`);
    what the model states is the code around them. Time is in seconds. */
module Tokens {
  import opened Wrappers

  /** Tokens expire 24 hours after issue. */
  const TokenLifetime: int := 24 * 60 * 60
  const TokenIssuer: string := "playtz-api"
  /** The documented insecure development key used when no secret is configured. */
  const FallbackSecret: string := "your-secret-key-change-in-production"
  const BearerPrefix: string := "Bearer "

  datatype Claims = Claims(
    userId: string,
    username: string,
    email: string,
    roleId: string,
    roleName: string,
    expiresAt: Option<int>,
    issuedAt: Option<int>,
    issuer: string,
    subject: string)

  /** The signing methods a token header can name. */
  datatype SigningMethod =
    | HS256 | HS384 | HS512
    | RS256 | RS384 | RS512
    | PS256 | PS384 | PS512
    | ES256 | ES384 | ES512
    | EdDSA | NoSigning

  /** The HMAC family, the only one the validator accepts. */
  predicate IsHMAC(m: SigningMethod) {
    m.HS256? || m.HS384? || m.HS512?
  }

  /** The JWT library as the model sees it: `sign` encodes and signs claims with
      a key (it may fail), `decode` reads a token's header method and claims
      without checking anything, and `verify(token, key, now)` is the library's
      signature and registered-claims check of a token under a key at time
      `now`, the instant the parser reads the clock. */
  datatype JwtLibrary = JwtLibrary(
    sign: (SigningMethod, Claims, string) -> Option<string>,
    decode: string -> Option<(SigningMethod, Claims)>,
    verify: (string, string, int) -> bool)

  datatype TokenError = SigningFailed | Malformed | InvalidSigningMethod | InvalidToken

  // ---------------------------------------------------------------------
  // The signing key, read from the environment once and cached.
  // ---------------------------------------------------------------------

  /** The key chosen from the value of `JWT_SECRET` ("" when unset). */
  function SecretFrom(env: string): (secret: string)
    ensures secret != ""
    ensures env != "" ==> secret == env
    ensures env == "" ==> secret == FallbackSecret
  {
    if env == "" then FallbackSecret else env
  }

  /** The package-level cache of the signing key. */
  class SecretCache {
    var jwtSecret: string

    constructor ()
      ensures jwtSecret == ""
    {
      jwtSecret := "";
    }

    /** `env` is what the environment holds for `JWT_SECRET` at the time of the
        call; it is consulted only while the cache is still empty. */
    method GetJWTSecret(env: string) returns (secret: string)
      modifies this
      ensures secret == jwtSecret && secret != ""
      ensures old(jwtSecret) != "" ==> secret == old(jwtSecret)
      ensures old(jwtSecret) == "" ==> secret == SecretFrom(env)
    {
      if |jwtSecret| == 0 {
        var s := env;
        if s == "" {
          s := FallbackSecret;
        }
        jwtSecret := s;
      }
      secret := jwtSecret;
    }
  }

  /** Once a key has been handed out, every later call hands out the same key,
      whatever the environment says by then. */
  method SecretIsStable(cache: SecretCache, env1: string, env2: string) returns (first: string, second: string)
    modifies cache
    ensures first == second && first != ""
    ensures old(cache.jwtSecret) == "" ==> first == SecretFrom(env1)
  {
    first := cache.GetJWTSecret(env1);
    second := cache.GetJWTSecret(env2);
  }

  // ---------------------------------------------------------------------
  // Issue and validate.
  // ---------------------------------------------------------------------

  /** The claims GenerateToken signs: the identity, issued now, expiring a day
      later, issued by this API, about the user. */
  function TokenClaims(userId: string, username: string, email: string, roleId: string,
                       roleName: string, now: int): (c: Claims)
    ensures c.issuedAt == Some(now) && c.expiresAt == Some(now + TokenLifetime)
    ensures c.subject == c.userId && c.issuer == TokenIssuer
    ensures c.userId == userId && c.username == username && c.email == email
    ensures c.roleId == roleId && c.roleName == roleName
  {
    Claims(userId, username, email, roleId, roleName, Some(now + TokenLifetime), Some(now), TokenIssuer, userId)
  }

  /** GenerateToken: sign the claims with HS256 under the cached key. */
  function GenerateToken(lib: JwtLibrary, secret: string, userId: string, username: string, email: string,
                         roleId: string, roleName: string, now: int): (r: Result<string, TokenError>)
    ensures r.Ok? <==> lib.sign(HS256, TokenClaims(userId, username, email, roleId, roleName, now), secret).Some?
    ensures r.Ok? ==> r.value == lib.sign(HS256, TokenClaims(userId, username, email, roleId, roleName, now), secret).value
    ensures r.Err? ==> r.error == SigningFailed
  {
    match lib.sign(HS256, TokenClaims(userId, username, email, roleId, roleName, now), secret)
    case None => Err(SigningFailed)
    case Some(token) => Ok(token)
  }

  /** ValidateToken at time `now`: a token is accepted exactly when it decodes,
      names an HMAC method in its header, and the library verifies it under the
      key at that time; the result is then the claims it carries. */
  function ValidateToken(lib: JwtLibrary, secret: string, token: string, now: int): (r: Result<Claims, TokenError>)
    ensures r.Ok? <==> lib.decode(token).Some? && IsHMAC(lib.decode(token).value.0) && lib.verify(token, secret, now)
    ensures r.Ok? ==> r.value == lib.decode(token).value.1
    ensures lib.decode(token).Some? && IsHMAC(lib.decode(token).value.0) && !lib.verify(token, secret, now) ==>
              r == Err(InvalidToken)
  {
    match lib.decode(token)
    case None => Err(Malformed)
    case Some((alg, claims)) =>
      if !IsHMAC(alg) then Err(InvalidSigningMethod)
      else if !lib.verify(token, secret, now) then Err(InvalidToken)
      else Ok(claims)
  }

  /** A token whose header names a non-HMAC method (an RSA key, or `none`) is
      refused whatever the library would say of its signature. */
  lemma NonHmacIsRejected(lib: JwtLibrary, secret: string, token: string, now: int)
    requires lib.decode(token).Some? && !IsHMAC(lib.decode(token).value.0)
    ensures ValidateToken(lib, secret, token, now) == Err(InvalidSigningMethod)
  {
  }

  /** What the model asks of the JWT library (golang-jwt v5 with its default
      parser options): three laws about the tokens it signed. Nothing is asked
      of tokens it did not sign. The times a token carries are read back
      through a 64-bit float, so the laws speak only of claims whose times
      are within 2^53 seconds of the epoch. */

  const MaxExactSeconds: int := 0x20_0000_0000_0000

  predicate ExactSeconds(d: Option<int>) {
    d.None? || -MaxExactSeconds <= d.value <= MaxExactSeconds
  }

  predicate ExactTimes(c: Claims) {
    ExactSeconds(c.expiresAt) && ExactSeconds(c.issuedAt)
  }

  /** The default validation test at time `t`: a token with no expiry never
      expires, one with an expiry is valid strictly before it. */
  predicate Unexpired(c: Claims, t: int) {
    c.expiresAt.None? || t < c.expiresAt.value
  }

  /** A token it signed decodes to the method and claims it was signed with. */
  ghost predicate SignThenDecode(lib: JwtLibrary) {
    forall m: SigningMethod, c: Claims, k: string ::
      lib.sign(m, c, k).Some? && ExactTimes(c) ==> lib.decode(lib.sign(m, c, k).value) == Some((m, c))
  }

  /** A token it signed under a non-empty key verifies under that key at any
      time at which its claims are unexpired. */
  ghost predicate VerifiesUnexpired(lib: JwtLibrary) {
    forall m: SigningMethod, c: Claims, k: string, t: int ::
      lib.sign(m, c, k).Some? && k != "" && ExactTimes(c) && Unexpired(c, t) ==>
        lib.verify(lib.sign(m, c, k).value, k, t)
  }

  /** A token it signed is refused, under any key, at or after the expiry it
      carries. */
  ghost predicate SignedExpires(lib: JwtLibrary) {
    forall m: SigningMethod, c: Claims, k: string, k2: string, t: int ::
      lib.sign(m, c, k).Some? && ExactTimes(c) && !Unexpired(c, t) ==>
        !lib.verify(lib.sign(m, c, k).value, k2, t)
  }

  /** Round trip: a token GenerateToken issued at `now` under a key (never
      empty, see `SecretFrom`) validates under the same key at any time `t`
      before its 24 hours are up, to the identity it was issued for. */
  lemma IssueThenValidate(lib: JwtLibrary, secret: string, userId: string, username: string, email: string,
                          roleId: string, roleName: string, now: int, token: string, t: int)
    requires SignThenDecode(lib) && VerifiesUnexpired(lib) && secret != ""
    requires -MaxExactSeconds <= now && now + TokenLifetime <= MaxExactSeconds
    requires GenerateToken(lib, secret, userId, username, email, roleId, roleName, now) == Ok(token)
    requires t < now + TokenLifetime
    ensures ValidateToken(lib, secret, token, t).Ok?
    ensures var c := ValidateToken(lib, secret, token, t).value;
      c.userId == userId && c.username == username && c.email == email &&
      c.roleId == roleId && c.roleName == roleName && c.subject == userId &&
      c.issuer == TokenIssuer && c.issuedAt == Some(now) && c.expiresAt == Some(now + TokenLifetime)
  {
    var claims := TokenClaims(userId, username, email, roleId, roleName, now);
    assert lib.sign(HS256, claims, secret) == Some(token);
    assert lib.decode(token) == Some((HS256, claims));
    assert Unexpired(claims, t) && ExactTimes(claims);
    assert lib.verify(lib.sign(HS256, claims, secret).value, secret, t);
  }

  /** The other half of the window: from 24 hours after issue on, the same
      token is refused as invalid. */
  lemma IssuedTokenExpires(lib: JwtLibrary, secret: string, userId: string, username: string, email: string,
                           roleId: string, roleName: string, now: int, token: string, t: int)
    requires SignThenDecode(lib) && SignedExpires(lib)
    requires -MaxExactSeconds <= now && now + TokenLifetime <= MaxExactSeconds
    requires GenerateToken(lib, secret, userId, username, email, roleId, roleName, now) == Ok(token)
    requires now + TokenLifetime <= t
    ensures ValidateToken(lib, secret, token, t) == Err(InvalidToken)
  {
    var claims := TokenClaims(userId, username, email, roleId, roleName, now);
    assert lib.sign(HS256, claims, secret) == Some(token);
    assert lib.decode(token) == Some((HS256, claims));
    assert !lib.verify(token, secret, t);
  }

  /** The validator does not demand an expiry: an HMAC token signed under the
      key whose claims carry none (GenerateToken never issues one, but anyone
      holding the key can) is accepted at every time. */
  lemma TokenWithoutExpiryIsAlwaysAccepted(lib: JwtLibrary, secret: string, c: Claims, token: string, t: int)
    requires SignThenDecode(lib) && VerifiesUnexpired(lib) && secret != ""
    requires ExactTimes(c) && c.expiresAt.None?
    requires lib.sign(HS256, c, secret) == Some(token)
    ensures ValidateToken(lib, secret, token, t) == Ok(c)
  {
    assert lib.decode(token) == Some((HS256, c));
    assert Unexpired(c, t);
    assert lib.verify(lib.sign(HS256, c, secret).value, secret, t);
  }

  // ---------------------------------------------------------------------
  // The Authorization header.
  // ---------------------------------------------------------------------

  /** The token after a `Bearer ` prefix (case-sensitive), or "" when the
      prefix is missing or nothing follows it. */
  function ExtractTokenFromHeader(authHeader: string): (token: string)
    ensures token != "" <==> |authHeader| > |BearerPrefix| && authHeader[..|BearerPrefix|] == BearerPrefix
    ensures token != "" ==> authHeader == BearerPrefix + token
  {
    if |authHeader| > 7 && authHeader[..7] == "Bearer " then authHeader[7..] else ""
  }

  /** Prefixing any non-empty token and extracting gives the token back. */
  lemma ExtractRoundTrip(token: string)
    requires token != ""
    ensures ExtractTokenFromHeader(BearerPrefix + token) == token
  {
    assert (BearerPrefix + token)[..7] == BearerPrefix;
    assert (BearerPrefix + token)[7..] == token;
  }

  /** The edge cases: the bare prefix, a lower-case scheme, a missing scheme and
      the empty header all give "". */
  lemma ExtractEdgeCases()
    ensures ExtractTokenFromHeader("Bearer ") == ""
    ensures ExtractTokenFromHeader("bearer x") == ""
    ensures ExtractTokenFromHeader("abc123") == ""
    ensures ExtractTokenFromHeader("") == ""
    ensures ExtractTokenFromHeader("Bearer abc123") == "abc123"
  {
    assert "bearer x"[..7] != BearerPrefix by { assert "bearer x"[0] == 'b'; }
    ExtractRoundTrip("abc123");
    assert BearerPrefix + "abc123" == "Bearer abc123";
  }
}
