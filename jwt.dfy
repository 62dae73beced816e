/**
 * Token issue and verification of fark/src/jwt.rs. Both operations only read
 * the `Fark`'s secret, so they are functions of it. The `jsonwebtoken` crate's
 * `encode` and `decode` (JWS compact serialisation of RFC 7515 section 7.1,
 * HMAC-SHA256 of RFC 7518 section 3.2, the expiry test) are outside this
 * model and enter as arbitrary functions; the clock enters as the result of
 * its read.
 */
module Jwt {
  import opened Wrappers
  import opened Errors
  import opened Identities

  /** A Rust `u64`. */
  newtype u64 = x: int | 0 <= x < 0x1_0000_0000_0000_0000

  /** The failure the crate reports; its content is never inspected. */
  type JwtError

  /** The signing algorithms named by the source. */
  datatype Algorithm = HS256

  /** The token header: only the algorithm is set. */
  datatype Header = Header(alg: Algorithm)

  /** Both `EncodingKey::from_secret` and `DecodingKey::from_secret` are built from the secret's bytes. */
  datatype Key = FromSecret(secret: string)

  /** The part of the crate's `Validation` the source configures. */
  datatype Validation = Validation(alg: Algorithm, validateExp: bool, leeway: u64)

  /** The claim set of a token. */
  datatype Claims = Claims(
    aud: Option<string>,
    exp: u64,
    iat: u64,
    iss: Option<string>,
    sub: string,
    extra: Value)

  /** What the crate's `decode` returns on success. */
  datatype TokenData = TokenData(header: Header, claims: Claims)

  /** The crate's `encode`, at the moment of the call. */
  type Encoder = (Header, Claims, Key) -> Result<string, JwtError>

  /** The crate's `decode::<Claims>`, at the moment of the call (it reads the clock itself for the expiry test). */
  type Decoder = (string, Key, Validation) -> Result<TokenData, JwtError>

  /** The identity a claim set carries: its subject and its extra document. */
  function IdentityOf(c: Claims): (id: Identity)
    ensures id.userId == c.sub && id.data == c.extra
  {
    Identity(c.sub, c.extra)
  }

  /** The issue path never leaves the `u64` range: `now + ttl` does not overflow. */
  predicate NoOverflow(now: u64, ttlSecs: u64) {
    now as int + ttlSecs as int < 0x1_0000_0000_0000_0000
  }

  /**
   * The claim set `issue_jwt` builds for `identity` at time `now`: it carries
   * the identity back out, is issued at `now`, expires `ttlSecs` later, and
   * names no audience or issuer.
   */
  function IssuedClaims(identity: Identity, now: u64, ttlSecs: u64): (c: Claims)
    requires NoOverflow(now, ttlSecs)
    ensures IdentityOf(c) == identity
    ensures c.iat == now && c.iat <= c.exp && c.exp - c.iat == ttlSecs
    ensures c.aud == None && c.iss == None
  {
    Claims(aud := None, exp := now + ttlSecs, iat := now, iss := None,
           sub := identity.userId, extra := identity.data)
  }

  /** The validation `verify_jwt` asks the decoder for: HS256, expiry checked, 30 seconds of leeway. */
  function VerifyValidation(): (v: Validation)
    ensures v.alg == HS256 && v.validateExp && v.leeway == 30
  {
    Validation(HS256, true, 30)
  }

  /**
   * `issue_jwt` on a `Fark` whose secret is `secret`. An empty secret is
   * `SecretNotFound`, whatever the clock and the encoder would do; a failed
   * clock read is `InternalError`; otherwise the issued claims are signed
   * with HS256 under the secret, and an encoder failure is `InternalError`.
   */
  function IssueJwt(secret: string, identity: Identity, ttlSecs: u64,
                    clock: Result<u64, TimeError>, encode: Encoder): (r: Result<string, AuthError>)
    requires secret != "" && clock.Ok? ==> NoOverflow(clock.value, ttlSecs)
    ensures secret == "" ==> r == Err(SecretNotFound)
    ensures secret != "" && clock.Err? ==> r == Err(InternalError)
    ensures r.Err? ==> r.error == SecretNotFound || r.error == InternalError
    ensures secret != "" && r.Err? ==> r.error == InternalError
    ensures r.Ok? <==> secret != "" && clock.Ok? &&
                       encode(Header(HS256), IssuedClaims(identity, clock.value, ttlSecs), FromSecret(secret)).Ok?
    ensures r.Ok? ==>
              Ok(r.value) == encode(Header(HS256), IssuedClaims(identity, clock.value, ttlSecs), FromSecret(secret))
  {
    if secret == "" then Err(SecretNotFound)
    else match clock
      case Err(_) => Err(InternalError)
      case Ok(issuedAt) =>
        match encode(Header(HS256), IssuedClaims(identity, issuedAt, ttlSecs), FromSecret(secret))
        case Err(_) => Err(InternalError)
        case Ok(token) => Ok(token)
  }

  /**
   * `verify_jwt` on a `Fark` whose secret is `secret`. An empty secret is
   * `SecretNotFound` for every token; otherwise the token is decoded under the
   * secret with `VerifyValidation()`, any decode failure is `InvalidToken`, and
   * a decoded claim set gives back the identity it carries.
   */
  function VerifyJwt(secret: string, token: string, decode: Decoder): (r: Result<Identity, AuthError>)
    ensures secret == "" ==> r == Err(SecretNotFound)
    ensures r.Err? ==> r.error == SecretNotFound || r.error == InvalidToken
    ensures secret != "" && r.Err? ==> r.error == InvalidToken
    ensures secret != "" ==> (r.Ok? <==> decode(token, FromSecret(secret), VerifyValidation()).Ok?)
    ensures r.Ok? ==> r.value == IdentityOf(decode(token, FromSecret(secret), VerifyValidation()).value.claims)
  {
    if secret == "" then Err(SecretNotFound)
    else match decode(token, FromSecret(secret), VerifyValidation())
      case Err(_) => Err(InvalidToken)
      case Ok(data) => Ok(IdentityOf(data.claims))
  }

  /**
   * At the moment of verification, the decoder accepts the token the encoder
   * produced for the claim set `c` under `key`, and gives back `c`. This is
   * asked of one claim set only: a decoder that checks expiry refuses the
   * tokens of other, expired, claim sets.
   */
  ghost predicate DecodeInvertsOn(encode: Encoder, decode: Decoder, key: Key, c: Claims) {
    encode(Header(HS256), c, key).Ok? ==>
      decode(encode(Header(HS256), c, key).value, key, VerifyValidation()).Ok? &&
      decode(encode(Header(HS256), c, key).value, key, VerifyValidation()).value.claims == c
  }

  /**
   * Round trip: when the decoder, at the moment of verification, inverts the
   * encoder on the claims just issued, the token issued for `identity`
   * verifies to `identity` itself.
   */
  lemma IssueThenVerify(secret: string, identity: Identity, ttlSecs: u64,
                        clock: Result<u64, TimeError>, encode: Encoder, decode: Decoder)
    requires secret != "" && clock.Ok? ==> NoOverflow(clock.value, ttlSecs)
    requires IssueJwt(secret, identity, ttlSecs, clock, encode).Ok?
    requires DecodeInvertsOn(encode, decode, FromSecret(secret), IssuedClaims(identity, clock.value, ttlSecs))
    ensures VerifyJwt(secret, IssueJwt(secret, identity, ttlSecs, clock, encode).value, decode) == Ok(identity)
  {
  }
}
