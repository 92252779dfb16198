/**
 * Session tokens: `generate_jwt` and `decode_jwt` of AuthManager.py (lines 38-65), a compact
 * JWT (RFC 7519) signed with HMAC SHA-256 ("HS256", section 3.2 of RFC 7518). The cryptography is
 * abstracted: a signed token records its header, its claims and the key it was signed with, and a
 * signature verifies exactly when the verifying key is that key.
 */
module Tokens {
  import opened Wrappers

  /** `timedelta(days=1)` in seconds. */
  const OneDay: int := 86400

  /** The registered claims the code writes: subject, issued-at and expiry, as POSIX seconds. */
  datatype Claims = Claims(sub: Option<string>, iat: int, exp: int)

  /** A token as it reaches `decode_jwt`: one this model signed, or any other text. */
  datatype Jwt =
    | Signed(alg: string, typ: string, claims: Claims, key: string)
    | Malformed(text: string)

  /** `generate_jwt`: the header `{"alg": "HS256", "typ": "JWT"}`, signed with the process secret. */
  function GenerateJwt(payload: Claims, secret: string): Jwt {
    Signed("HS256", "JWT", payload, secret)
  }

  /**
   * The payload both ceremonies build (AuthManager.py lines 171-175 and 251-255). `issuedAt` and
   * `expiryBase` are two separate readings of the clock, as the code calls `now` twice.
   */
  function SessionClaims(userId: string, issuedAt: int, expiryBase: int): (c: Claims)
    ensures c.sub == Some(userId)
    ensures issuedAt == expiryBase ==> c.exp == c.iat + OneDay
    ensures issuedAt <= expiryBase ==> c.exp >= c.iat + OneDay
  {
    Claims(Some(userId), issuedAt, expiryBase + OneDay)
  }

  /** Why `jwt.decode` refused a token. */
  datatype DecodeFailure = ExpiredSignature | InvalidToken

  /**
   * `jwt.decode(token, secret, algorithms=["HS256"])` at time `now`: a malformed token, a header
   * algorithm other than HS256 or a signature made with another key is an `InvalidTokenError`;
   * a token whose `exp` is not after `now` is an `ExpiredSignatureError`, checked only after the
   * signature.
   */
  function JwtDecode(token: Jwt, secret: string, now: int): Option<DecodeFailure> {
    match token
    case Malformed(_) => Some(InvalidToken)
    case Signed(alg, _, claims, key) =>
      if alg != "HS256" || key != secret then Some(InvalidToken)
      else if claims.exp <= now then Some(ExpiredSignature)
      else None
  }

  /** `connexion.exceptions.Unauthorized`. */
  datatype Unauthorized = Unauthorized(message: string)

  /** What `decode_jwt` gives back: `{"uid": sub}`, or the `Unauthorized` it raises. */
  datatype Identity = Uid(uid: string) | Denied(reason: Unauthorized)

  /**
   * `decode_jwt`: expiry maps to "Token expired"; an invalid token maps to "Invalid token", and so
   * does any other error, such as a payload without `sub` (a `KeyError`).
   */
  function DecodeJwt(token: Jwt, secret: string, now: int): (r: Identity)
    ensures r.Uid? <==> JwtDecode(token, secret, now).None? && token.claims.sub.Some?
    ensures r.Uid? ==> r.uid == token.claims.sub.value
    ensures r.Denied? ==>
      r.reason.message == (if JwtDecode(token, secret, now) == Some(ExpiredSignature) then "Token expired" else "Invalid token")
  {
    match JwtDecode(token, secret, now)
    case Some(ExpiredSignature) => Denied(Unauthorized("Token expired"))
    case Some(InvalidToken) => Denied(Unauthorized("Invalid token"))
    case None =>
      match token.claims.sub
      case Some(sub) => Uid(sub)
      case None => Denied(Unauthorized("Invalid token"))
  }

  /** A minted token names its user until one day after the second clock reading, and is
      reported as expired from then on. */
  lemma DecodeMinted(userId: string, secret: string, issuedAt: int, expiryBase: int, now: int)
    ensures var t := GenerateJwt(SessionClaims(userId, issuedAt, expiryBase), secret);
      DecodeJwt(t, secret, now) ==
        if now < expiryBase + OneDay then Uid(userId) else Denied(Unauthorized("Token expired"))
  {
  }

  /** A token signed with another secret (for example one generated before a restart) is
      "Invalid token", however fresh it is: the signature is checked before the expiry. */
  lemma OtherSecretIsInvalid(t: Jwt, secret: string, now: int)
    requires t.Signed? && t.key != secret
    ensures DecodeJwt(t, secret, now) == Denied(Unauthorized("Invalid token"))
  {
  }
}
