/** The two foreign libraries the API calls: bcrypt for password hashes and
    PyJWT for HS256-signed tokens (RFC 7519, with the HS256 algorithm of
    section 3.2 of RFC 7518). Their internals are not modelled: each library
    is a pair of functions supplied by the caller, and the properties the API
    relies on are stated as predicates that lemmas take as hypotheses. */
module Crypto {
  import opened Http

  /** A decoded JWT payload; the API only ever reads and writes "user_id". */
  type Claims = map<string, int>

  /** The random salt that bcrypt.gensalt() would produce. */
  type Salt = string

  /** jwt.encode(claims, key, algorithm="HS256") and
      jwt.decode(token, key, algorithms=["HS256"]); decode yields None where
      PyJWT raises (bad signature, wrong key, malformed token). */
  datatype Jwt = Jwt(encode: (string, Claims) -> string, decode: (string, string) -> Option<Claims>)

  /** bcrypt.hashpw(password, salt) and bcrypt.checkpw(password, hash). */
  datatype Bcrypt = Bcrypt(hashpw: (string, Salt) -> string, checkpw: (string, string) -> bool)

  /** What the handlers take from the process: SECRET_KEY and the two libraries. */
  datatype Config = Config(secretKey: string, jwt: Jwt, bcrypt: Bcrypt)

  /** A token that login signs, {"user_id": id}, decodes under the same key to
      that payload (it carries no "exp", "nbf" or "aud" claim that PyJWT would
      reject); and a compact JWS serialization (base64url segments joined by
      dots) never contains a space. */
  ghost predicate JwtLaws(jwt: Jwt)
  {
    && (forall key, id :: jwt.decode(key, jwt.encode(key, UserClaims(id))) == Some(UserClaims(id)))
    && (forall key, claims :: ' ' !in jwt.encode(key, claims))
  }

  /** A password checks against any hash made from it, whatever the salt. */
  ghost predicate BcryptLaws(bcrypt: Bcrypt)
  {
    forall password, salt :: bcrypt.checkpw(password, bcrypt.hashpw(password, salt))
  }

  /** The payload login signs: {"user_id": id}. */
  function UserClaims(id: int): Claims
  {
    map["user_id" := id]
  }
}
