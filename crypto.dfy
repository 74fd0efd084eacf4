/** bcrypt and JSON Web Tokens, seen from the routes: four functions whose
    internals (salt, cost factor, signature algorithm, expiry) are not
    modelled. They are passed to the handlers as values, so every result
    proved holds for any implementation; the facts a proof needs about them
    are stated as predicates and appear as preconditions of the lemmas that
    use them. */
module Crypto {
  import opened Common

  /** The payload `jwt.sign` is given at login: `{ userId, username }`. */
  datatype Claims = Claims(userId: int, username: string)

  datatype Crypto = Crypto(
    hash: string -> string,             // bcrypt.hash(password, 10)
    compare: (string, string) -> bool,  // bcrypt.compare(password, stored)
    sign: Claims -> string,             // jwt.sign(claims, JWT_SECRET, ...)
    verify: string -> Option<Claims>)   // jwt.verify(token, JWT_SECRET), None when it throws

  /** bcrypt accepts the password a hash was made from. */
  ghost predicate HashSound(c: Crypto)
  {
    forall p :: c.compare(p, c.hash(p))
  }

  /** A freshly signed token verifies to its own claims and, being
      base64url text joined by dots, holds no space. */
  ghost predicate TokenSound(c: Crypto)
  {
    forall claims :: c.verify(c.sign(claims)) == Some(claims) && ' ' !in c.sign(claims)
  }
}
