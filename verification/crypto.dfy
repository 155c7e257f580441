/**
 * The password-hashing and token-signing libraries, kept uninterpreted.
 * A `Primitives` value bundles the four library calls the server makes;
 * `Sound` states the only facts about them that the model relies on.
 */
module Crypto {
  import opened Wrappers

  /** The payload the server signs into a token: `{ id, email, role }`. */
  datatype Claims = Claims(id: int, email: string, role: string)

  datatype Primitives = Primitives(
    // bcrypt.hash(password, 10); the random salt is an explicit argument
    hash: (string, nat) -> string,
    // bcrypt.compare(password, storedHash)
    compare: (string, string) -> bool,
    // jwt.sign(claims, JWT_SECRET)
    sign: Claims -> string,
    // jwt.verify(token, JWT_SECRET): the decoded payload, or None when verification fails
    verify: string -> Option<Claims>)

  /**
   * What the libraries promise: a password always matches its own hash,
   * a token the server signed verifies to the claims it was signed with,
   * and a signed token is a non-empty string without spaces (a JWT is
   * three base64url segments joined by dots).
   */
  ghost predicate Sound(k: Primitives)
  {
    && (forall password, salt :: k.compare(password, k.hash(password, salt)))
    && (forall c :: k.verify(k.sign(c)) == Some(c))
    && (forall c :: k.sign(c) != [] && ' ' !in k.sign(c))
  }
}
