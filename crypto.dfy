/**
 * The password-hashing primitive, left uninterpreted.  `hash(password, salt)`
 * stands for a salted one-way hash (the salt is the randomness that makes two
 * hashes of one password differ, so it is passed in); `compare(password, hash)`
 * is the matching verification primitive.
 */
module Crypto {

  datatype Hasher = Hasher(hash: (string, nat) -> string, compare: (string, string) -> bool)

  /** What the primitive promises: a password verifies against every hash made of it. */
  ghost predicate Sound(h: Hasher) {
    forall password, salt :: h.compare(password, h.hash(password, salt))
  }
}
