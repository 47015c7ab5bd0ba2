/**
 * The password hasher (the bcryptjs library) as an abstract collaborator.
 * `hash` maps a random salt and a plaintext to a hash string; the salt is what
 * makes two hashes of one password differ.  The cost factor is not modelled.
 */
module Bcrypt {

  /** A random salt, drawn afresh for every call of `bcrypt.hash`. */
  type Salt = nat

  /** Every bcrypt hash string has this many characters. */
  const HashLength: nat := 60

  datatype Hasher = Hasher(hash: (Salt, string) -> string, compare: (string, string) -> bool)

  /** What the facade relies on: a hash is a bcrypt-shaped string that compares
    * equal to the plaintext it was made from. */
  ghost predicate Sound(h: Hasher)
  {
    forall s: Salt, p: string :: |h.hash(s, p)| == HashLength && h.compare(p, h.hash(s, p))
  }

  /** `v` is the output of the hasher for some salt and plaintext. */
  ghost predicate IsHash(h: Hasher, v: string)
  {
    exists s: Salt, p: string :: v == h.hash(s, p)
  }

  /**
   * A hash of a password the schema admits (at most 30 characters) is never
   * the password itself, and it verifies against that password.
   */
  lemma HashIsNotPlaintext(h: Hasher, s: Salt, p: string)
    requires Sound(h)
    requires |p| <= 30
    ensures h.hash(s, p) != p
    ensures h.compare(p, h.hash(s, p))
    ensures IsHash(h, h.hash(s, p))
  {
  }
}
