/**
 * The password hasher behind Laravel's `Hash` facade, seen from outside:
 * `make` turns a raw password into the value stored in the users table and
 * `check` compares a raw password against a stored value. Nothing about
 * bcrypt, salts or timing is modelled.
 */
module Hashing {

  datatype Hasher = Hasher(make: string -> string, check: (string, string) -> bool)

  /** The one property relied upon: every password checks against its own hash. */
  ghost predicate Sound(h: Hasher)
  {
    forall p: string :: h.check(p, h.make(p))
  }
}
