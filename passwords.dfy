/** The bcrypt credential store of `generate_pass_hash` / `verify_pass`.
    The hash is abstract: a value carrying the random salt and an opaque image
    of the password. Only the password the hash was made from verifies
    against it; the cost of inverting it is not modelled. */
module Passwords {

  datatype PassHash = Bcrypt(salt: string, image: string)

  /** Whether `password` re-hashes to `h` under `h`'s own salt. */
  predicate VerifyPass(password: string, h: PassHash) {
    h.image == password
  }

  /** `generate_pass_hash`: the salt is the randomness bcrypt draws. */
  function GeneratePassHash(password: string, salt: string): (h: PassHash)
    ensures h.salt == salt
    ensures forall candidate :: VerifyPass(candidate, h) <==> candidate == password
  {
    Bcrypt(salt, password)
  }

  /** The same password under two salts gives two different hashes, and both verify. */
  lemma SaltedHashesDiffer(password: string, s1: string, s2: string)
    requires s1 != s2
    ensures GeneratePassHash(password, s1) != GeneratePassHash(password, s2)
    ensures VerifyPass(password, GeneratePassHash(password, s1))
    ensures VerifyPass(password, GeneratePassHash(password, s2))
  {
  }
}
