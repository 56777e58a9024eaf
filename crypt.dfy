/**
 * The password-hashing pair (bcrypt in the backend) seen only through
 * `hash` and `verify`. The stand-in used here is deterministic and injective:
 * `verify(p, hash(q))` holds exactly when `p == q`. bcrypt itself reads only
 * a password's first 72 bytes, so this agrees with it for passwords of at
 * most 72 bytes.
 */
module Crypt {

  const Scheme: string := "$2b$"

  function Hash(password: string): (h: string)
    ensures |h| > |Scheme|
  {
    Scheme + password + "$"
  }

  predicate Verify(password: string, hashed: string) {
    hashed == Hash(password)
  }

  /** `verify(p, hash(p))` holds, and a hash verifies no other password. */
  lemma VerifyHash(p: string, q: string)
    ensures Verify(p, Hash(p))
    ensures Verify(p, Hash(q)) <==> p == q
  {
    if Verify(p, Hash(q)) {
      assert Hash(q)[|Scheme|..|Scheme| + |q|] == q;
      assert Hash(p)[|Scheme|..|Scheme| + |p|] == p;
    }
  }
}
