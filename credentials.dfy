/**
  The credential store of the bank: `bcrypt.hash` and `bcrypt.compare`, idealised.
  A digest remembers the secret it was made from, and a secret matches a digest
  exactly when it is that secret: hashing is collision-free and deterministic here.
*/
module Credentials {

  datatype Digest = Digest(source: string)

  /** `bcrypt.hash(secret, 10)`; salting is not modelled. */
  function Hash(secret: string): (d: Digest)
    ensures Matches(secret, d)
  {
    Digest(secret)
  }

  /** `bcrypt.compare(secret, digest)`. */
  predicate Matches(secret: string, d: Digest) {
    d.source == secret
  }

  /** Only the secret that was hashed opens the digest. */
  lemma OnlyOwnSecretMatches(secret: string, other: string)
    ensures Matches(other, Hash(secret)) <==> other == secret
  {
  }
}
