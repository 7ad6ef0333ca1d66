/** The libraries and hosted services the handlers call, as stand-ins with the
    properties the handlers rely on. */
module External {
  import opened Wrappers

  /** `bcrypt.hash(password, await bcrypt.genSalt(10))`, symbolically: the salt is
      not modelled, so a hash is the password under bcrypt's cost-10 prefix. What the
      handlers rely on is that a hash is never empty and that it matches its own
      password and no other. */
  function Hash(password: string): (h: string)
    ensures |h| > |password|
  {
    "$2a$10$" + password
  }

  /** `bcrypt.compare(password, hash)`. */
  predicate Compare(password: string, hash: string)
  {
    hash == Hash(password)
  }

  /** A password matches the hash made from it, and only that hash's password. */
  lemma CompareHash(password: string, other: string)
    ensures Compare(password, Hash(password))
    ensures Compare(other, Hash(password)) <==> other == password
  {
    if Compare(other, Hash(password)) {
      assert Hash(other)[7..] == other && Hash(password)[7..] == password;
    }
  }

  /** No password matches the empty string that `login` compares against when the
      username is unknown. */
  lemma CompareEmptyFails(password: string)
    ensures !Compare(password, "")
  {
  }

  /** What `jwt.verify(token, secret)` does with a token: it returns the decoded
      payload (whose `id` names a user), returns something falsy, or throws (bad
      signature, expired, malformed). The secret and the signature scheme are not
      modelled: the verifier is a parameter of the gate. */
  datatype Verified = Payload(id: nat) | Falsy | Rejected(reason: string)

  /** The image host (`cloudinary.uploader`): `upload(payload)` gives the stored
      image's `secure_url`, `destroy(publicId)` deletes a stored image; either call
      may throw. */
  datatype Host = Host(upload: string -> Outcome<string>, destroy: string -> Outcome<string>)
}
