/**
 * Password hashing as the backend uses it (`get_password_hash`,
 * `verify_password`). The real hash is bcrypt; this stand-in keeps the two
 * properties the routes rely on: the hash is never the plaintext, and a
 * password verifies against a hash exactly when the hash was made from it.
 */
module Security {

  const HashPrefix := "$hash$"

  /** `get_password_hash(password)`. */
  function PasswordHash(password: string): (hashed: string)
    ensures hashed != password
  {
    HashPrefix + password
  }

  /** `verify_password(plain, hashed)`. */
  predicate VerifyPassword(plain: string, hashed: string)
  {
    hashed == PasswordHash(plain)
  }

  /** A password verifies against the hash of another exactly when the two are equal. */
  lemma VerifyHashed(plain: string, original: string)
    ensures VerifyPassword(plain, PasswordHash(original)) <==> plain == original
  {
    if VerifyPassword(plain, PasswordHash(original)) {
      assert plain == PasswordHash(plain)[|HashPrefix|..];
      assert original == PasswordHash(original)[|HashPrefix|..];
    }
  }
}
