/** Password storage of the User record (set_password / verify_password).
    A password is handled as the sequence of its UTF-8 bytes. The salted one-way
    hash is abstracted as a symbolic value that remembers exactly which bytes
    were hashed: two hashes are equal only when they were made from the same
    bytes, which is all the store and the verifier can observe. */
module Passwords {

  /** Longest prefix, in bytes, that set_password hands to the hashing scheme. */
  const MAX_BCRYPT_BYTES: nat := 72

  /** An opaque salted digest of `input`. */
  datatype PasswordHash = Hashed(input: seq<bv8>)

  /** The bytes set_password keeps: the first MAX_BCRYPT_BYTES of the password. */
  function Truncated(plain: seq<bv8>): (t: seq<bv8>)
    ensures |t| == if |plain| <= MAX_BCRYPT_BYTES then |plain| else MAX_BCRYPT_BYTES
    ensures t <= plain
  {
    if |plain| <= MAX_BCRYPT_BYTES then plain else plain[..MAX_BCRYPT_BYTES]
  }

  /** set_password: hashes the truncated bytes. */
  function SetPassword(plain: seq<bv8>): (h: PasswordHash)
    ensures |h.input| <= MAX_BCRYPT_BYTES
    ensures |plain| <= MAX_BCRYPT_BYTES ==> h.input == plain
  {
    Hashed(Truncated(plain))
  }

  /** verify_password as written: checks the whole password, untruncated,
      against the stored digest. */
  function VerifyPassword(plain: seq<bv8>, stored: PasswordHash): (ok: bool)
    ensures ok <==> stored.input == plain
  {
    stored == Hashed(plain)
  }

  /** The as-written pair does not round-trip: a password longer than
      MAX_BCRYPT_BYTES never verifies against the hash set_password made of it. */
  lemma LongPasswordNeverVerifies(plain: seq<bv8>)
    requires |plain| > MAX_BCRYPT_BYTES
    ensures !VerifyPassword(plain, SetPassword(plain))
  {
    assert |SetPassword(plain).input| == MAX_BCRYPT_BYTES;
  }

  /** A concrete witness: 73 zero bytes. */
  lemma SeventyThreeBytesNeverVerify()
    ensures !VerifyPassword(seq(73, _ => 0 as bv8), SetPassword(seq(73, _ => 0 as bv8)))
  {
    LongPasswordNeverVerifies(seq(73, _ => 0 as bv8));
  }

  /** The evidently intended check: truncate the candidate the same way
      set_password does before comparing. */
  function VerifyTruncatedPassword(plain: seq<bv8>, stored: PasswordHash): (ok: bool)
    ensures ok <==> stored.input == Truncated(plain)
  {
    stored == Hashed(Truncated(plain))
  }

  /** With the corrected check every password verifies against its own hash,
      and a password whose kept bytes differ does not. */
  lemma SetThenVerifyTruncated(plain: seq<bv8>, other: seq<bv8>)
    ensures VerifyTruncatedPassword(plain, SetPassword(plain))
    ensures VerifyTruncatedPassword(other, SetPassword(plain)) <==> Truncated(other) == Truncated(plain)
  {
  }
}
