/** How the store writes values (sealed) and integers (8 bytes, big-endian). */
module Sealing {
  import opened Prelude
  import opened Frames
  import opened Positional

  const U64_LIMIT: nat := 0x1_0000_0000_0000_0000
  const INT64_MIN: int := -0x8000_0000_0000_0000
  const INT64_MAX: int := 0x7fff_ffff_ffff_ffff

  type int64 = n: int | INT64_MIN <= n <= INT64_MAX

  // ---- sealed values ---------------------------------------------------------------------

  const ENVELOPE_VERSION: byte := 1

  /** version || nonce || ciphertext and tag. */
  function SealValue(a: Aead, n: Nonce, pt: Bytes): Bytes {
    [ENVELOPE_VERSION] + n + a.seal(n, pt)
  }

  function OpenValue(a: Aead, s: Bytes): Option<Bytes> {
    if |s| < 1 + NONCE_SIZE + TAG_SIZE || s[0] != ENVELOPE_VERSION then None
    else a.open(s[1..1 + NONCE_SIZE], s[1 + NONCE_SIZE..])
  }

  /** What bbolt's Put accepts. */
  const MAX_KEY_SIZE: nat := 32768
  const MAX_VALUE_SIZE: nat := 0x7fff_fffe

  /** Still within the limit once it is sealed. */
  predicate Storable(pt: Bytes) { 1 + NONCE_SIZE + |pt| + TAG_SIZE <= MAX_VALUE_SIZE }

  lemma OpenSealed(a: Aead, n: Nonce, pt: Bytes)
    requires a.Valid()
    ensures OpenValue(a, SealValue(a, n, pt)) == Some(pt)
    ensures |SealValue(a, n, pt)| <= MAX_VALUE_SIZE <==> Storable(pt)
  {
    var s := SealValue(a, n, pt);
    assert |a.seal(n, pt)| == |pt| + TAG_SIZE && a.open(n, a.seal(n, pt)) == Some(pt);
    assert s[1..1 + NONCE_SIZE] == n && s[1 + NONCE_SIZE..] == a.seal(n, pt);
  }

  /** The record: a one, twelve bytes of nonce, and the sealed value. */
  lemma SealedLayout(a: Aead, n: Nonce, pt: Bytes)
    ensures var s := SealValue(a, n, pt); |s| >= 13 && s[0] == 1 && s[1..13] == n && s[13..] == a.seal(n, pt)
  {
  }

  /** What is refused before the cipher is asked, and what is left to it. */
  lemma OpenExactly(a: Aead, s: Bytes)
    ensures |s| < 29 ==> OpenValue(a, s).None?
    ensures |s| >= 29 && s[0] != 1 ==> OpenValue(a, s).None?
    ensures |s| >= 29 && s[0] == 1 ==> OpenValue(a, s) == a.open(s[1..13], s[13..])
  {
  }

  // ---- integers ---------------------------------------------------------------------------

  /** uint64(ts): two's complement. */
  function U64(ts: int64): (u: nat)
    ensures u < U64_LIMIT
  {
    if ts < 0 then ts + U64_LIMIT else ts
  }

  function BigEndian64(n: nat): (b: Bytes)
    ensures |b| == 8
  {
    Digits(256, 8, n)
  }

  lemma Pow8()
    ensures Pow(256, 8) == U64_LIMIT
  {
    assert Pow(256, 2) == 0x1_0000 by { assert Pow(256, 1) == 256; }
    assert Pow(256, 4) == 0x1_0000_0000 by { assert Pow(256, 3) == 0x100_0000; }
    assert Pow(256, 6) == 0x1_0000_0000_0000 by { assert Pow(256, 5) == 0x100_0000_0000; }
    assert Pow(256, 7) == 0x100_0000_0000_0000;
  }

  /** `bytesToU64` inverts `u64Bytes`. */
  lemma BigEndian64RoundTrip(n: nat)
    requires n < U64_LIMIT
    ensures Value(256, BigEndian64(n)) == n
  {
    Pow8();
    ValueOfDigits(256, 8, n);
  }

  lemma BigEndian64Order(m: nat, n: nat)
    requires m < U64_LIMIT && n < U64_LIMIT
    ensures Less(BigEndian64(m), BigEndian64(n)) <==> m < n
    ensures BigEndian64(m) == BigEndian64(n) <==> m == n
  {
    BigEndian64RoundTrip(m);
    BigEndian64RoundTrip(n);
    LessIsNumeric(256, BigEndian64(m), BigEndian64(n));
  }

  lemma BigEndian64Bound(b: Bytes)
    requires |b| == 8
    ensures Value(256, b) < U64_LIMIT
  {
    Pow8();
    ValueBound(256, b);
  }

  /** `bytesToU64`: anything that is not 8 bytes long reads as 0. */
  function BytesToU64(b: Bytes): nat {
    if |b| != 8 then 0 else Value(256, b)
  }
}
