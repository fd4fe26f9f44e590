/** The foreign cryptographic calls, as arbitrary functions, and the XOR of CTR mode. */
module Crypto {
  import opened Prelude

  /** Whatever libsodium and OpenSSL compute: nothing is assumed of these functions. */
  datatype Primitives = Primitives(
    keystream: (bytes, bytes, nat) -> byte,                // AES-256-CTR: key, iv, position
    hmac: (bytes, bytes) -> Bytes32,                       // HMAC-SHA-256: key, input
    sha256: bytes -> Bytes32,
    publicKey: Bytes32 -> Bytes32,                         // Curve25519
    sharedSecret: (Bytes32, Bytes32) -> Result<Bytes32>,   // Curve25519: private key, peer's public key
    verify: (bytes, bytes, bytes) -> bool)                 // Ed25519: signature, message, public key

  /** Bitwise exclusive or of the n low bits. */
  function XorBits(n: nat, a: nat, b: nat): (r: nat)
    ensures r < Pow2(n)
  {
    if n == 0 then 0 else 2 * XorBits(n - 1, a / 2, b / 2) + if a % 2 == b % 2 then 0 else 1
  }

  function Pow2(n: nat): nat {
    if n == 0 then 1 else 2 * Pow2(n - 1)
  }

  lemma {:induction false} XorBitsInvolution(n: nat, a: nat, b: nat)
    requires a < Pow2(n)
    ensures XorBits(n, XorBits(n, a, b), b) == a
  {
    if n > 0 {
      var q, bit := XorBits(n - 1, a / 2, b / 2), if a % 2 == b % 2 then 0 else 1;
      assert (2 * q + bit) / 2 == q && (2 * q + bit) % 2 == bit;
      XorBitsInvolution(n - 1, a / 2, b / 2);
    }
  }

  function XorByte(a: byte, b: byte): byte {
    assert Pow2(8) == 256;
    XorBits(8, a, b)
  }

  // ---- Exclusive or, bit by bit ----

  /** The number without its k low bits. */
  function Halved(a: nat, k: nat): nat {
    if k == 0 then a else Halved(a / 2, k - 1)
  }

  lemma {:induction false} HalvedOnce(a: nat, k: nat)
    ensures Halved(a, k + 1) == Halved(a, k) / 2
  {
    if k > 0 {
      HalvedOnce(a / 2, k - 1);
    }
  }

  lemma HalvedIsQuotient(a: nat)
    ensures Halved(a, 0) == a / 1 && Halved(a, 1) == a / 2 && Halved(a, 2) == a / 4 && Halved(a, 3) == a / 8
    ensures Halved(a, 4) == a / 16 && Halved(a, 5) == a / 32 && Halved(a, 6) == a / 64 && Halved(a, 7) == a / 128
  {
    var b, c, d, e, f, g, h := a / 2, a / 4, a / 8, a / 16, a / 32, a / 64, a / 128;
    assert b / 2 == c && c / 2 == d && d / 2 == e && e / 2 == f && f / 2 == g && g / 2 == h;
    HalvedOnce(a, 0);
    HalvedOnce(a, 1);
    HalvedOnce(a, 2);
    HalvedOnce(a, 3);
    HalvedOnce(a, 4);
    HalvedOnce(a, 5);
    HalvedOnce(a, 6);
  }

  lemma {:induction false} XorHalved(n: nat, a: nat, b: nat, k: nat)
    requires k < n
    ensures Halved(XorBits(n, a, b), k) % 2 == (Halved(a, k) % 2 + Halved(b, k) % 2) % 2
  {
    var q, bit := XorBits(n - 1, a / 2, b / 2), if a % 2 == b % 2 then 0 else 1;
    assert (2 * q + bit) / 2 == q && (2 * q + bit) % 2 == bit;
    if k > 0 {
      XorHalved(n - 1, a / 2, b / 2, k - 1);
    }
  }

  /** A bit is set exactly if it is set in one of the two, for the eight bits by their weights. */
  lemma XorBitwise(a: byte, b: byte, k: nat)
    requires k < 8
    ensures var w := [1, 2, 4, 8, 16, 32, 64, 128];
            XorByte(a, b) / w[k] % 2 == (a / w[k] % 2 + b / w[k] % 2) % 2
  {
    assert Pow2(8) == 256;
    XorHalved(8, a, b, k);
    HalvedIsQuotient(a);
    HalvedIsQuotient(b);
    HalvedIsQuotient(XorByte(a, b));
  }

  /** An EVP context for AES-256-CTR: how far into its keystream it is. */
  datatype Cipher = Cipher(key: bytes, iv: bytes, offset: nat)

  /** EVP_EncryptUpdate, which in CTR mode is also EVP_DecryptUpdate. */
  function Update(p: Primitives, c: Cipher, s: bytes): (r: bytes)
    ensures |r| == |s|
  {
    seq(|s|, i requires 0 <= i < |s| => XorByte(s[i], p.keystream(c.key, c.iv, c.offset + i)))
  }

  /** Each bit of the result is that of the input, flipped exactly where the keystream at this place has a one. */
  lemma UpdateFlips(p: Primitives, c: Cipher, s: bytes)
    ensures var w := [1, 2, 4, 8, 16, 32, 64, 128];
            forall i, k :: 0 <= i < |s| && 0 <= k < 8 ==>
              Update(p, c, s)[i] / w[k] % 2 == (s[i] / w[k] % 2 + p.keystream(c.key, c.iv, c.offset + i) / w[k] % 2) % 2
  {
    var w := [1, 2, 4, 8, 16, 32, 64, 128];
    forall i, k | 0 <= i < |s| && 0 <= k < 8
      ensures Update(p, c, s)[i] / w[k] % 2
           == (s[i] / w[k] % 2 + p.keystream(c.key, c.iv, c.offset + i) / w[k] % 2) % 2
    {
      XorBitwise(s[i], p.keystream(c.key, c.iv, c.offset + i), k);
    }
  }

  function Skip(c: Cipher, n: nat): Cipher {
    c.(offset := c.offset + n)
  }

  lemma UpdateInvolution(p: Primitives, c: Cipher, s: bytes)
    ensures Update(p, c, Update(p, c, s)) == s
  {
    forall i | 0 <= i < |s|
      ensures Update(p, c, Update(p, c, s))[i] == s[i]
    {
      assert Pow2(8) == 256;
      XorBitsInvolution(8, s[i], p.keystream(c.key, c.iv, c.offset + i));
    }
  }

  /** Two calls are one call on the concatenation: the offset carries over. */
  lemma UpdateConcat(p: Primitives, c: Cipher, s: bytes, t: bytes)
    ensures Update(p, c, s + t) == Update(p, c, s) + Update(p, Skip(c, |s|), t)
  {
  }

  lemma UpdateInTwo(p: Primitives, c: Cipher, s: bytes, a: nat, n: nat)
    requires a <= n <= |s|
    ensures Update(p, c, s[..n]) == Update(p, c, s[..a]) + Update(p, Skip(c, a), s[a..n])
  {
    assert s[..n] == s[..a] + s[a..n];
    UpdateConcat(p, c, s[..a], s[a..n]);
  }

  /** Encrypting in one call and decrypting in two, split anywhere, gives the plaintext back. */
  lemma UpdateUndoneInTwoSteps(p: Primitives, c: Cipher, s: bytes, n: nat)
    requires n <= |s|
    ensures Update(p, c, Update(p, c, s)[..n]) + Update(p, Skip(c, n), Update(p, c, s)[n..]) == s
  {
    var e := Update(p, c, s);
    assert e[..n] + e[n..] == e;
    UpdateConcat(p, c, e[..n], e[n..]);
    UpdateInvolution(p, c, s);
  }
}
