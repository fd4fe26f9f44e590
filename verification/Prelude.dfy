/** Types shared by every module: bytes, 32-bit words, and the result of an operation that may throw. */
module Prelude {

  type byte = x: int | 0 <= x < 256

  type bytes = seq<byte>

  const TWO_32 := 0x1_0000_0000

  /** A C++ uint32_t. */
  type u32 = x: int | 0 <= x < 0x1_0000_0000

  /** A byte string short enough to be length-prefixed by a uint32. */
  type SshString = s: bytes | |s| < 0x1_0000_0000

  /** A std::array<uint8_t, 32>: a digest, a MAC, a key or a Curve25519 value. */
  type Bytes32 = s: bytes | |s| == 32 witness seq(32, _ => 0)

  /** Failure stands for a thrown std::runtime_error, whatever its text. */
  datatype Result<+T> = Success(value: T) | Failure {
    predicate IsFailure() {
      Failure?
    }

    function PropagateFailure<U>(): Result<U>
      requires Failure?
    {
      Failure
    }

    function Extract(): T
      requires Success?
    {
      value
    }
  }

  datatype Option<+T> = None | Some(value: T)

  function Min(a: nat, b: nat): nat {
    if a <= b then a else b
  }

  /** The bytes of a C++ character string. */
  function Ascii(s: string): (r: bytes)
    ensures |r| == |s| && forall i :: 0 <= i < |s| && s[i] < 128 as char ==> r[i] == s[i] as int
  {
    seq(|s|, i requires 0 <= i < |s| => s[i] as int % 256)
  }

  // ---- Sequences cut and joined ----

  lemma AppendInjective(a: bytes, b: bytes, a': bytes, b': bytes)
    requires a + b == a' + b' && |a| == |a'|
    ensures a == a' && b == b'
  {
    assert a == (a + b)[..|a|] && a' == (a' + b')[..|a|];
    assert b == (a + b)[|a|..] && b' == (a' + b')[|a|..];
  }

  lemma SliceSplit(p: bytes, pos: nat, end: nat, a: bytes, b: bytes) returns (mid: nat)
    requires pos <= end <= |p| && p[pos..end] == a + b
    ensures pos <= mid == pos + |a| <= end == mid + |b|
    ensures p[pos..mid] == a && p[mid..end] == b
  {
    mid := pos + |a|;
    assert |p[pos..end]| == |a| + |b|;
    assert p[pos..mid] == (a + b)[..|a|] == a;
    assert p[mid..end] == (a + b)[|a|..] == b;
  }

  lemma SliceJoin(p: bytes, pos: nat, mid: nat, end: nat)
    requires pos <= mid <= end <= |p|
    ensures p[pos..end] == p[pos..mid] + p[mid..end]
  {
  }

  lemma Regroup(a: bytes, b: bytes, c: bytes, d: bytes)
    ensures ((a + b) + c) + d == a + (b + (c + d))
  {
    assert (a + b) + (c + d) == a + (b + (c + d));
    assert ((a + b) + c) + d == (a + b) + (c + d);
  }

  lemma HeadTail(p: bytes)
    requires p != []
    ensures p == [p[0]] + p[1..|p|]
  {
  }

  lemma WholeSlice(p: bytes)
    ensures p[0..|p|] == p
  {
  }
}
