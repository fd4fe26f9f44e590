/** append_positive_mpint of src/kex/kex.cpp against the mpint of section 5 of RFC 4251. */
module Mpint {
  import opened Prelude
  import opened Encoding

  function TrimZeros(v: bytes): (r: bytes)
    ensures |r| <= |v|
  {
    if v != [] && v[0] == 0 then TrimZeros(v[1..]) else v
  }

  /** The bytes of the mpint of a non-negative number: no leading zeros, but a sign byte where it is needed. */
  function Magnitude(v: bytes): (r: bytes)
    ensures |r| <= |v| + 1
  {
    var t := TrimZeros(v);
    if t != [] && t[0] >= 128 then [0] + t else t
  }

  /** Two's complement, most significant byte first: what RFC 4251 says an mpint means. */
  function Signed(s: bytes): int {
    if s != [] && s[0] >= 128 then BigEndian(s) - Pow256(|s|) else BigEndian(s)
  }

  lemma {:induction false} TrimZerosKeepsValue(v: bytes)
    ensures BigEndian(TrimZeros(v)) == BigEndian(v)
    ensures TrimZeros(v) != [] ==> TrimZeros(v)[0] != 0
    ensures TrimZeros(v) == v[|v| - |TrimZeros(v)|..]
  {
    if v != [] && v[0] == 0 {
      BigEndianFront(v);
      TrimZerosKeepsValue(v[1..]);
    }
  }

  /** The encoding denotes exactly the number. */
  lemma MagnitudeDenotes(v: bytes)
    ensures Signed(Magnitude(v)) == BigEndian(v)
  {
    TrimZerosKeepsValue(v);
    var t := TrimZeros(v);
    if t != [] && t[0] >= 128 {
      SignByteKeepsValue(t);
    }
  }

  lemma SignByteKeepsValue(t: bytes)
    ensures BigEndian([0] + t) == BigEndian(t)
  {
    var s: bytes := [0] + t;
    BigEndianFront(s);
    assert s[1..] == t;
  }

  lemma ScaledBounds(a: nat, w: nat, b: nat)
    requires b < w
    ensures a < 128 ==> a * w + b < 128 * w
    ensures a >= 128 ==> a * w + b >= 128 * w
    ensures a != 0 ==> a * w + b >= w
  {
    if a < 128 {
      assert a * w <= 127 * w;
    } else {
      assert a * w >= 128 * w;
    }
    if a != 0 {
      assert a * w >= 1 * w;
    }
  }

  /** A byte string below 128 * 256^(n-1) and one whose leading byte shows it is at least that. */
  lemma LeadingByte(s: bytes)
    requires s != []
    ensures s[0] < 128 ==> BigEndian(s) < 128 * Pow256(|s| - 1)
    ensures s[0] >= 128 ==> BigEndian(s) >= 128 * Pow256(|s| - 1) && Signed(s) < 0
    ensures s[0] != 0 ==> BigEndian(s) >= Pow256(|s| - 1)
  {
    BigEndianFront(s);
    BigEndianBound(s[1..]);
    BigEndianBound(s);
    ScaledBounds(s[0], Pow256(|s| - 1), BigEndian(s[1..]));
  }

  lemma {:induction false} Pow256Monotone(m: nat, n: nat)
    requires m <= n
    ensures Pow256(m) <= Pow256(n)
  {
    if m < n {
      Pow256Monotone(m, n - 1);
    }
  }

  /** Every byte string with the same meaning is at least as long, and no other has the same length. */
  lemma MagnitudeIsMinimal(v: bytes, s: bytes)
    requires Signed(s) == BigEndian(v)
    ensures |Magnitude(v)| <= |s|
    ensures |Magnitude(v)| == |s| ==> Magnitude(v) == s
  {
    TrimZerosKeepsValue(v);
    MagnitudeDenotes(v);
    var t, m := TrimZeros(v), Magnitude(v);
    if s != [] {
      LeadingByte(s);
      assert s[0] < 128;
    }
    if t != [] {
      LeadingByte(t);
      if |s| < |m| {
        // s denotes less than 128 * 256^(|s|-1), and t denotes at least that
        if t[0] >= 128 {
          assert |s| <= |t|;
          if s != [] {
            Pow256Monotone(|s| - 1, |t| - 1);
          }
        } else if s != [] {
          Pow256Monotone(|s|, |t| - 1);
        }
        assert false;
      }
    }
    if |m| == |s| {
      if m != [] {
        assert m[0] < 128;
      }
      BigEndianInjective(m, s);
    }
  }

  /** Zero is the empty string, and different numbers of the same width have different encodings. */
  lemma MagnitudeInjective(v: bytes, w: bytes)
    requires |v| == |w|
    ensures Magnitude(v) == Magnitude(w) ==> v == w
    ensures Magnitude(v) == [] <==> BigEndian(v) == 0
  {
    MagnitudeDenotes(v);
    MagnitudeDenotes(w);
    if Magnitude(v) == Magnitude(w) {
      BigEndianInjective(v, w);
    }
    if BigEndian(v) == 0 {
      MagnitudeIsMinimal(v, []);
    }
  }

  method AppendPositiveMpint(destination: bytes, value: Bytes32) returns (grown: bytes)
    ensures grown == destination + Str(Magnitude(value))
  {
    var count := 0;
    while count < |value|
      invariant 0 <= count <= |value| && TrimZeros(value) == TrimZeros(value[count..])
    {
      if value[count] == 0 {
        assert value[count..][1..] == value[count + 1..];
        count := count + 1;
      } else {
        break;
      }
    }
    var magnitude := value[count..];
    if magnitude != [] && magnitude[0] >= 0x80 {
      magnitude := [0] + magnitude;
    }
    grown := AppendShortString(destination, magnitude);
  }
}
