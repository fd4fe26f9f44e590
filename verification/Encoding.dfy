/** src/common/ssh_encoding.cpp: the uint32 and string encodings of section 5 of RFC 4251. */
module Encoding {
  import opened Prelude

  // ---- Numbers ----

  function Pow256(n: nat): (r: nat)
    ensures r >= 1
  {
    if n == 0 then 1 else 256 * Pow256(n - 1)
  }

  /** The number a byte string denotes, most significant byte first. */
  function BigEndian(s: bytes): nat {
    if s == [] then 0 else BigEndian(s[..|s| - 1]) * 256 + s[|s| - 1]
  }

  lemma {:induction false} BigEndianBound(s: bytes)
    ensures BigEndian(s) < Pow256(|s|)
  {
    if s != [] {
      BigEndianBound(s[..|s| - 1]);
    }
  }

  lemma {:induction false} BigEndianFront(s: bytes)
    requires s != []
    ensures BigEndian(s) == s[0] * Pow256(|s| - 1) + BigEndian(s[1..])
  {
    if |s| > 1 {
      BigEndianFront(s[..|s| - 1]);
      assert s[..|s| - 1][1..] == s[1..][..|s| - 2];
      Scaled(s[0], Pow256(|s| - 2));
    }
  }

  lemma Scaled(a: nat, n: nat)
    ensures (a * n) * 256 == a * (256 * n)
  {
  }

  /** Equally long byte strings that denote the same number are the same. */
  lemma {:induction false} BigEndianInjective(s: bytes, t: bytes)
    requires |s| == |t| && BigEndian(s) == BigEndian(t)
    ensures s == t
  {
    if s != [] {
      BigEndianInjective(s[..|s| - 1], t[..|t| - 1]);
      assert s == s[..|s| - 1] + [s[|s| - 1]] && t == t[..|t| - 1] + [t[|t| - 1]];
    }
  }

  lemma BigEndian4(s: bytes)
    requires |s| == 4
    ensures BigEndian(s) == s[0] * 0x100_0000 + s[1] * 0x1_0000 + s[2] * 0x100 + s[3] < TWO_32
  {
    assert s[..3][..2] == s[..2] && s[..2][..1] == s[..1] && s[..1][..0] == [];
    var a: int, b: int, c: int := s[0], s[1], s[2];
    assert BigEndian(s[..1]) == a;
    assert BigEndian(s[..2]) == a * 0x100 + b;
    assert BigEndian(s[..3]) == a * 0x1_0000 + b * 0x100 + c;
    assert s[..4] == s;
  }

  /** The low n bytes of a number. */
  function BigEndianBytes(n: nat, v: nat): (r: bytes)
    ensures |r| == n
    ensures v < Pow256(n) ==> BigEndian(r) == v
  {
    if n == 0 then [] else
    var front := BigEndianBytes(n - 1, v / 256);
    assert (front + [v % 256])[..n - 1] == front;
    front + [v % 256]
  }

  function U32(v: u32): (r: bytes)
    ensures |r| == 4 && BigEndian(r) == v
  {
    assert Pow256(4) == TWO_32;
    BigEndianBytes(4, v)
  }

  lemma U32OfBigEndian(s: bytes)
    requires |s| == 4
    ensures BigEndian(s) < TWO_32 && U32(BigEndian(s)) == s
  {
    BigEndian4(s);
    BigEndianInjective(U32(BigEndian(s)), s);
  }

  /** The uint32 at a position of a payload. */
  function U32At(p: bytes, at: nat): u32
    requires at + 4 <= |p|
  {
    BigEndian4(p[at..at + 4]);
    BigEndian(p[at..at + 4])
  }

  lemma ShiftsCompose(v: u32)
    ensures v / 0x1_0000 == v / 0x100 / 256 && v / 0x100_0000 == v / 0x1_0000 / 256 < 256
  {
  }

  lemma FourBytes(v: u32, r: bytes)
    requires |r| == 4
    requires r[0] == v / 0x100_0000 % 256 && r[1] == v / 0x1_0000 % 256 && r[2] == v / 0x100 % 256 && r[3] == v % 256
    ensures r == U32(v)
  {
    ShiftsCompose(v);
    BigEndian4(r);
    var a, b, c := v / 0x100, v / 0x1_0000, v / 0x100_0000;
    assert v == a * 256 + r[3] && a == b * 256 + r[2] && b == c * 256 + r[1];
    BigEndianInjective(r, U32(v));
  }

  method EncodeUint32(value: u32) returns (r: bytes)
    ensures r == U32(value)
    ensures |r| == 4 && var a: int, b: int, c: int := r[0], r[1], r[2];
      value == a * 0x100_0000 + b * 0x1_0000 + c * 0x100 + r[3]
  {
    var encoded := new byte[4];
    for i := 0 to 4
      invariant forall k :: 0 <= k < i ==> encoded[k] == value / Pow256(3 - k) % 256
    {
      // uint8_t(value >> ((3 - i) * 8))
      encoded[i] := value / Pow256(3 - i) % 256;
    }
    assert Pow256(0) == 1 && Pow256(1) == 0x100 && Pow256(2) == 0x1_0000 && Pow256(3) == 0x100_0000;
    r := encoded[..];
    FourBytes(value, r);
    BigEndian4(r);
  }

  method DecodeUint32(encoded: bytes) returns (value: u32)
    requires |encoded| == 4
    ensures value == BigEndian(encoded)
    ensures var a: int, b: int, c: int := encoded[0], encoded[1], encoded[2];
      value == a * 0x100_0000 + b * 0x1_0000 + c * 0x100 + encoded[3]
  {
    value := 0;
    for i := 0 to 4
      invariant i == 0 ==> value == 0
      invariant value == BigEndian(encoded[..i]) < Pow256(i)
    {
      assert encoded[..i + 1][..i] == encoded[..i];
      assert Pow256(0) == 1 && Pow256(1) == 0x100 && Pow256(2) == 0x1_0000 && Pow256(3) == 0x100_0000;
      // (value << 8) | byte: the shift leaves the low byte clear, so the OR is a sum
      value := value * 256 % TWO_32 + encoded[i];
    }
    assert encoded[..4] == encoded;
    BigEndian4(encoded);
  }

  // ---- Strings ----

  function Str(v: SshString): bytes {
    U32(|v|) + v
  }

  function Strings(xs: seq<SshString>): bytes {
    if xs == [] then [] else Strings(xs[..|xs| - 1]) + Str(xs[|xs| - 1])
  }

  /** The string at a position and the position after it. */
  function StringAt(p: bytes, pos: nat): (r: Result<(SshString, nat)>)
    ensures r.Success? ==> r.value.1 == pos + 4 + |r.value.0| <= |p|
  {
    if pos + 4 <= |p| && pos + 4 + U32At(p, pos) <= |p| then
      var end := pos + 4 + U32At(p, pos);
      Success((p[pos + 4..end], end))
    else
      Failure
  }

  /** What is read at a position is what was printed there. */
  lemma StringAtSound(p: bytes, pos: nat)
    requires StringAt(p, pos).Success?
    ensures p[pos..StringAt(p, pos).value.1] == Str(StringAt(p, pos).value.0)
  {
    U32OfBigEndian(p[pos..pos + 4]);
    SliceJoin(p, pos, pos + 4, StringAt(p, pos).value.1);
  }

  lemma StringAtStr(p: bytes, pos: nat, end: nat, v: SshString)
    requires pos <= end <= |p| && p[pos..end] == Str(v)
    ensures StringAt(p, pos) == Success((v, end))
  {
    var mid := SliceSplit(p, pos, end, U32(|v|), v);
  }

  /** Reads n strings one after another. */
  function ReadStrings(p: bytes, pos: nat, n: nat): Result<(seq<SshString>, nat)> {
    if n == 0 then Success(([], pos))
    else
      var (xs, q) :- ReadStrings(p, pos, n - 1);
      var (x, next) :- StringAt(p, q);
      Success((xs + [x], next))
  }

  /** What is printed is read back. */
  lemma {:induction false} ReadStringsComplete(p: bytes, pos: nat, end: nat, xs: seq<SshString>)
    requires pos <= end <= |p| && p[pos..end] == Strings(xs)
    ensures ReadStrings(p, pos, |xs|) == Success((xs, end))
  {
    if xs == [] {
      assert |p[pos..end]| == 0;
    } else {
      var init, last := xs[..|xs| - 1], xs[|xs| - 1];
      var mid := SliceSplit(p, pos, end, Strings(init), Str(last));
      ReadStringsComplete(p, pos, mid, init);
      StringAtStr(p, mid, end, last);
      ReadOneMore(p, pos, |init|, init, mid, last, end);
      assert xs == init + [last];
    }
  }

  lemma ReadOneMore(p: bytes, pos: nat, n: nat, init: seq<SshString>, at: nat, last: SshString, next: nat)
    requires ReadStrings(p, pos, n) == Success((init, at)) && StringAt(p, at) == Success((last, next))
    ensures ReadStrings(p, pos, n + 1) == Success((init + [last], next))
  {
  }

  /** What is read is what was printed. */
  lemma {:induction false} ReadStringsSound(p: bytes, pos: nat, n: nat)
    requires pos <= |p|
    ensures var r := ReadStrings(p, pos, n);
            r.Success? ==> |r.value.0| == n && pos <= r.value.1 <= |p| && p[pos..r.value.1] == Strings(r.value.0)
  {
    var r := ReadStrings(p, pos, n);
    if n != 0 && r.Success? {
      ReadStringsSound(p, pos, n - 1);
      var (xs, q) := ReadStrings(p, pos, n - 1).value;
      var (x, next) := StringAt(p, q).value;
      StringAtSound(p, q);
      StringsSnoc(xs, x);
      SliceJoin(p, pos, q, next);
    }
  }

  lemma StringsSnoc(xs: seq<SshString>, x: SshString)
    ensures Strings(xs + [x]) == Strings(xs) + Str(x)
  {
    assert (xs + [x])[..|xs|] == xs;
  }

  lemma {:induction false} ReadStringsFails(p: bytes, pos: nat, k: nat, n: nat)
    requires k <= n && ReadStrings(p, pos, k).Failure?
    ensures ReadStrings(p, pos, n).Failure?
  {
    if k < n {
      ReadStringsFails(p, pos, k, n - 1);
    }
  }

  /** No list of strings is a prefix of another equally long one: the encoding is uniquely decodable. */
  lemma StringsUniquelyDecodable(xs: seq<SshString>, r: bytes, ys: seq<SshString>, r': bytes)
    requires |xs| == |ys| && Strings(xs) + r == Strings(ys) + r'
    ensures xs == ys && r == r'
  {
    var p := Strings(xs) + r;
    assert p[0..|Strings(xs)|] == Strings(xs) && p[0..|Strings(ys)|] == Strings(ys);
    ReadStringsComplete(p, 0, |Strings(xs)|, xs);
    ReadStringsComplete(p, 0, |Strings(ys)|, ys);
    assert r == p[|Strings(xs)|..] && r' == p[|Strings(ys)|..];
  }

  // ---- The source's routines; `next` is the position they advance by reference ----

  method AppendString(destination: bytes, value: bytes) returns (r: Result<bytes>)
    ensures r.Success? <==> |value| < TWO_32
    ensures r.Success? ==> r.value == destination + Str(value)
    ensures r.Success? ==> var n := |destination|;
      && |r.value| == n + 4 + |value| && r.value[..n] == destination && r.value[n + 4..] == value
      && var a: int, b: int, c: int := r.value[n], r.value[n + 1], r.value[n + 2];
      |value| == a * 0x100_0000 + b * 0x1_0000 + c * 0x100 + r.value[n + 3]
  {
    if |value| > 0xFFFF_FFFF {
      return Failure;
    }
    var length := EncodeUint32(|value|);
    var grown := destination + length;
    grown := grown + value;
    return Success(grown);
  }

  /** append_string where the caller's value is known to fit: it cannot throw. */
  method AppendShortString(destination: bytes, value: SshString) returns (grown: bytes)
    ensures grown == destination + Str(value)
  {
    var r := AppendString(destination, value);
    return r.value;
  }

  method ReadUint32(payload: bytes, position: nat) returns (r: Result<u32>, next: nat)
    ensures r.Success? <==> position + 4 <= |payload|
    ensures r.Success? ==> r.value == U32At(payload, position) && next == position + 4
    ensures r.Success? ==>
      var a: int, b: int, c: int := payload[position], payload[position + 1], payload[position + 2];
      r.value == a * 0x100_0000 + b * 0x1_0000 + c * 0x100 + payload[position + 3]
  {
    next := position;
    if position > |payload| {
      return Failure, next;
    }
    if |payload| - position < 4 {
      return Failure, next;
    }
    var encoded := payload[position..position + 4];
    next := position + 4;
    var value := DecodeUint32(encoded);
    r := Success(value);
  }

  method ReadString(payload: bytes, position: nat) returns (r: Result<SshString>, next: nat)
    ensures r.Success? <==> StringAt(payload, position).Success?
    ensures r.Success? ==> StringAt(payload, position) == Success((r.value, next))
    ensures position + 4 > |payload| ==> r.Failure?
    ensures position + 4 <= |payload| ==>
      var a: int, b: int, c: int := payload[position], payload[position + 1], payload[position + 2];
      var end := position + 4 + a * 0x100_0000 + b * 0x1_0000 + c * 0x100 + payload[position + 3];
      if end <= |payload| then r == Success(payload[position + 4..end]) && next == end else r.Failure?
  {
    next := position;
    if position > |payload| || |payload| - position < 4 {
      return Failure, next;
    }
    var length := DecodeUint32(payload[position..position + 4]);
    next := position + 4;
    if next > |payload| || |payload| - next < length {
      return Failure, next;
    }
    r := Success(payload[next..next + length]);
    next := next + length;
  }

  /** n calls of read_string one after another, or of read_name_list, which makes the same checks. */
  method ReadStringSequence(payload: bytes, start: nat, n: nat) returns (r: Result<seq<SshString>>, position: nat)
    ensures r.Success? <==> ReadStrings(payload, start, n).Success?
    ensures r.Success? ==> ReadStrings(payload, start, n) == Success((r.value, position))
  {
    var strings: seq<SshString> := [];
    position := start;
    for i := 0 to n
      invariant ReadStrings(payload, start, i) == Success((strings, position))
    {
      if StringAt(payload, position).Failure? {
        ReadStringsFails(payload, start, i + 1, n);
      }
      var s;
      s, position :- ReadString(payload, position);
      strings := strings + [s];
    }
    r := Success(strings);
  }

  lemma StringsPrefix(xs: seq<SshString>, i: nat)
    requires i < |xs|
    ensures Strings(xs[..i + 1]) == Strings(xs[..i]) + Str(xs[i])
  {
    assert xs[..i + 1][..i] == xs[..i];
  }

  // ---- Short lists written out ----

  lemma TwoStrings(a: SshString, b: SshString)
    ensures Strings([a, b]) == Str(a) + Str(b)
  {
    var xs := [a, b];
    StringsPrefix(xs, 0);
    StringsPrefix(xs, 1);
    assert xs[..2] == xs && Strings(xs[..0]) == [] && Strings(xs[..1]) == [] + Str(a) == Str(a);
  }

  lemma ThreeStrings(a: SshString, b: SshString, c: SshString)
    ensures Strings([a, b, c]) == Str(a) + Str(b) + Str(c)
  {
    var xs := [a, b, c];
    TwoStrings(a, b);
    StringsPrefix(xs, 2);
    assert xs[..3] == xs && xs[..2] == [a, b];
  }

  /** Five more strings behind some. */
  lemma FiveMoreStrings(xs: seq<SshString>, a: SshString, b: SshString, c: SshString, d: SshString, e: SshString)
    ensures Strings(xs + [a, b, c, d, e]) == Strings(xs) + Str(a) + Str(b) + Str(c) + Str(d) + Str(e)
  {
    StringsSnoc(xs, a);
    StringsSnoc(xs + [a], b);
    StringsSnoc(xs + [a] + [b], c);
    StringsSnoc(xs + [a] + [b] + [c], d);
    StringsSnoc(xs + [a] + [b] + [c] + [d], e);
    assert xs + [a, b, c, d, e] == xs + [a] + [b] + [c] + [d] + [e];
  }

  lemma EightStrings(a: SshString, b: SshString, c: SshString, d: SshString, e: SshString, f: SshString, g: SshString,
                     h: SshString)
    ensures Strings([a, b, c, d, e, f, g, h])
         == Str(a) + Str(b) + Str(c) + Str(d) + Str(e) + Str(f) + Str(g) + Str(h)
  {
    ThreeStrings(a, b, c);
    FiveMoreStrings([a, b, c], d, e, f, g, h);
    assert [a, b, c] + [d, e, f, g, h] == [a, b, c, d, e, f, g, h];
  }

  lemma TenStrings(a: SshString, b: SshString, c: SshString, d: SshString, e: SshString, f: SshString, g: SshString,
                   h: SshString, i: SshString, j: SshString)
    ensures Strings([a, b, c, d, e, f, g, h, i, j])
         == Str(a) + Str(b) + Str(c) + Str(d) + Str(e) + Str(f) + Str(g) + Str(h) + Str(i) + Str(j)
  {
    var eight := [a, b, c, d, e, f, g, h];
    EightStrings(a, b, c, d, e, f, g, h);
    StringsSnoc(eight, i);
    StringsSnoc(eight + [i], j);
    assert eight + [i] + [j] == [a, b, c, d, e, f, g, h, i, j];
  }
}
