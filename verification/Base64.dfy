/** sodium_bin2base64 with sodium_base64_VARIANT_ORIGINAL: the text of a host key in the known-hosts file. */
module Base64 {
  import opened Prelude

  const PAD: byte := 61

  function Symbol(i: nat): (c: byte)
    requires i < 64
    ensures c > 32 && c != PAD
  {
    if i < 26 then 65 + i
    else if i < 52 then 97 + (i - 26)
    else if i < 62 then 48 + (i - 52)
    else if i == 62 then 43 else 47
  }

  function Encode(s: bytes): bytes {
    if s == [] then []
    else if |s| == 1 then [Symbol(s[0] / 4), Symbol(s[0] % 4 * 16), PAD, PAD]
    else if |s| == 2 then [Symbol(s[0] / 4), Symbol(s[0] % 4 * 16 + s[1] / 16), Symbol(s[1] % 16 * 4), PAD]
    else Group(s[0], s[1], s[2]) + Encode(s[3..])
  }

  function Group(a: byte, b: byte, c: byte): (r: bytes)
    ensures |r| == 4 && forall i :: 0 <= i < 4 ==> r[i] > 32 && r[i] != PAD
  {
    [Symbol(a / 4), Symbol(a % 4 * 16 + b / 16), Symbol(b % 16 * 4 + c / 64), Symbol(c % 64)]
  }

  /** The number a symbol stands for. */
  function Value(c: byte): nat {
    if 65 <= c <= 90 then c - 65
    else if 97 <= c <= 122 then c - 71
    else if 48 <= c <= 57 then c + 4
    else if c == 43 then 62 else 63
  }

  lemma ValueOfSymbol(i: nat)
    requires i < 64
    ensures Value(Symbol(i)) == i
  {
  }

  lemma SextetsGiveBytes(a: byte, b: byte, c: byte, a': byte, b': byte, c': byte)
    requires a / 4 == a' / 4 && a % 4 * 16 + b / 16 == a' % 4 * 16 + b' / 16
    ensures a == a' && b / 16 == b' / 16
    ensures b % 16 * 4 + c / 64 == b' % 16 * 4 + c' / 64 ==> b == b' && c / 64 == c' / 64
    ensures b % 16 * 4 + c / 64 == b' % 16 * 4 + c' / 64 && c % 64 == c' % 64 ==> c == c'
  {
    assert a % 4 == a' % 4;
  }

  lemma GroupValues(a: byte, b: byte, c: byte)
    ensures var g := Group(a, b, c);
            && Value(g[0]) == a / 4 && Value(g[1]) == a % 4 * 16 + b / 16
            && Value(g[2]) == b % 16 * 4 + c / 64 && Value(g[3]) == c % 64
  {
    ValueOfSymbol(a / 4);
    ValueOfSymbol(a % 4 * 16 + b / 16);
    ValueOfSymbol(b % 16 * 4 + c / 64);
    ValueOfSymbol(c % 64);
  }

  lemma GroupInjective(a: byte, b: byte, c: byte, a': byte, b': byte, c': byte)
    requires Group(a, b, c) == Group(a', b', c')
    ensures a == a' && b == b' && c == c'
  {
    GroupValues(a, b, c);
    GroupValues(a', b', c');
    SextetsGiveBytes(a, b, c, a', b', c');
  }

  /** How many pads a text ends with tells how many bytes were left over. */
  lemma PadsTellLength(s: bytes, t: bytes)
    requires s != [] && t != [] && Encode(s) == Encode(t)
    ensures |s| == 1 <==> |t| == 1
    ensures |s| == 2 <==> |t| == 2
  {
    var e, f := Encode(s), Encode(t);
    assert e[2] == f[2] && e[3] == f[3];
    ThirdAndFourth(s);
    ThirdAndFourth(t);
  }

  lemma ThirdAndFourth(s: bytes)
    requires s != []
    ensures |Encode(s)| >= 4
    ensures Encode(s)[2] == PAD <==> |s| == 1
    ensures Encode(s)[3] == PAD <==> |s| <= 2
  {
    if |s| > 2 {
      assert Encode(s)[2] == Group(s[0], s[1], s[2])[2] && Encode(s)[3] == Group(s[0], s[1], s[2])[3];
    }
  }

  /** The first symbols of a text give these one or two bytes. */
  predicate ShortReads(e: bytes, s: bytes) {
    && |e| >= 4 && 1 <= |s| <= 2
    && Value(e[0]) == s[0] / 4 && Value(e[1]) == s[0] % 4 * 16 + (if |s| == 2 then s[1] else 0) / 16
    && (|s| == 2 ==> Value(e[2]) == s[1] % 16 * 4)
  }

  lemma ShortEncodeReads(s: bytes)
    requires 1 <= |s| <= 2
    ensures ShortReads(Encode(s), s)
  {
    ValueOfSymbol(s[0] / 4);
    if |s| == 1 {
      ValueOfSymbol(s[0] % 4 * 16);
    } else {
      ValueOfSymbol(s[0] % 4 * 16 + s[1] / 16);
      ValueOfSymbol(s[1] % 16 * 4);
    }
  }

  lemma ShortReadsUnique(e: bytes, s: bytes, t: bytes)
    requires ShortReads(e, s) && ShortReads(e, t) && |s| == |t|
    ensures s == t
  {
    SextetsGiveBytes(s[0], if |s| == 2 then s[1] else 0, 0, t[0], if |t| == 2 then t[1] else 0, 0);
  }

  /** Different byte strings have different texts. */
  lemma {:induction false} EncodeInjective(s: bytes, t: bytes)
    requires Encode(s) == Encode(t)
    ensures s == t
  {
    if s == [] || t == [] {
      return;
    }
    PadsTellLength(s, t);
    if |s| <= 2 {
      ShortEncodeReads(s);
      ShortEncodeReads(t);
      ShortReadsUnique(Encode(s), s, t);
    } else {
      AppendInjective(Group(s[0], s[1], s[2]), Encode(s[3..]), Group(t[0], t[1], t[2]), Encode(t[3..]));
      GroupInjective(s[0], s[1], s[2], t[0], t[1], t[2]);
      EncodeInjective(s[3..], t[3..]);
      assert s == [s[0], s[1], s[2]] + s[3..] && t == [t[0], t[1], t[2]] + t[3..];
    }
  }

  /** The text has no blanks or control characters, and is empty only for the empty string. */
  lemma {:induction false} EncodePrintable(s: bytes)
    ensures forall i :: 0 <= i < |Encode(s)| ==> Encode(s)[i] > 32
    ensures Encode(s) == [] <==> s == []
  {
    if |s| > 2 {
      EncodePrintable(s[3..]);
    }
  }

  // ---- The text by the alphabet of section 4 of RFC 4648 ----

  const UPPER := "ABCDEFGHIJKLMNOPQRSTUVWXYZ"
  const LOWER := "abcdefghijklmnopqrstuvwxyz"
  const DIGITS := "0123456789"

  function Letter(i: nat): char
    requires i < 64
  {
    if i < 26 then UPPER[i] else if i < 52 then LOWER[i - 26] else if i < 62 then DIGITS[i - 52]
    else if i == 62 then '+' else '/'
  }

  lemma SymbolIsLetter(i: nat)
    requires i < 64
    ensures Symbol(i) == Letter(i) as int
  {
    if i < 26 {
      assert UPPER[i] as int == 65 + i;
    } else if i < 52 {
      assert LOWER[i - 26] as int == 97 + (i - 26);
    } else if i < 62 {
      assert DIGITS[i - 52] as int == 48 + (i - 52);
    }
  }

  /** The number that four sextets make up has them as its parts. */
  lemma SextetParts(w: nat, x: nat, y: nat, z: nat, n: nat)
    requires w < 64 && x < 64 && y < 64 && z < 64 && n == w * 0x4_0000 + x * 0x1000 + y * 64 + z
    ensures n / 0x4_0000 == w && n / 0x1000 % 64 == x && n / 64 % 64 == y && n % 64 == z
  {
    assert n / 64 == w * 0x1000 + x * 64 + y && n / 0x1000 == w * 64 + x;
  }

  lemma Sextets(a: byte, b: byte, c: byte, n: nat)
    requires n == a * 0x1_0000 + b * 0x100 + c
    ensures n / 0x4_0000 == a / 4 && n / 0x1000 % 64 == a % 4 * 16 + b / 16
    ensures n / 64 % 64 == b % 16 * 4 + c / 64 && n % 64 == c % 64
  {
    var q, r, s, t, u, v := a / 4, a % 4, b / 16, b % 16, c / 64, c % 64;
    assert a == 4 * q + r && b == 16 * s + t && c == 64 * u + v;
    SextetParts(q, r * 16 + s, t * 4 + u, v, n);
  }

  /** Three bytes are a number of 24 bits, and its four parts of six bits are the letters. */
  lemma EncodeByAlphabet(s: bytes, n: nat)
    requires |s| >= 3 && var a: int, b: int := s[0], s[1]; n == a * 0x1_0000 + b * 0x100 + s[2]
    ensures n < 0x100_0000 && |Encode(s)| >= 4 && Encode(s)[4..] == Encode(s[3..])
    ensures Encode(s)[0] == Letter(n / 0x4_0000) as int && Encode(s)[1] == Letter(n / 0x1000 % 64) as int
    ensures Encode(s)[2] == Letter(n / 64 % 64) as int && Encode(s)[3] == Letter(n % 64) as int
  {
    Sextets(s[0], s[1], s[2], n);
    SymbolIsLetter(s[0] / 4);
    SymbolIsLetter(s[0] % 4 * 16 + s[1] / 16);
    SymbolIsLetter(s[1] % 16 * 4 + s[2] / 64);
    SymbolIsLetter(s[2] % 64);
  }
}
