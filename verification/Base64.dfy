/** The standard base64 alphabet with canonical padding (section 4 of RFC 4648). */
module Base64 {
  import opened Common

  const PAD: Byte := 61

  type Sextet = v: int | 0 <= v < 64

  function Digit(v: Sextet): (c: Byte)
    ensures c != PAD && 43 <= c <= 122
  {
    if v < 26 then v + 65
    else if v < 52 then v + 71
    else if v < 62 then v - 4
    else if v == 62 then 43
    else 47
  }

  function ValueOf(c: Byte): Option<Sextet> {
    if 65 <= c <= 90 then Some(c - 65)
    else if 97 <= c <= 122 then Some(c - 71)
    else if 48 <= c <= 57 then Some(c + 4)
    else if c == 43 then Some(62)
    else if c == 47 then Some(63)
    else None
  }

  lemma {:induction false} DigitValue(c: Byte, v: Sextet)
    ensures ValueOf(c) == Some(v) <==> c == Digit(v)
  {
  }

  /** The alphabet (table 1 of RFC 4648): capitals, small letters, figures, plus and slash, in this order. */
  lemma {:induction false} Alphabet(v: Sextet)
    ensures v < 26 ==> Digit(v) == 'A' as int + v
    ensures 26 <= v < 52 ==> Digit(v) == 'a' as int + (v - 26)
    ensures 52 <= v < 62 ==> Digit(v) == '0' as int + (v - 52)
    ensures v == 62 ==> Digit(v) == '+' as int
    ensures v == 63 ==> Digit(v) == '/' as int
    ensures PAD == '=' as int
  {
  }

  // Three bytes as four sextets and back.

  function S0(x: Byte): Sextet { x / 4 }
  function S1(x: Byte, y: Byte): Sextet { x % 4 * 16 + y / 16 }
  function S2(y: Byte, z: Byte): Sextet { y % 16 * 4 + z / 64 }
  function S3(z: Byte): Sextet { z % 64 }

  function B0(a: Sextet, b: Sextet): Byte { (a * 4 as int) + b / 16 }
  function B1(b: Sextet, c: Sextet): Byte { (b % 16 * 16 as int) + c / 4 }
  function B2(c: Sextet, d: Sextet): Byte { (c % 4 * 64 as int) + d }

  lemma {:induction false} FirstByte(x: Byte, y: Byte)
    ensures B0(S0(x), S1(x, y)) == x
  {
  }

  lemma {:induction false} SecondByte(x: Byte, y: Byte, z: Byte)
    ensures B1(S1(x, y), S2(y, z)) == y
  {
    HighBits(x % 4, 16, y / 16);
    HighBits(y % 16, 4, z / 64);
    assert S1(x, y) % 16 == y / 16 && S2(y, z) / 4 == y % 16;
  }

  lemma {:induction false} HighBits(high: nat, unit: nat, low: nat)
    requires low < unit && (unit == 4 || unit == 16)
    ensures (high * unit + low) % unit == low && (high * unit + low) / unit == high
  {
  }

  lemma {:induction false} ThirdByte(y: Byte, z: Byte)
    ensures B2(S2(y, z), S3(z)) == z
  {
  }

  lemma {:induction false} BytesOfSextets(x: Byte, y: Byte, z: Byte)
    ensures B0(S0(x), S1(x, y)) == x
    ensures B1(S1(x, y), S2(y, z)) == y
    ensures B2(S2(y, z), S3(z)) == z
    ensures S1(x, 0) % 16 == 0 && S2(y, 0) % 4 == 0
  {
    FirstByte(x, y);
    SecondByte(x, y, z);
    ThirdByte(y, z);
    assert S1(x, 0) % 16 == 0 && S2(y, 0) % 4 == 0;
    hide B0, B1, B2, S0, S1, S2, S3;
  }

  lemma {:induction false} SextetsOfBytes(a: Sextet, b: Sextet, c: Sextet, d: Sextet)
    ensures S0(B0(a, b)) == a
    ensures S1(B0(a, b), B1(b, c)) == b
    ensures S2(B1(b, c), B2(c, d)) == c
    ensures S3(B2(c, d)) == d
    ensures b % 16 == 0 ==> S1(B0(a, b), 0) == b
    ensures c % 4 == 0 ==> S2(B1(b, c), 0) == c
  {
  }

  function Encode(b: Bytes): Bytes {
    if |b| == 0 then []
    else if |b| == 1 then [Digit(S0(b[0])), Digit(S1(b[0], 0)), PAD, PAD]
    else if |b| == 2 then [Digit(S0(b[0])), Digit(S1(b[0], b[1])), Digit(S2(b[1], 0)), PAD]
    else
      [Digit(S0(b[0])), Digit(S1(b[0], b[1])), Digit(S2(b[1], b[2])), Digit(S3(b[2]))] + Encode(b[3..])
  }

  /** The last quantum when it is padded; its unused bits must be zero. */
  function DecodePadded(a: Sextet, b: Sextet, third: Byte): Option<Bytes> {
    if third == PAD then if b % 16 == 0 then Some([B0(a, b)]) else None
    else match ValueOf(third)
      case None => None
      case Some(c) => if c % 4 == 0 then Some([B0(a, b), B1(b, c)]) else None
  }

  function Decode(s: Bytes): Option<Bytes> {
    if s == [] then Some([])
    else if |s| < 4 then None
    else match (ValueOf(s[0]), ValueOf(s[1]))
      case (Some(a), Some(b)) =>
        if |s| == 4 && s[3] == PAD then DecodePadded(a, b, s[2])
        else (match (ValueOf(s[2]), ValueOf(s[3]), Decode(s[4..]))
          case (Some(c), Some(d), Some(rest)) => Some([B0(a, b), B1(b, c), B2(c, d)] + rest)
          case _ => None)
      case _ => None
  }

  function Quantum(x: Byte, y: Byte, z: Byte): Bytes {
    [Digit(S0(x)), Digit(S1(x, y)), Digit(S2(y, z)), Digit(S3(z))]
  }

  lemma {:induction false} EncodeQuantum(x: Byte, y: Byte, z: Byte, rest: Bytes)
    ensures Encode([x, y, z] + rest) == Quantum(x, y, z) + Encode(rest)
  {
    assert ([x, y, z] + rest)[3..] == rest;
  }

  lemma {:induction false} DecodeQuantum(q: Bytes, a: Sextet, b: Sextet, c: Sextet, d: Sextet, rest: Bytes)
    requires q == [Digit(a), Digit(b), Digit(c), Digit(d)] && Decode(rest).Some?
    ensures Decode(q + rest) == Some([B0(a, b), B1(b, c), B2(c, d)] + Decode(rest).value)
  {
    DigitValue(Digit(a), a);
    DigitValue(Digit(b), b);
    DigitValue(Digit(c), c);
    DigitValue(Digit(d), d);
    var s := q + rest;
    assert s[4..] == rest && s[0] == q[0] && s[1] == q[1] && s[2] == q[2] && s[3] == q[3];
  }

  lemma {:induction false} DecodeOne(a: Sextet, b: Sextet)
    ensures Decode([Digit(a), Digit(b), PAD, PAD]) == if b % 16 == 0 then Some([B0(a, b)]) else None
  {
    DigitValue(Digit(a), a);
    DigitValue(Digit(b), b);
  }

  lemma {:induction false} DecodeTwo(a: Sextet, b: Sextet, c: Sextet)
    ensures Decode([Digit(a), Digit(b), Digit(c), PAD])
         == if c % 4 == 0 then Some([B0(a, b), B1(b, c)]) else None
  {
    DigitValue(Digit(a), a);
    DigitValue(Digit(b), b);
    DigitValue(Digit(c), c);
  }

  lemma {:induction false} TailOfOne(x: Byte)
    ensures Decode(Encode([x])) == Some([x])
  {
    BytesOfSextets(x, 0, 0);
    DecodeOne(S0(x), S1(x, 0));
  }

  lemma {:induction false} TailOfTwo(x: Byte, y: Byte)
    ensures Decode(Encode([x, y])) == Some([x, y])
  {
    var c := S2(y, 0);
    assert c % 4 == 0 && B0(S0(x), S1(x, y)) == x && B1(S1(x, y), c) == y by { BytesOfSextets(x, y, 0); }
    assert Encode([x, y]) == [Digit(S0(x)), Digit(S1(x, y)), Digit(c), PAD];
    DecodeTwo(S0(x), S1(x, y), c);
  }

  lemma {:induction false} DecodeInvertsEncode(b: Bytes)
    ensures Decode(Encode(b)) == Some(b)
  {
    if b == [] {
    } else if |b| == 1 {
      assert b == [b[0]];
      TailOfOne(b[0]);
    } else if |b| == 2 {
      assert b == [b[0], b[1]];
      TailOfTwo(b[0], b[1]);
    } else {
      var x, y, z, rest := b[0], b[1], b[2], b[3..];
      assert b == [x, y, z] + rest;
      DecodeInvertsEncode(rest);
      EncodeQuantum(x, y, z, rest);
      DecodeQuantum(Quantum(x, y, z), S0(x), S1(x, y), S2(y, z), S3(z), Encode(rest));
      BytesOfSextets(x, y, z);
    }
  }

  lemma {:induction false} EncodeInvertsDecode(s: Bytes)
    ensures Decode(s).Some? ==> Encode(Decode(s).value) == s
  {
    if |s| >= 4 && Decode(s).Some? {
      var a, b := ValueOf(s[0]).value, ValueOf(s[1]).value;
      DigitValue(s[0], a);
      DigitValue(s[1], b);
      if |s| == 4 && s[3] == PAD {
        assert s == [s[0], s[1], s[2], s[3]];
        if s[2] == PAD {
          SextetsOfBytes(a, b, 0, 0);
        } else {
          var c := ValueOf(s[2]).value;
          DigitValue(s[2], c);
          SextetsOfBytes(a, b, c, 0);
        }
      } else {
        var c, d := ValueOf(s[2]).value, ValueOf(s[3]).value;
        DigitValue(s[2], c);
        DigitValue(s[3], d);
        assert s[..4] == [s[0], s[1], s[2], s[3]];
        FullQuantum(s, a, b, c, d);
        EncodeInvertsDecode(s[4..]);
      }
    }
  }

  lemma {:induction false} QuantumOfSextets(a: Sextet, b: Sextet, c: Sextet, d: Sextet)
    ensures Quantum(B0(a, b), B1(b, c), B2(c, d)) == [Digit(a), Digit(b), Digit(c), Digit(d)]
  {
    SextetsOfBytes(a, b, c, d);
  }

  lemma {:induction false} FullQuantum(s: Bytes, a: Sextet, b: Sextet, c: Sextet, d: Sextet)
    requires |s| >= 4 && s[..4] == [Digit(a), Digit(b), Digit(c), Digit(d)]
    requires Decode(s[4..]).Some?
    ensures Decode(s).Some? && Encode(Decode(s).value) == s[..4] + Encode(Decode(s[4..]).value)
    ensures s == s[..4] + s[4..]
  {
    assert s == s[..4] + s[4..];
    var rest := Decode(s[4..]).value;
    DecodeQuantum(s[..4], a, b, c, d, s[4..]);
    EncodeQuantum(B0(a, b), B1(b, c), B2(c, d), rest);
    QuantumOfSextets(a, b, c, d);
  }

  /** Decoding accepts exactly the encodings, and each means one byte string only. */
  lemma {:induction false} DecodeExactly(s: Bytes, b: Bytes)
    ensures Decode(s) == Some(b) <==> s == Encode(b)
  {
    DecodeInvertsEncode(b);
    EncodeInvertsDecode(s);
  }

  /** The alphabet leaves out every control character. */
  lemma {:induction false} EncodeIsPrintable(b: Bytes)
    ensures forall i :: 0 <= i < |Encode(b)| ==> 43 <= Encode(b)[i] <= 122
  {
    if |b| >= 3 {
      EncodeIsPrintable(b[3..]);
    }
  }

  /** The bits of three bytes, most significant first, are those of four digits; the number they make is the same. */
  lemma {:induction false} SameBits(x: Byte, y: Byte, z: Byte)
    ensures ((S0(x) * 64 as int + S1(x, y)) * 64 + S2(y, z)) * 64 + S3(z) == (x * 256 as int + y) * 256 + z
  {
  }
}
