/** Well-formed UTF-8 (section 4 of RFC 3629), which text must be on the wire. */
module Utf8 {
  import opened Common

  predicate Continues(c: Byte) {
    128 <= c < 192
  }

  /** The length of the well-formed character at the front, or zero. */
  function Lead(s: Bytes): (n: nat)
    ensures n <= |s|
  {
    if s == [] then 0
    else if s[0] < 128 then 1
    else if 194 <= s[0] < 224 then if |s| >= 2 && Continues(s[1]) then 2 else 0
    else if 224 <= s[0] < 240 then
      if |s| >= 3 && Continues(s[1]) && Continues(s[2])
         && (s[0] == 224 ==> s[1] >= 160) && (s[0] == 237 ==> s[1] < 160) then 3 else 0
    else if 240 <= s[0] < 245 then
      if |s| >= 4 && Continues(s[1]) && Continues(s[2]) && Continues(s[3])
         && (s[0] == 240 ==> s[1] >= 144) && (s[0] == 244 ==> s[1] < 144) then 4 else 0
    else 0
  }

  predicate Valid(s: Bytes)
    decreases |s|
  {
    s == [] || (Lead(s) > 0 && Valid(s[Lead(s)..]))
  }

  /** The bytes of a code point; a lone surrogate keeps its three-byte form. */
  function Encode(cp: nat): Bytes
    requires cp < 0x110000
  {
    if cp < 0x80 then [cp]
    else if cp < 0x800 then [192 + cp / 64, 128 + cp % 64]
    else if cp < 0x10000 then [224 + cp / 4096, 128 + cp / 64 % 64, 128 + cp % 64]
    else [240 + cp / 262144, 128 + cp / 4096 % 64, 128 + cp / 64 % 64, 128 + cp % 64]
  }

  lemma {:induction false} ValidAppend(a: Bytes, b: Bytes)
    requires Valid(a)
    ensures Valid(a + b) <==> Valid(b)
    decreases |a|
  {
    if a == [] {
      assert a + b == b;
    } else {
      var n := Lead(a);
      assert Lead(a + b) == n;
      assert (a + b)[n..] == a[n..] + b;
      ValidAppend(a[n..], b);
    }
  }

  lemma {:induction false} LeadContinues(s: Bytes)
    ensures forall i :: 0 < i < Lead(s) ==> Continues(s[i])
  {
  }

  lemma {:induction false} LeadOfFront(s: Bytes, n: nat)
    requires 0 < Lead(s) <= n <= |s|
    ensures Lead(s[..n]) == Lead(s)
  {
    var f := s[..n];
    assert f[0] == s[0] && (n > 1 ==> f[1] == s[1]) && (n > 2 ==> f[2] == s[2]) && (n > 3 ==> f[3] == s[3]);
  }

  /** A character does not reach over a byte that is ASCII. */
  lemma {:induction false} CharacterEnds(a: Bytes, b: Bytes)
    requires a != [] && b != [] && b[0] < 128 && Lead(a + b) > 0
    ensures Lead(a) == Lead(a + b)
  {
    var s := a + b;
    assert s[|a|] == b[0] && s[..|a|] == a;
    LeadContinues(s);
    assert Lead(s) <= |a| by {
      hide Lead;
    }
    LeadOfFront(s, |a|);
    hide Lead;
  }

  /** Cutting valid text before an ASCII byte gives two valid texts. */
  lemma {:induction false} ValidBeforeAscii(a: Bytes, b: Bytes)
    requires b != [] && b[0] < 128 && Valid(a + b)
    ensures Valid(a) && Valid(b)
    decreases |a|
  {
    if a == [] {
      assert a + b == b;
    } else {
      var n := Lead(a + b);
      CharacterEnds(a, b);
      assert (a + b)[n..] == a[n..] + b;
      hide Lead;
      ValidBeforeAscii(a[n..], b);
    }
  }

  predicate IsAscii(s: Bytes) {
    forall i :: 0 <= i < |s| ==> s[i] < 128
  }

  lemma {:induction false} AsciiIsValid(s: Bytes)
    requires IsAscii(s)
    ensures Valid(s)
  {
    if s != [] {
      AsciiIsValid(s[1..]);
    }
  }

  // ----- the definition by code points -----

  /** A code point that text may contain: no surrogate. */
  predicate IsScalar(cp: nat) {
    cp < 0x110000 && !(0xD800 <= cp < 0xE000)
  }

  predicate AllScalar(cps: seq<nat>) {
    forall i :: 0 <= i < |cps| ==> IsScalar(cps[i])
  }

  function EncodeAll(cps: seq<nat>): Bytes
    requires AllScalar(cps)
  {
    if cps == [] then [] else Encode(cps[0]) + EncodeAll(cps[1..])
  }

  lemma {:induction false} EncodeLeads(cp: nat, rest: Bytes)
    requires IsScalar(cp)
    ensures Lead(Encode(cp) + rest) == |Encode(cp)| > 0
    ensures (Encode(cp) + rest)[|Encode(cp)|..] == rest
  {
    var e := Encode(cp);
    assert forall i :: 0 <= i < |e| ==> (e + rest)[i] == e[i];
  }

  lemma {:induction false} CodePoints(s: Bytes) returns (cps: seq<nat>)
    requires Valid(s)
    ensures AllScalar(cps) && EncodeAll(cps) == s
    decreases |s|
  {
    if s == [] {
      cps := [];
    } else {
      var n := Lead(s);
      var cp := LeadCodePoint(s);
      var rest := CodePoints(s[n..]);
      cps := [cp] + rest;
      assert cps[1..] == rest && s == s[..n] + s[n..];
    }
  }

  lemma {:induction false} TwoBytes(a: nat, b: nat)
    requires 2 <= a < 32 && b < 64
    ensures Encode(a * 64 + b) == [192 + a, 128 + b]
  {
    var cp := a * 64 + b;
    assert cp / 64 == a && cp % 64 == b;
  }

  lemma {:induction false} ThreeBytes(a: nat, b: nat, c: nat)
    requires a < 16 && b < 64 && c < 64 && (a == 0 ==> b >= 32)
    ensures Encode(a * 4096 + b * 64 + c) == [224 + a, 128 + b, 128 + c]
  {
    var cp := a * 4096 + b * 64 + c;
    assert cp / 64 == a * 64 + b && cp % 64 == c;
    assert cp / 4096 == a && (a * 64 + b) % 64 == b;
  }

  lemma {:induction false} FourBytes(a: nat, b: nat, c: nat, d: nat)
    requires a < 5 && b < 64 && c < 64 && d < 64 && (a == 0 ==> b >= 16) && (a == 4 ==> b < 16)
    ensures Encode(a * 262144 + b * 4096 + c * 64 + d) == [240 + a, 128 + b, 128 + c, 128 + d]
  {
    var cp := a * 262144 + b * 4096 + c * 64 + d;
    assert cp / 64 == a * 4096 + b * 64 + c && cp % 64 == d;
    assert cp / 4096 == a * 64 + b && (a * 4096 + b * 64 + c) % 64 == c;
    assert cp / 262144 == a && (a * 64 + b) % 64 == b;
  }

  lemma {:induction false} LeadCodePoint(s: Bytes) returns (cp: nat)
    requires Lead(s) > 0
    ensures IsScalar(cp) && Encode(cp) == s[..Lead(s)]
  {
    hide Encode;
    var n := Lead(s);
    var a: int := s[0];
    if n == 1 {
      cp := a;
      OneByte(a);
      assert s[..1] == [s[0]];
    } else if n == 2 {
      var b: int := s[1] - 128;
      cp := (a - 192) * 64 + b;
      TwoBytes(a - 192, b);
      assert s[..2] == [s[0], s[1]];
    } else if n == 3 {
      var b: int, c: int := s[1] - 128, s[2] - 128;
      cp := (a - 224) * 4096 + b * 64 + c;
      ThreeBytes(a - 224, b, c);
      assert s[..3] == [s[0], s[1], s[2]];
    } else {
      var b: int, c: int, d: int := s[1] - 128, s[2] - 128, s[3] - 128;
      cp := (a - 240) * 262144 + b * 4096 + c * 64 + d;
      FourBytes(a - 240, b, c, d);
      assert s[..4] == [s[0], s[1], s[2], s[3]];
    }
  }

  lemma {:induction false} OneByte(a: nat)
    requires a < 128
    ensures Encode(a) == [a]
  {
  }

  lemma {:induction false} EncodedIsValid(cps: seq<nat>)
    requires AllScalar(cps)
    ensures Valid(EncodeAll(cps))
  {
    if cps != [] {
      EncodedIsValid(cps[1..]);
      EncodeLeads(cps[0], EncodeAll(cps[1..]));
    }
  }

  /** Bytes are valid text exactly if they are the encodings of code points other than surrogates. */
  lemma {:induction false} ValidExactly(s: Bytes)
    ensures Valid(s) <==> exists cps :: AllScalar(cps) && s == EncodeAll(cps)
  {
    if Valid(s) {
      var cps := CodePoints(s);
    }
    if cps :| AllScalar(cps) && s == EncodeAll(cps) {
      EncodedIsValid(cps);
    }
  }
}
