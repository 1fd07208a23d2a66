/** What the Socket.IO packet codec keeps, and exactly which packets survive it. */
module SocketCodecProofs {
  import opened Common
  import opened SocketCodec
  import Json
  import JsonProofs
  import Utf8

  // ----- numbers -----

  lemma {:induction false} DivModTen(n: nat)
    ensures n == n / 10 * 10 + n % 10 && n % 10 < 10 && (n >= 10 ==> 0 < n / 10 < n)
  {
  }

  lemma {:induction false} DigitsRead(n: nat)
    ensures Digits(n) != [] && AllDigits(Digits(n)) && NatOf(Digits(n)) == n
  {
    DivModTen(n);
    if n < 10 {
      assert Digits(n)[..0] == [];
    } else {
      var most, last: Byte := Digits(n / 10), ZERO + n % 10;
      DigitsRead(n / 10);
      assert Digits(n) == most + [last] && Digits(n)[..|most|] == most;
    }
  }

  lemma {:induction false} LeadingDigitsThen(d: Bytes, rest: Bytes)
    requires AllDigits(d) && (rest == [] || !Json.IsDigit(rest[0]))
    ensures LeadingDigits(d + rest) == |d|
  {
    if d == [] {
      assert d + rest == rest;
    } else {
      assert (d + rest)[1..] == d[1..] + rest;
      LeadingDigitsThen(d[1..], rest);
    }
  }

  lemma {:induction false} SplitOnceThen(a: Bytes, c: Byte, b: Bytes)
    requires c !in a
    ensures SplitOnce(a + ([c] + b), c) == Some((a, b))
  {
    var s := a + ([c] + b);
    if a == [] {
      assert s == [c] + b && s[1..] == b;
    } else {
      assert s[1..] == a[1..] + ([c] + b) && s[0] == a[0] != c;
      SplitOnceThen(a[1..], c, b);
      assert [a[0]] + a[1..] == a;
    }
  }

  // ----- reading back the parts of a header -----

  predicate NamespaceReady(nsp: Bytes) {
    Json.Starts(nsp, SLASH) && COMMA !in nsp
  }

  predicate IdReady(id: Option<int>) {
    id.Some? ==> 0 <= id.value <= I32_MAX
  }

  lemma {:induction false} CountReads(p: Packet, rest: Bytes)
    requires p.attachmentCount <= if IsBinary(p.kind) then U8_MAX else 0
    ensures ReadCount(p.kind, CountText(p) + rest) == Ok((p.attachmentCount, rest))
  {
    if IsBinary(p.kind) {
      var d := Digits(p.attachmentCount);
      DigitsRead(p.attachmentCount);
      assert Json.IsDigit(d[0]);
      assert DASH !in d by {
        assert forall i :: 0 <= i < |d| ==> Json.IsDigit(d[i]);
      }
      SplitOnceThen(d, DASH, rest);
      assert CountText(p) + rest == d + ([DASH] + rest);
    } else {
      assert CountText(p) + rest == rest;
    }
  }

  lemma {:induction false} NamespaceReads(p: Packet, rest: Bytes)
    requires NamespaceReady(p.nsp) && !Json.Starts(rest, SLASH)
    ensures ReadNamespace(NamespaceText(p) + rest) == Ok((p.nsp, rest))
  {
    if p.nsp != ROOT {
      SplitOnceThen(p.nsp, COMMA, rest);
      assert NamespaceText(p) + rest == p.nsp + ([COMMA] + rest);
    } else {
      assert NamespaceText(p) + rest == rest;
    }
  }

  /** What stands behind the id for an id to be kept. */
  predicate BodyReady(body: Bytes) {
    body != [] && !Json.IsDigit(body[0]) && Json.IsValid(body)
  }

  lemma {:induction false} TailReads(p: Packet, id: Option<int>, body: Bytes)
    requires IdReady(id) && (BodyReady(body) || (body == [] && id.None?)) && p.id.None? && p.data.None?
    ensures var s := (if id.Some? then IntText(id.value) else []) + body;
            && !Json.Starts(s, SLASH)
            && ReadTail(p, s) == Ok(p.(id := id, data := if body == [] then None
                                                         else if IsBinary(p.kind) then BinaryData(body)
                                                         else Some(body)))
  {
    var d := if id.Some? then IntText(id.value) else [];
    if id.Some? {
      DigitsRead(id.value);
      assert Json.IsDigit(d[0]);
    }
    LeadingDigitsThen(d, body);
    assert (d + body)[..|d|] == d && (d + body)[|d|..] == body;
    if d == [] && body != [] {
      assert d + body == body;
      ValidBegins(body);
    }
  }

  /** JSON text begins with something other than a slash. */
  lemma {:induction false} ValidBegins(s: Bytes)
    requires Json.IsValid(s)
    ensures s != [] && s[0] != SLASH
  {
    assert Ascii("null")[0] != SLASH && Ascii("true")[0] != SLASH && Ascii("false")[0] != SLASH;
  }

  lemma {:induction false} Behind(c: Byte, s: Bytes)
    ensures ([c] + s)[0] == c && ([c] + s)[1..] == s
  {
  }

  lemma {:induction false} ReadsInSteps(text: Bytes, p: Packet, afterCount: Bytes, rest: Bytes)
    requires Utf8.Valid(text) && text != [] && KindOf(text[0]) == Some(p.kind)
    requires ReadCount(p.kind, text[1..]) == Ok((p.attachmentCount, afterCount))
    requires ReadNamespace(afterCount) == Ok((p.nsp, rest))
    ensures Decoded(text) == ReadTail(Packet(p.kind, p.nsp, None, None, p.attachmentCount, None), rest)
  {
  }

  /** What a header with these fields and this body decodes to. */
  function Read(p: Packet, body: Bytes): Packet {
    p.(data := if body == [] then None else if IsBinary(p.kind) then BinaryData(body) else Some(body),
       attachments := None)
  }

  /** A header decodes to the fields it was printed from, whatever its body. */
  lemma {:induction false} HeaderReads(p: Packet, body: Bytes)
    requires p.attachmentCount <= if IsBinary(p.kind) then U8_MAX else 0
    requires NamespaceReady(p.nsp) && IdReady(p.id) && (BodyReady(body) || (body == [] && p.id.None?))
    requires Utf8.Valid(Header(p, body))
    ensures Decoded(Header(p, body)) == Ok(Read(p, body))
  {
    hide ReadTail, ReadCount, ReadNamespace, Decoded;
    var tail := IdText(p) + body;
    var afterCount := NamespaceText(p) + tail;
    var bare := Packet(p.kind, p.nsp, None, None, p.attachmentCount, None);
    Behind(ZERO + Code(p.kind), CountText(p) + afterCount);
    assert ReadTail(bare, tail) == Ok(Read(p, body)) && !Json.Starts(tail, SLASH) by {
      TailReads(bare, p.id, body);
    }
    assert ReadNamespace(afterCount) == Ok((p.nsp, tail)) by {
      NamespaceReads(p, tail);
    }
    assert ReadCount(p.kind, CountText(p) + afterCount) == Ok((p.attachmentCount, afterCount)) by {
      CountReads(p, afterCount);
    }
    ReadsInSteps(Header(p, body), p, afterCount, tail);
  }

  // ----- text -----

  lemma {:induction false} DigitsAscii(n: nat)
    ensures Utf8.Valid(Digits(n))
  {
    DigitsRead(n);
    assert forall i :: 0 <= i < |Digits(n)| ==> Json.IsDigit(Digits(n)[i]);
    Utf8.AsciiIsValid(Digits(n));
  }

  lemma {:induction false} HeaderIsText(p: Packet, body: Bytes)
    requires Utf8.Valid(p.nsp) && Utf8.Valid(body)
    ensures Utf8.Valid(Header(p, body))
  {
    Utf8.AsciiIsValid([DASH]);
    Utf8.AsciiIsValid([COMMA]);
    Utf8.AsciiIsValid([ZERO + Code(p.kind)]);
    hide Utf8.Valid, Digits, Code;
    assert Utf8.Valid([]) by {
      Utf8.AsciiIsValid([]);
    }
    if p.id.Some? {
      DigitsAscii(if p.id.value < 0 then -p.id.value else p.id.value);
      if p.id.value < 0 {
        Utf8.ValidAppend([DASH], Digits(-p.id.value));
      }
    }
    DigitsAscii(p.attachmentCount);
    Utf8.ValidAppend(Digits(p.attachmentCount), [DASH]);
    Utf8.ValidAppend(p.nsp, [COMMA]);
    var s3 := IdText(p) + body;
    var s2 := NamespaceText(p) + s3;
    Utf8.ValidAppend(IdText(p), body);
    Utf8.ValidAppend(NamespaceText(p), s3);
    Utf8.ValidAppend(CountText(p), s2);
    Utf8.ValidAppend([ZERO + Code(p.kind)], CountText(p) + s2);
  }

  // ----- packets without attachments -----

  /** What the source's field types say: strings are text, ids are i32, counts are u8. */
  predicate Typed(p: Packet) {
    && Utf8.Valid(p.nsp)
    && (p.data.Some? ==> Utf8.Valid(p.data.value))
    && (p.id.Some? ==> -I32_MAX - 1 <= p.id.value <= I32_MAX)
    && p.attachmentCount <= U8_MAX
  }

  /** The packets without attachments that survive the codec. */
  predicate TextReady(p: Packet) {
    && p.attachmentCount == 0
    && NamespaceReady(p.nsp)
    && (p.id.Some? ==> p.id.value >= 0 && p.data.Some?)
    && (p.data.Some? ==> BodyReady(p.data.value))
  }

  lemma {:induction false} TextRoundTrip(p: Packet)
    requires Typed(p) && !IsBinary(p.kind) && p.attachments.None? && TextReady(p)
    ensures Decoded(Text(p)) == Ok(p)
  {
    HeaderIsText(p, Body(p));
    HeaderReads(p, Body(p));
  }

  lemma {:induction false} NamespaceNormalised(s: Bytes)
    requires ReadNamespace(s).Ok?
    ensures NamespaceReady(ReadNamespace(s).value.0)
    ensures Utf8.Valid(s) ==> Utf8.Valid(ReadNamespace(s).value.0) && Utf8.Valid(ReadNamespace(s).value.1)
  {
    var (nsp, rest) := ReadNamespace(s).value;
    assert COMMA !in ROOT;
    Utf8.AsciiIsValid(ROOT);
    if Json.Starts(s, SLASH) && Utf8.Valid(s) {
      assert s == nsp + ([COMMA] + rest);
      assert nsp != [] && nsp[0] == s[0];
      Utf8.AsciiIsValid([COMMA]);
      Utf8.ValidBeforeAscii(nsp, [COMMA] + rest);
      Utf8.ValidAppend([COMMA], rest);
    } else if Json.Starts(s, SLASH) {
      assert s == nsp + ([COMMA] + rest);
      assert nsp != [] && nsp[0] == s[0];
    }
  }

  lemma {:induction false} TailNormalised(p: Packet, s: Bytes)
    requires ReadTail(p, s).Ok? && p.id.None? && p.data.None?
    ensures var q := ReadTail(p, s).value;
            && q == p.(id := q.id, data := q.data) && IdReady(q.id)
            && (!IsBinary(p.kind) ==> q.data.None? ==> q.id.None?)
            && (!IsBinary(p.kind) ==> q.data.Some? ==>
                  BodyReady(q.data.value) && (Utf8.Valid(s) ==> Utf8.Valid(q.data.value)))
  {
    var n := LeadingDigits(s);
    if n < |s| && Json.IsValid(s[n..]) {
      ValidBegins(s[n..]);
      assert s == s[..n] + s[n..];
      Utf8.AsciiIsValid(s[..n]) by {
        assert forall i :: 0 <= i < n ==> Json.IsDigit(s[..n][i]);
      }
      Utf8.ValidAppend(s[..n], s[n..]);
    }
  }

  /** Everything the parser accepts is in the form the printer would have chosen. */
  lemma {:induction false} Normalised(text: Bytes)
    requires Decoded(text).Ok?
    ensures var p := Decoded(text).value;
            && NamespaceReady(p.nsp) && IdReady(p.id) && p.attachments.None?
            && p.attachmentCount <= (if IsBinary(p.kind) then U8_MAX else 0)
            && (!IsBinary(p.kind) ==> TextReady(p) && Typed(p))
  {
    var k := KindOf(text[0]).value;
    var (count, afterCount) := ReadCount(k, text[1..]).value;
    var (nsp, rest) := ReadNamespace(afterCount).value;
    var bare := Packet(k, nsp, None, None, count, None);
    ReadsInSteps(text, bare, afterCount, rest);
    assert !IsBinary(k) ==> Utf8.Valid(afterCount) by {
      assert text == [text[0]] + text[1..];
      Utf8.AsciiIsValid([text[0]]);
      Utf8.ValidAppend([text[0]], text[1..]);
    }
    assert count <= if IsBinary(k) then U8_MAX else 0;
    NamespaceNormalised(afterCount);
    TailNormalised(bare, rest);
  }

  /** A packet without attachments survives the codec exactly if it is ready for it. */
  lemma {:induction false} TextExactly(p: Packet)
    requires Typed(p) && !IsBinary(p.kind) && p.attachments.None?
    ensures Decoded(Text(p)) == Ok(p) <==> TextReady(p)
  {
    if TextReady(p) {
      TextRoundTrip(p);
    } else if Decoded(Text(p)) == Ok(p) {
      Normalised(Text(p));
    }
  }

  /** Printing what was parsed and parsing it again changes nothing. */
  lemma {:induction false} ParseIsStable(text: Bytes)
    requires Decoded(text).Ok? && !IsBinary(Decoded(text).value.kind)
    ensures Decoded(Text(Decoded(text).value)) == Decoded(text)
  {
    Normalised(text);
    TextRoundTrip(Decoded(text).value);
  }

  // ----- removing the placeholder -----

  /** `pat` stands in `s` at position `i`. */
  predicate At(s: Bytes, pat: Bytes, i: nat) {
    i + |pat| <= |s| && s[i..i + |pat|] == pat
  }

  ghost predicate Occurs(s: Bytes, pat: Bytes) {
    exists i :: 0 <= i <= |s| && At(s, pat, i)
  }

  lemma {:induction false} RemoveShrinks(s: Bytes, pat: Bytes)
    requires pat != []
    ensures |Remove(s, pat)| <= |s|
    decreases |s|
  {
    if |s| >= |pat| {
      RemoveShrinks(if s[..|pat|] == pat then s[|pat|..] else s[1..], pat);
    }
  }

  /** Removal leaves a text alone exactly if the pattern does not occur in it. */
  lemma {:induction false} RemoveExactly(s: Bytes, pat: Bytes)
    requires pat != []
    ensures Remove(s, pat) == s <==> !Occurs(s, pat)
    ensures Occurs(s, pat) ==> |Remove(s, pat)| < |s|
    decreases |s|
  {
    if |s| >= |pat| {
      if s[..|pat|] == pat {
        RemoveShrinks(s[|pat|..], pat);
        assert At(s, pat, 0);
      } else {
        RemoveExactly(s[1..], pat);
        forall i | 0 <= i < |s| ensures At(s[1..], pat, i) <==> At(s, pat, i + 1) {
          if i + 1 + |pat| <= |s| {
            assert s[1..][i..i + |pat|] == s[i + 1..i + 1 + |pat|];
          }
        }
        if Occurs(s, pat) {
          var i :| 0 <= i <= |s| && At(s, pat, i);
          assert i > 0 && At(s[1..], pat, i - 1);
        }
        if Occurs(s[1..], pat) {
          var i :| 0 <= i <= |s[1..]| && At(s[1..], pat, i);
          assert At(s, pat, i + 1);
        }
      }
    }
  }

  lemma {:induction false} Shifted(s: Bytes, c: Byte, n: nat)
    requires n <= |s|
    ensures (s + [c])[..n] == s[..n] && (s + [c])[n..] == s[n..] + [c]
  {
  }

  lemma {:induction false} WholePrefix(s: Bytes, c: Byte, pat: Bytes)
    requires pat != [] && pat[|pat| - 1] != c && |s| + 1 == |pat|
    ensures (s + [c])[..|pat|] != pat
  {
    assert (s + [c])[..|pat|][|s|] == c;
  }

  /** A byte that cannot end the pattern is kept at the end. */
  lemma {:induction false} RemoveKeepsLast(s: Bytes, c: Byte, pat: Bytes)
    requires pat != [] && pat[|pat| - 1] != c
    ensures Remove(s + [c], pat) == Remove(s, pat) + [c]
    decreases |s|
  {
    var n := |pat|;
    if |s| < n {
      if |s| + 1 == n {
        WholePrefix(s, c, pat);
        RemoveShort(s, c, pat);
      }
    } else {
      Shifted(s, c, n);
      Shifted(s, c, 1);
      RemoveKeepsLast(if s[..n] == pat then s[n..] else s[1..], c, pat);
    }
  }

  lemma {:induction false} RemoveShort(s: Bytes, c: Byte, pat: Bytes)
    requires |s| + 1 == |pat| && (s + [c])[..|pat|] != pat
    ensures Remove(s + [c], pat) == s + [c]
  {
    var t := s + [c];
    assert |t[1..]| < |pat|;
    assert t == [t[0]] + t[1..];
  }

  /** A text that begins like the pattern is treated apart: no match runs into it. */
  lemma {:induction false} RemoveApart(s: Bytes, x: Bytes, pat: Bytes)
    requires pat != [] && x != [] && x[0] == pat[0] && forall i :: 0 < i < |pat| ==> pat[i] != pat[0]
    ensures Remove(s + x, pat) == Remove(s, pat) + Remove(x, pat)
    decreases |s|
  {
    var t, n := s + x, |pat|;
    if s == [] {
      assert t == x && [] + Remove(x, pat) == Remove(x, pat);
    } else if |s| >= n {
      SplitApart(s, x, n);
      SplitApart(s, x, 1);
      RemoveApart(if s[..n] == pat then s[n..] else s[1..], x, pat);
      Prefixed(s[0], Remove(s[1..], pat), Remove(x, pat));
    } else if |t| >= n {
      SplitApart(s, x, 1);
      NoMatchInto(s, x, pat);
      RemoveApart(s[1..], x, pat);
      Prefixed(s[0], s[1..], Remove(x, pat));
    }
  }

  lemma {:induction false} SplitApart(s: Bytes, x: Bytes, n: nat)
    requires n <= |s|
    ensures (s + x)[..n] == s[..n] && (s + x)[n..] == s[n..] + x && (s != [] ==> (s + x)[0] == s[0])
  {
  }

  lemma {:induction false} Prefixed(c: Byte, a: Bytes, b: Bytes)
    ensures [c] + (a + b) == ([c] + a) + b
  {
  }

  lemma {:induction false} NoMatchInto(s: Bytes, x: Bytes, pat: Bytes)
    requires 0 < |s| < |pat| <= |s + x| && x[0] == pat[0] && forall i :: 0 < i < |pat| ==> pat[i] != pat[0]
    ensures (s + x)[..|pat|] != pat
  {
    assert (s + x)[..|pat|][|s|] == x[0];
  }

  /** What is removed is whole copies of the pattern. */
  lemma {:induction false} RemovedCopies(s: Bytes, pat: Bytes) returns (m: nat)
    requires pat != []
    ensures |s| == |Remove(s, pat)| + m * |pat|
    decreases |s|
  {
    m := 0;
    if |s| >= |pat| {
      if s[..|pat|] == pat {
        m := RemovedCopies(s[|pat|..], pat);
        assert (m + 1) * |pat| == m * |pat| + |pat|;
        m := m + 1;
      } else {
        m := RemovedCopies(s[1..], pat);
      }
    }
  }

  // ----- placeholders -----

  lemma {:induction false} HeadShape()
    ensures var h := Ascii("{\"_placeholder\":true,\"num\":");
            && |h| == 27 && h[0] == Json.OPEN_BRACE && h[1] == Json.QUOTE
            && (forall i :: 0 <= i < 27 ==> 32 <= h[i] < 128)
            && (forall i :: 0 < i < 27 ==> h[i] != Json.OPEN_BRACE)
  {
  }

  lemma {:induction false} PlaceholderText(num: nat)
    ensures Placeholder(num) == Ascii("{\"_placeholder\":true,\"num\":") + Digits(num) + [Json.CLOSE_BRACE]
  {
    assert Ascii("}") == [Json.CLOSE_BRACE];
  }

  lemma {:induction false} PlaceholderShape(num: nat)
    ensures var p := Placeholder(num);
            && |p| == 28 + |Digits(num)| && |Digits(num)| > 0 && p[27] == Digits(num)[0]
            && p[0] == Json.OPEN_BRACE && p[1] == Json.QUOTE && p[|p| - 1] == Json.CLOSE_BRACE
            && (forall i :: 0 < i < |p| ==> p[i] != p[0])
            && JsonProofs.IsClean(p)
  {
    HeadShape();
    PlaceholderText(num);
    DigitsRead(num);
    var p, d := Placeholder(num), Digits(num);
    hide Placeholder, Digits;
    forall i | 27 <= i < |p| ensures 32 <= p[i] < 128 && p[i] != Json.OPEN_BRACE {
      assert i < |p| - 1 ==> p[i] == d[i - 27] && Json.IsDigit(d[i - 27]);
    }
    JsonProofs.CleanAscii(p);
  }

  lemma {:induction false} FirstDigit(n: nat)
    ensures Digits(n) != [] && (Digits(n)[0] == ZERO <==> n == 0)
    ensures n < 1000 ==> |Digits(n)| <= 3
    decreases n
  {
    DivModTen(n);
    if n >= 10 {
      FirstDigit(n / 10);
      if n < 1000 && n / 10 >= 10 {
        DivModTen(n / 10);
        assert |Digits(n / 10 / 10)| == 1;
      }
    }
  }

  /** Only the placeholder with the number zero holds the text that is removed. */
  lemma {:induction false} PlaceholderRemoved(num: nat)
    ensures Remove(Placeholder(num), Placeholder(0)) == if num == 0 then [] else Placeholder(num)
  {
    var p, pat := Placeholder(num), Placeholder(0);
    PlaceholderShape(num);
    PlaceholderShape(0);
    FirstDigit(num);
    FirstDigit(0);
    hide Placeholder, Digits;
    if num == 0 {
      assert p[..|pat|] == pat && p[|pat|..] == [];
      assert Remove([], pat) == [];
    } else {
      hide Remove;
      forall i | 0 <= i <= |p| ensures !At(p, pat, i) {
        if At(p, pat, i) {
          OccurrenceBegins(p, pat, i);
          SameAt(p, pat, 27);
        }
      }
      RemoveExactly(p, pat);
    }
  }

  lemma {:induction false} SameAt(p: Bytes, pat: Bytes, k: nat)
    requires k < |pat| && At(p, pat, 0)
    ensures p[k] == pat[k]
  {
    assert p[0..|pat|][k] == p[k];
  }

  lemma {:induction false} Inside(s: Bytes)
    ensures var b := [OPEN] + s + [CLOSE]; b[0] == OPEN && b[|b| - 1] == CLOSE && b[1..|b| - 1] == s
  {
  }

  /** What the data of a header is read back as. */
  function Recovered(p: Packet): Option<Bytes>
    requires p.attachmentCount > 0
  {
    var num := p.attachmentCount - 1;
    var d := if p.data.Some? then Remove(p.data.value, Placeholder(0)) else [];
    if num > 0 then Some((if p.data.Some? then d + [COMMA] else []) + Placeholder(num))
    else if d == [] then None
    else Some(d)
  }

  lemma {:induction false} BinaryDataInside(inner: Bytes, kept: Bytes)
    requires Remove(inner, Placeholder(0)) == kept
    ensures BinaryData([OPEN] + inner + [CLOSE])
         == var data := if kept != [] && kept[|kept| - 1] == COMMA then kept[..|kept| - 1] else kept;
            if data == [] then None else Some(data)
  {
    hide Remove, Placeholder;
    Inside(inner);
  }

  /** The body's array without its brackets. */
  function Inner(p: Packet): Bytes
    requires p.attachmentCount > 0
  {
    (if p.data.Some? then p.data.value + [COMMA] else []) + Placeholder(p.attachmentCount - 1)
  }

  lemma {:induction false} InnerOfBody(p: Packet)
    requires p.attachments.Some? && p.attachmentCount > 0
    ensures Body(p) == [OPEN] + Inner(p) + [CLOSE]
  {
    hide Placeholder;
    if p.data.Some? {
      Bracketed(p.data.value, Placeholder(p.attachmentCount - 1));
    } else {
      assert [] + Placeholder(p.attachmentCount - 1) == Placeholder(p.attachmentCount - 1);
    }
  }

  lemma {:induction false} RemoveBoth(d: Bytes, h: Bytes, num: nat)
    requires h == Placeholder(num)
    ensures Remove(d + [COMMA] + h, Placeholder(0)) == Remove(d, Placeholder(0)) + [COMMA] + Remove(h, Placeholder(0))
  {
    PlaceholderShape(num);
    PlaceholderShape(0);
    hide Remove, Placeholder, Digits, JsonProofs.IsClean;
    RemoveApart(d + [COMMA], h, Placeholder(0));
    RemoveKeepsLast(d, COMMA, Placeholder(0));
  }

  /** What is left of the array's text. */
  lemma {:induction false} InnerRemoved(p: Packet)
    requires p.attachmentCount > 0
    ensures var h := Placeholder(p.attachmentCount - 1);
            Remove(Inner(p), Placeholder(0))
            == (if p.data.Some? then Remove(p.data.value, Placeholder(0)) + [COMMA] else [])
               + (if p.attachmentCount == 1 then [] else h)
  {
    hide Remove, Placeholder;
    var h := Placeholder(p.attachmentCount - 1);
    PlaceholderRemoved(p.attachmentCount - 1);
    if p.data.Some? {
      RemoveBoth(p.data.value, h, p.attachmentCount - 1);
    } else {
      assert [] + h == h && [] + Remove(h, Placeholder(0)) == Remove(h, Placeholder(0));
    }
  }

  /** The text after the id, less its brackets, its placeholder and the comma before that. */
  lemma {:induction false} BinaryDataReads(p: Packet)
    requires p.attachments.Some? && p.attachmentCount > 0 && p.data != Some([])
    ensures BinaryData(Body(p)) == Recovered(p)
  {
    var h := Placeholder(p.attachmentCount - 1);
    PlaceholderShape(p.attachmentCount - 1);
    hide Remove, Placeholder, BinaryData, Inner, Body, Digits;
    InnerOfBody(p);
    InnerRemoved(p);
    BinaryDataInside(Inner(p), Remove(Inner(p), Placeholder(0)));
    var d := if p.data.Some? then Remove(p.data.value, Placeholder(0)) else [];
    hide Remove;
    if p.attachmentCount > 1 {
      LastKept(if p.data.Some? then d + [COMMA] else [], h);
    } else if p.data.Some? {
      CommaDropped(d);
    } else {
      assert Remove([], Placeholder(0)) == [] by {
        RemoveShrinks([], Placeholder(0));
      }
      CommaDropped([]);
    }
  }

  lemma {:induction false} CommaDropped(d: Bytes)
    ensures var kept := d + [COMMA] + []; kept != [] && kept[|kept| - 1] == COMMA && kept[..|kept| - 1] == d
    ensures var none: Bytes := []; none + none == none
  {
  }

  lemma {:induction false} LastKept(a: Bytes, h: Bytes)
    requires h != []
    ensures a + h != [] && (a + h)[|a + h| - 1] == h[|h| - 1]
  {
  }

  // ----- packets with attachments -----

  /** The object that stands in for an attachment. */
  function PlaceholderValue(num: nat): Json.Json {
    Json.Obj([Json.Field(Ascii("_placeholder"), Json.Bool(true)), Json.Field(Ascii("num"), Json.Number(Digits(num)))])
  }

  /** The digits of a number are the text of a JSON number. */
  lemma {:induction false} DigitsAreNumber(n: nat)
    ensures Json.IsNumber(Digits(n))
  {
    DigitsRead(n);
    FirstDigit(n);
    var d := Digits(n);
    assert Json.IsDigit(d[0]);
    if n == 0 {
      assert d == [ZERO] && d[1..] == [];
    } else {
      hide Digits;
      assert AllDigits(d[1..]) by {
        assert forall i :: 0 <= i < |d[1..]| ==> d[1..][i] == d[i + 1];
      }
      OnlyDigits(d[1..]);
    }
  }

  lemma {:induction false} OnlyDigits(s: Bytes)
    requires AllDigits(s)
    ensures Json.AfterDigits(s) == []
  {
    if s != [] {
      OnlyDigits(s[1..]);
    }
  }

  lemma {:induction false} EscapePlain(s: Bytes)
    requires forall i :: 0 <= i < |s| ==> !Json.MustEscape(s[i])
    ensures Json.Escape(s) == s
  {
    if s != [] {
      EscapePlain(s[1..]);
    }
  }

  lemma {:induction false} FieldPrints(name: Bytes, value: Json.Json)
    requires forall i :: 0 <= i < |name| ==> !Json.MustEscape(name[i])
    ensures Json.PrintFields([Json.Field(name, value)])
         == [Json.QUOTE] + name + [Json.QUOTE] + [Json.COLON] + Json.Print(value)
  {
    EscapePlain(name);
  }

  lemma {:induction false} HeadText()
    ensures Ascii("{\"_placeholder\":true,\"num\":")
         == [Json.OPEN_BRACE] + ([Json.QUOTE] + Ascii("_placeholder") + [Json.QUOTE] + [Json.COLON] + Ascii("true"))
            + [COMMA] + ([Json.QUOTE] + Ascii("num") + [Json.QUOTE] + [Json.COLON])
  {
  }

  lemma {:induction false} Pieces(a: Bytes, x: Bytes, c: Bytes, y: Bytes, z: Bytes, e: Byte)
    ensures a + (x + c + (y + z)) + [e] == (a + x + c + y) + z + [e]
  {
  }

  lemma {:induction false} TwoFields(f: Json.Field, g: Json.Field)
    ensures Json.PrintFields([f, g]) == Json.PrintFields([f]) + [COMMA] + Json.PrintFields([g])
  {
    assert [f, g][1..] == [g];
  }

  lemma {:induction false} PlaceholderPrints(num: nat)
    ensures Json.Print(PlaceholderValue(num)) == Placeholder(num)
  {
    hide Placeholder, Digits, Json.PrintFields, Json.PrintString;
    var name, word := Ascii("_placeholder"), Ascii("num");
    assert forall i :: 0 <= i < |name| ==> !Json.MustEscape(name[i]);
    assert forall i :: 0 <= i < |word| ==> !Json.MustEscape(word[i]);
    hide Ascii, Json.MustEscape;
    var x := [Json.QUOTE] + name + [Json.QUOTE] + [Json.COLON] + Ascii("true");
    var y := [Json.QUOTE] + word + [Json.QUOTE] + [Json.COLON];
    var z := Digits(num);
    var f, g := Json.Field(name, Json.Bool(true)), Json.Field(word, Json.Number(z));
    calc {
      Json.Print(PlaceholderValue(num));
      [Json.OPEN_BRACE] + Json.PrintFields([f, g]) + [Json.CLOSE_BRACE];
      { TwoFields(f, g); }
      [Json.OPEN_BRACE] + (Json.PrintFields([f]) + [COMMA] + Json.PrintFields([g])) + [Json.CLOSE_BRACE];
      { FieldPrints(name, Json.Bool(true)); FieldPrints(word, Json.Number(z)); }
      [Json.OPEN_BRACE] + (x + [COMMA] + (y + z)) + [Json.CLOSE_BRACE];
      { Pieces([Json.OPEN_BRACE], x, [COMMA], y, z, Json.CLOSE_BRACE); }
      ([Json.OPEN_BRACE] + x + [COMMA] + y) + z + [Json.CLOSE_BRACE];
      { HeadText(); PlaceholderText(num); }
      Placeholder(num);
    }
  }

  /** The values in the array that is the body of a binary header. */
  function BodyItems(event: Option<Json.Json>, num: nat): seq<Json.Json> {
    (if event.Some? then [event.value] else []) + [PlaceholderValue(num)]
  }

  lemma {:induction false} TwoItems(v: Json.Json, w: Json.Json)
    ensures Json.PrintItems([v, w]) == Json.Print(v) + [COMMA] + Json.Print(w)
    ensures Json.PrintItems([w]) == Json.Print(w)
  {
    assert [v, w][1..] == [w];
  }

  lemma {:induction false} Bracketed(d: Bytes, h: Bytes)
    ensures [OPEN] + (d + [COMMA] + h) + [CLOSE] == [OPEN] + d + [COMMA] + h + [CLOSE]
  {
  }

  /** The data of a header, if it has any, is the text of a JSON value. */
  ghost predicate Carries(p: Packet, event: Option<Json.Json>) {
    && p.attachments.Some? && p.attachmentCount > 0
    && p.data == (if event.Some? then Some(Json.Print(event.value)) else None)
    && (event.Some? ==> JsonProofs.WellFormed(event.value))
  }

  lemma {:induction false} BodyPrints(p: Packet, event: Option<Json.Json>)
    requires Carries(p, event)
    ensures Body(p) == Json.Print(Json.Arr(BodyItems(event, p.attachmentCount - 1)))
  {
    var num := p.attachmentCount - 1;
    assert Json.Print(PlaceholderValue(num)) == Placeholder(num) by {
      PlaceholderPrints(num);
    }
    hide Placeholder, PlaceholderValue;
    TwoItems(if event.Some? then event.value else Json.Null, PlaceholderValue(num));
    if event.Some? {
      Bracketed(p.data.value, Placeholder(num));
      assert BodyItems(event, num) == [event.value, PlaceholderValue(num)];
    } else {
      assert BodyItems(event, num) == [PlaceholderValue(num)];
    }
  }

  predicate BinaryReady(p: Packet) {
    IsBinary(p.kind) && p.attachments.Some? && p.attachmentCount > 0 && NamespaceReady(p.nsp) && IdReady(p.id)
  }

  lemma {:induction false} BodyIsReady(p: Packet, event: Option<Json.Json>)
    requires Carries(p, event)
    ensures BodyReady(Body(p))
  {
    var items := BodyItems(event, p.attachmentCount - 1);
    BodyPrints(p, event);
    DigitsAreNumber(p.attachmentCount - 1);
    forall i | 0 <= i < |items| ensures JsonProofs.WellFormed(items[i]) {
      assert i < |items| - 1 ==> items[i] == event.value;
    }
    hide Body, Json.Print, Json.Parse, BodyItems, Json.IsNumber, Digits;
    JsonProofs.ParseInvertsPrint(Json.Arr(items));
    JsonProofs.PrintBegins(Json.Arr(items));
  }

  /** A binary header comes back with its fields, and with the data that is left of its body. */
  lemma {:induction false} BinaryReads(p: Packet, event: Option<Json.Json>)
    requires BinaryReady(p) && Typed(p) && Carries(p, event)
    ensures Decoded(Text(p)) == Ok(p.(data := Recovered(p), attachments := None))
  {
    assert BodyReady(Body(p)) by {
      BodyIsReady(p, event);
    }
    assert p.data != Some([]) by {
      if event.Some? {
        JsonProofs.PrintBegins(event.value);
      }
    }
    assert Utf8.Valid(Header(p, Body(p))) by {
      BodyIsText(p);
      HeaderIsText(p, Body(p));
    }
    hide Decoded, Body, BinaryData, Recovered, BodyReady, Carries;
    HeaderReads(p, Body(p));
    BinaryDataReads(p);
  }

  lemma {:induction false} BodyIsText(p: Packet)
    requires p.attachments.Some? && p.attachmentCount > 0 && (p.data.Some? ==> Utf8.Valid(p.data.value))
    ensures Utf8.Valid(Body(p))
  {
    var h := Placeholder(p.attachmentCount - 1);
    PlaceholderShape(p.attachmentCount - 1);
    Utf8.AsciiIsValid([OPEN]);
    Utf8.AsciiIsValid([CLOSE]);
    Utf8.AsciiIsValid([COMMA]);
    var before := if p.data.Some? then [OPEN] + p.data.value + [COMMA] else [OPEN];
    assert Body(p) == before + h + [CLOSE];
    hide Utf8.Valid, Placeholder, Body;
    if p.data.Some? {
      Utf8.ValidAppend([OPEN], p.data.value);
      Utf8.ValidAppend([OPEN] + p.data.value, [COMMA]);
    }
    Utf8.ValidAppend(before, h);
    Utf8.ValidAppend(before + h, [CLOSE]);
  }

  /** With more than one attachment a placeholder stays in the data, which so differs. */
  lemma {:induction false} ManyNeverRecovered(p: Packet)
    requires 1 < p.attachmentCount <= U8_MAX
    ensures Recovered(p) != p.data
  {
    hide Remove, Placeholder, Digits;
    var num := p.attachmentCount - 1;
    PlaceholderLength(num);
    PlaceholderLength(0);
    FirstDigit(num);
    ZeroDigit();
    if p.data.Some? {
      var m := RemovedCopies(p.data.value, Placeholder(0));
      NoMultiple(m, |Digits(num)|);
      assert |Recovered(p).value| == |p.data.value| - m * 29 + 29 + |Digits(num)|;
    }
  }

  lemma {:induction false} PlaceholderLength(num: nat)
    ensures |Placeholder(num)| == 28 + |Digits(num)| && |Digits(num)| > 0
  {
    PlaceholderShape(num);
  }

  lemma {:induction false} NoMultiple(m: nat, k: nat)
    requires 1 <= k <= 3
    ensures m * 29 != 29 + k
  {
  }

  lemma {:induction false} ZeroDigit()
    ensures |Digits(0)| == 1
  {
  }

  /**
   A binary packet survives exactly if it has one attachment, its namespace and id are
   ready, and its data does not hold the text of the placeholder.
   */
  lemma {:induction false} BinaryExactly(p: Packet, event: Option<Json.Json>)
    requires IsBinary(p.kind) && Typed(p) && Carries(p, event)
    ensures Decoded(Text(p)) == Ok(p.(attachments := None))
       <==> && p.attachmentCount == 1 && NamespaceReady(p.nsp) && IdReady(p.id)
            && (p.data.Some? ==> !Occurs(p.data.value, Placeholder(0)))
  {
    hide Decoded, Text, Recovered, Placeholder, Remove;
    if BinaryReady(p) {
      BinaryReads(p, event);
      if p.attachmentCount > 1 {
        ManyNeverRecovered(p);
      } else {
        OneRecovered(p, event);
      }
    } else if Decoded(Text(p)) == Ok(p.(attachments := None)) {
      Normalised(Text(p));
    }
  }

  lemma {:induction false} OneRecovered(p: Packet, event: Option<Json.Json>)
    requires p.attachmentCount == 1 && Carries(p, event)
    ensures Recovered(p) == p.data <==> (p.data.Some? ==> !Occurs(p.data.value, Placeholder(0)))
  {
    hide Remove, Placeholder;
    PlaceholderShape(0);
    if event.Some? {
      JsonProofs.PrintBegins(event.value);
      RemoveExactly(p.data.value, Placeholder(0));
    }
  }

  lemma {:induction false} EscapedByte(c: Byte)
    ensures var e := Json.EscapeByte(c); forall i :: 0 <= i < |e| && e[i] == Json.QUOTE ==> i == 1 && e[0] == Json.BACKSLASH
  {
    assert Json.HexDigit(c / 16) >= 48 || c >= 32;
  }

  /** Every quote stands behind a backslash. */
  predicate QuotesEscaped(e: Bytes) {
    forall i :: 0 <= i < |e| && e[i] == Json.QUOTE ==> i > 0 && e[i - 1] == Json.BACKSLASH
  }

  lemma {:induction false} EscapeEscapesQuotes(s: Bytes)
    ensures QuotesEscaped(Json.Escape(s))
  {
    if s != [] {
      var head, tail := Json.EscapeByte(s[0]), Json.Escape(s[1..]);
      var e := head + tail;
      EscapedByte(s[0]);
      EscapeEscapesQuotes(s[1..]);
      forall i | 0 <= i < |e| && e[i] == Json.QUOTE ensures i > 0 && e[i - 1] == Json.BACKSLASH {
        if i >= |head| {
          assert tail[i - |head|] == Json.QUOTE;
          assert e[i - 1] == tail[i - 1 - |head|];
        } else {
          assert head[i] == Json.QUOTE && e[0] == head[0];
        }
      }
    }
  }

  lemma {:induction false} OccurrenceBegins(s: Bytes, pat: Bytes, i: nat)
    requires At(s, pat, i) && |pat| > 2
    ensures i + 2 < |s| && s[i] == pat[0] && s[i + 1] == pat[1]
  {
    assert s[i..i + |pat|][0] == s[i] && s[i..i + |pat|][1] == s[i + 1];
  }

  /** No event literal holds the text of the placeholder. */
  lemma {:induction false} EventLiteralIsFree(event: Bytes)
    ensures !Occurs(Json.PrintString(event), Placeholder(0))
  {
    var e, s, pat := Json.Escape(event), Json.PrintString(event), Placeholder(0);
    EscapeEscapesQuotes(event);
    assert |pat| > 2 && pat[0] == Json.OPEN_BRACE && pat[1] == Json.QUOTE by {
      PlaceholderShape(0);
    }
    forall i | 0 <= i <= |s| ensures !At(s, pat, i) {
      if At(s, pat, i) {
        OccurrenceBegins(s, pat, i);
        FramedQuote(e, i);
      }
    }
  }

  /** Between the quotes around an escaped text, no quote stands behind a brace. */
  lemma {:induction false} FramedQuote(e: Bytes, i: nat)
    requires QuotesEscaped(e)
    ensures var s := [Json.QUOTE] + e + [Json.QUOTE]; i + 2 < |s| && s[i + 1] == Json.QUOTE ==> s[i] != Json.OPEN_BRACE
  {
    var s := [Json.QUOTE] + e + [Json.QUOTE];
    if i + 2 < |s| && s[i + 1] == Json.QUOTE {
      assert e[i] == Json.QUOTE;
      assert i > 0 ==> s[i] == e[i - 1];
    }
  }

  /** A binary header with an event literal, or with none, comes back as it was. */
  lemma {:induction false} EventHeaderRoundTrip(p: Packet, event: Option<Bytes>)
    requires BinaryReady(p) && Typed(p) && p.attachmentCount == 1
    requires p.data == if event.Some? then Some(Json.PrintString(event.value)) else None
    ensures Decoded(Text(p)) == Ok(p.(attachments := None))
  {
    hide Decoded, Text, Occurs, Placeholder;
    if event.Some? {
      EventLiteralIsFree(event.value);
      BinaryExactly(p, Some(Json.Str(event.value)));
    } else {
      BinaryExactly(p, None);
    }
  }
}
