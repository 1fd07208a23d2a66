/** The text of a Socket.IO packet against the grammar of the protocol (Socket.IO protocol v5, "Packet encoding"). */
module SocketFormat {
  import opened Common
  import opened SocketCodec
  import Json
  import Proofs = SocketCodecProofs
  import Utf8

  // ----- the pieces of the grammar -----

  /** The digits of the packet types. */
  function TypeDigit(k: Kind): Bytes {
    match k
    case Connect => Ascii("0")
    case Disconnect => Ascii("1")
    case Event => Ascii("2")
    case Ack => Ascii("3")
    case ConnectError => Ascii("4")
    case BinaryEvent => Ascii("5")
    case BinaryAck => Ascii("6")
  }

  /** What is left of a number after so many divisions by ten. */
  function Shifted(n: nat, i: nat): nat {
    if i == 0 then n else Shifted(n / 10, i - 1)
  }

  /** Numbers are printed in decimal, the most significant digit first, and without leading zeros. */
  lemma {:induction false} DigitsAreDecimal(n: nat)
    ensures var d := Digits(n);
            && d != [] && Shifted(n, |d|) == 0 && (|d| > 1 ==> d[0] != 48)
            && forall i: nat :: i < |d| ==> d[|d| - 1 - i] as int == 48 + Shifted(n, i) % 10
  {
    var d := Digits(n);
    if n < 10 {
      assert Shifted(n, 1) == Shifted(n / 10, 0);
    } else {
      var most := Digits(n / 10);
      DigitsAreDecimal(n / 10);
      assert d == most + [48 + n % 10];
      forall i: nat | i < |d| ensures d[|d| - 1 - i] as int == 48 + Shifted(n, i) % 10 {
        if i > 0 {
          assert d[|d| - 1 - i] == most[|most| - 1 - (i - 1)];
        }
      }
      if |most| == 1 {
        assert most[|most| - 1 - 0] as int == 48 + Shifted(n / 10, 0) % 10;
        assert Shifted(n / 10, 1) == Shifted(n / 10 / 10, 0);
      }
    }
  }

  /** What stands for the attachment with this number. */
  function PlaceholderOf(num: nat): Bytes {
    Ascii("{\"_placeholder\":true,\"num\":") + Digits(num) + Ascii("}")
  }

  /** An encoded packet follows the grammar: type, count, namespace, id and body, in this order. */
  lemma {:induction false} FollowsGrammar(p: Packet)
    requires p.attachments.Some? ==> p.attachmentCount > 0
    ensures Text(p)
         == TypeDigit(p.kind)
            + (if p.kind.BinaryEvent? || p.kind.BinaryAck? then Digits(p.attachmentCount) + Ascii("-") else [])
            + (if p.nsp != Ascii("/") then p.nsp + Ascii(",") else [])
            + (if p.id.None? then [] else if p.id.value < 0 then Ascii("-") + Digits(-p.id.value) else Digits(p.id.value))
            + (match (p.attachments, p.data)
               case (Some(_), Some(data)) => Ascii("[") + data + Ascii(",") + PlaceholderOf(p.attachmentCount - 1) + Ascii("]")
               case (Some(_), None) => Ascii("[") + PlaceholderOf(p.attachmentCount - 1) + Ascii("]")
               case (None, Some(data)) => data
               case (None, None) => [])
  {
    var t := TypeDigit(p.kind);
    assert Ascii("/") == ROOT && Ascii(",") == [COMMA] && Ascii("-") == [DASH];
    assert t == [ZERO + Code(p.kind)];
    hide Code, TypeDigit;
    Marks();
    hide Ascii, Digits;
    assert Body(p) == if p.attachments.None? then (if p.data.Some? then p.data.value else [])
                      else if p.data.Some? then Ascii("[") + p.data.value + Ascii(",") + PlaceholderOf(p.attachmentCount - 1) + Ascii("]")
                      else Ascii("[") + PlaceholderOf(p.attachmentCount - 1) + Ascii("]");
    Nest(t, CountText(p), NamespaceText(p), IdText(p), Body(p));
  }

  lemma {:induction false} Marks()
    ensures Ascii(",") == [COMMA] && Ascii("[") == [OPEN] && Ascii("]") == [CLOSE]
  {
  }

  // ----- reading -----

  predicate HasAttachments(k: Kind) {
    k.BinaryEvent? || k.BinaryAck?
  }

  /** A text cut into its pieces: type digit, count, namespace, digits of the id, and what is behind them. */
  datatype Pieces = Pieces(kind: Kind, count: Option<Bytes>, nsp: Option<Bytes>, digits: Bytes, body: Bytes) {
    function Whole(): Bytes {
      TypeDigit(kind)
      + ((if count.Some? then count.value + [DASH] else [])
         + ((if nsp.Some? then nsp.value + [COMMA] else [])
            + (digits + body)))
    }

    /** The pieces are cut where the grammar cuts them. */
    predicate Fits() {
      && (count.Some? <==> HasAttachments(kind)) && (count.Some? ==> DASH !in count.value)
      && (nsp.Some? ==> Json.Starts(nsp.value, SLASH) && COMMA !in nsp.value)
      && (nsp.None? ==> !Json.Starts(digits + body, SLASH))
      && AllDigits(digits) && (body != [] ==> !Json.IsDigit(body[0]))
    }

    /** The count as a number: digits, perhaps behind a plus, of at most 255. */
    function CountValue(): Option<nat> {
      if count.None? then Some(0)
      else
        var d := if Json.Starts(count.value, PLUS) then count.value[1..] else count.value;
        if d != [] && AllDigits(d) && NatOf(d) <= 255 then Some(NatOf(d)) else None
    }
  }

  lemma {:induction false} KindRead(k: Kind, rest: Bytes)
    ensures (TypeDigit(k) + rest) != [] && KindOf((TypeDigit(k) + rest)[0]) == Some(k)
    ensures (TypeDigit(k) + rest)[1..] == rest
  {
  }

  lemma {:induction false} CountRead(w: Pieces, rest: Bytes)
    requires w.Fits()
    ensures ReadCount(w.kind, (if w.count.Some? then w.count.value + [DASH] else []) + rest)
         == if w.CountValue().Some? then Ok((w.CountValue().value, rest)) else Err(InvalidPacket)
  {
    if w.count.Some? {
      SplitsAt(w.count.value, DASH, rest);
    } else {
      assert [] + rest == rest;
    }
  }

  lemma {:induction false} SplitsAt(a: Bytes, c: Byte, b: Bytes)
    requires c !in a
    ensures SplitOnce(a + [c] + b, c) == Some((a, b))
  {
    assert a + [c] + b == a + ([c] + b);
    Proofs.SplitOnceThen(a, c, b);
  }

  lemma {:induction false} NamespaceRead(w: Pieces)
    requires w.Fits()
    ensures ReadNamespace((if w.nsp.Some? then w.nsp.value + [COMMA] else []) + (w.digits + w.body))
         == Ok((if w.nsp.Some? then w.nsp.value else Ascii("/"), w.digits + w.body))
  {
    assert Ascii("/") == ROOT;
    if w.nsp.Some? {
      SplitsAt(w.nsp.value, COMMA, w.digits + w.body);
    } else {
      assert [] + (w.digits + w.body) == w.digits + w.body;
    }
  }

  lemma {:induction false} TailRead(p: Packet, digits: Bytes, body: Bytes)
    requires AllDigits(digits) && (body != [] ==> !Json.IsDigit(body[0])) && p.id.None? && p.data.None?
    ensures ReadTail(p, digits + body)
         == if body == [] then Ok(p)
            else if digits != [] && NatOf(digits) > 0x7FFF_FFFF then Err(InvalidPacket)
            else if !Json.IsValid(body) then Err(InvalidJson)
            else Ok(p.(id := if digits == [] then None else Some(NatOf(digits)),
                       data := if HasAttachments(p.kind) then BinaryData(body) else Some(body)))
  {
    var s := digits + body;
    Proofs.LeadingDigitsThen(digits, body);
    assert s[..|digits|] == digits && s[|digits|..] == body;
    assert body == [] ==> s == digits;
    hide LeadingDigits, NatOf, BinaryData, Json.IsValid;
  }

  /**
   What every text that fits the grammar is read as. Digits with nothing behind them are dropped;
   an id must be at most 2^31 - 1 and what is behind it must be JSON.
   */
  lemma {:induction false} ReadsAs(w: Pieces)
    requires w.Fits() && Utf8.Valid(w.Whole())
    ensures Decoded(w.Whole())
         == if w.CountValue().None? then Err(InvalidPacket)
            else
              var nsp := if w.nsp.Some? then w.nsp.value else Ascii("/");
              var count := w.CountValue().value;
              if w.body == [] then Ok(Packet(w.kind, nsp, None, None, count, None))
              else if w.digits != [] && NatOf(w.digits) > 0x7FFF_FFFF then Err(InvalidPacket)
              else if !Json.IsValid(w.body) then Err(InvalidJson)
              else
                Ok(Packet(w.kind, nsp, if HasAttachments(w.kind) then BinaryData(w.body) else Some(w.body),
                          if w.digits == [] then None else Some(NatOf(w.digits)), count, None))
  {
    hide TypeDigit, KindOf, ReadCount, ReadNamespace, ReadTail, Json.IsValid, BinaryData, Utf8.Valid, NatOf, AllDigits;
    var s2 := w.digits + w.body;
    var s1 := (if w.nsp.Some? then w.nsp.value + [COMMA] else []) + s2;
    var s0 := (if w.count.Some? then w.count.value + [DASH] else []) + s1;
    assert w.Whole() == TypeDigit(w.kind) + s0;
    KindRead(w.kind, s0);
    CountRead(w, s1);
    NamespaceRead(w);
    if w.CountValue().Some? {
      var nsp := if w.nsp.Some? then w.nsp.value else Ascii("/");
      TailRead(Packet(w.kind, nsp, None, None, w.CountValue().value, None), w.digits, w.body);
    }
    hide Ascii;
  }

  /** None of the later steps reports an encoding error or a wrong type. */
  lemma {:induction false} LaterErrors(k: Kind, s: Bytes, p: Packet)
    ensures ReadCount(k, s).Err? ==> ReadCount(k, s).error.IncompletePacket? || ReadCount(k, s).error.InvalidPacket?
    ensures ReadNamespace(s).Err? ==> ReadNamespace(s).error.IncompletePacket?
    ensures ReadTail(p, s).Err? ==> ReadTail(p, s).error.InvalidPacket? || ReadTail(p, s).error.InvalidJson?
  {
    hide SplitOnce, LeadingDigits, BinaryData, Json.IsValid, ParseU8, ParseI32, IsBinary;
  }

  lemma {:induction false} NoDash(k: Kind, s: Bytes)
    requires HasAttachments(k) && DASH !in s
    ensures ReadCount(k, s) == Err(IncompletePacket)
  {
  }

  /** What is refused before anything behind the type digit is looked at, and a count without its dash. */
  lemma {:induction false} RefusedTexts(text: Bytes)
    ensures Decoded(text) == Err(InvalidUtf8) <==> !Utf8.Valid(text)
    ensures Utf8.Valid(text) && text == [] ==> Decoded(text) == Err(IncompletePacket)
    ensures Decoded(text) == Err(InvalidPacketId) <==> Utf8.Valid(text) && text != [] && !(48 <= text[0] <= 54)
    ensures Utf8.Valid(text) && text != [] && (text[0] == 53 || text[0] == 54) && DASH !in text[1..] ==>
              Decoded(text) == Err(IncompletePacket)
  {
    hide ReadCount, ReadNamespace, ReadTail, Utf8.Valid;
    if text != [] && 48 <= text[0] <= 54 {
      var k, s := KindOf(text[0]).value, text[1..];
      var none := Packet(k, [], None, None, 0, None);
      LaterErrors(k, s, none);
      if HasAttachments(k) && DASH !in s {
        NoDash(k, s);
      } else if ReadCount(k, s).Ok? {
        var (count, rest) := ReadCount(k, s).value;
        LaterErrors(k, rest, none);
        if ReadNamespace(rest).Ok? {
          var (nsp, tail) := ReadNamespace(rest).value;
          LaterErrors(k, tail, Packet(k, nsp, None, None, count, None));
        }
      }
    }
  }

  /** A namespace without a comma behind it, whether or not a good count stands before it. */
  lemma {:induction false} OpenNamespace(w: Pieces, rest: Bytes)
    requires (w.count.Some? <==> HasAttachments(w.kind)) && (w.count.Some? ==> DASH !in w.count.value)
    requires w.CountValue().Some? && Json.Starts(rest, SLASH) && COMMA !in rest
    requires Utf8.Valid(TypeDigit(w.kind) + ((if w.count.Some? then w.count.value + [DASH] else []) + rest))
    ensures Decoded(TypeDigit(w.kind) + ((if w.count.Some? then w.count.value + [DASH] else []) + rest))
         == Err(IncompletePacket)
  {
    var s := (if w.count.Some? then w.count.value + [DASH] else []) + rest;
    KindRead(w.kind, s);
    CountRead(w.(nsp := None, digits := [], body := []), rest);
  }

  /** Every text whose pieces are there fits in some way, so the cases above are all there are. */
  lemma {:induction false} EveryTextIsCut(text: Bytes) returns (w: Pieces)
    requires text != [] && 48 <= text[0] <= 54
    requires (text[0] == 53 || text[0] == 54) ==> DASH in text[1..]
    ensures (w.Fits() && w.Whole() == text)
         || (exists count: Option<Bytes>, rest: Bytes ::
               && (count.Some? <==> text[0] == 53 || text[0] == 54) && (count.Some? ==> DASH !in count.value)
               && Json.Starts(rest, SLASH) && COMMA !in rest
               && text == [text[0]] + ((if count.Some? then count.value + [DASH] else []) + rest))
  {
    hide TypeDigit, SplitOnce, LeadingDigits, AllDigits;
    var k := KindOf(text[0]).value;
    var s0 := text[1..];
    DigitOf(text);
    var count, s1 := CutCount(k, s0);
    if Json.Starts(s1, SLASH) && COMMA !in s1 {
      w := Pieces(k, count, None, [], []);
      assert text == [text[0]] + ((if count.Some? then count.value + [DASH] else []) + s1);
    } else {
      var nsp, s2 := CutNamespace(s1);
      var n := CutDigits(s2);
      w := Pieces(k, count, nsp, s2[..n], s2[n..]);
    }
  }

  lemma {:induction false} DigitOf(text: Bytes)
    requires text != [] && 48 <= text[0] <= 54
    ensures KindOf(text[0]).Some? && text == [text[0]] + text[1..]
    ensures var k := KindOf(text[0]).value;
            TypeDigit(k) == [text[0]] && (HasAttachments(k) <==> text[0] == 53 || text[0] == 54)
  {
  }

  lemma {:induction false} CutCount(k: Kind, s: Bytes) returns (count: Option<Bytes>, rest: Bytes)
    requires HasAttachments(k) ==> DASH in s
    ensures (count.Some? <==> HasAttachments(k)) && (count.Some? ==> DASH !in count.value)
    ensures s == (if count.Some? then count.value + [DASH] else []) + rest
  {
    if HasAttachments(k) {
      var cut := SplitOnce(s, DASH).value;
      count, rest := Some(cut.0), cut.1;
    } else {
      count, rest := None, s;
      assert [] + s == s;
    }
  }

  lemma {:induction false} CutNamespace(s: Bytes) returns (nsp: Option<Bytes>, rest: Bytes)
    requires Json.Starts(s, SLASH) ==> COMMA in s
    ensures nsp.Some? ==> Json.Starts(nsp.value, SLASH) && COMMA !in nsp.value
    ensures nsp.None? ==> !Json.Starts(rest, SLASH)
    ensures s == (if nsp.Some? then nsp.value + [COMMA] else []) + rest
  {
    if Json.Starts(s, SLASH) {
      var cut := SplitOnce(s, COMMA).value;
      nsp, rest := Some(cut.0), cut.1;
      assert s[0] == if cut.0 == [] then COMMA else cut.0[0];
    } else {
      nsp, rest := None, s;
      assert [] + s == s;
    }
  }

  lemma {:induction false} CutDigits(s: Bytes) returns (n: nat)
    ensures n <= |s| && AllDigits(s[..n]) && (s[n..] != [] ==> !Json.IsDigit(s[n..][0])) && s == s[..n] + s[n..]
  {
    n := LeadingDigits(s);
  }

  // ----- the data of a binary packet -----

  /** Brackets around the rest are taken off, then the placeholder, then one comma at the end. */
  lemma {:induction false} BinaryDataOf(inner: Bytes)
    requires !Proofs.Occurs(inner, Placeholder(0))
    ensures BinaryData([OPEN] + inner + [CLOSE])
         == if inner == [] || inner == [COMMA] then None
            else if inner[|inner| - 1] == COMMA then Some(inner[..|inner| - 1]) else Some(inner)
    ensures !(|inner| >= 2 && inner[0] == OPEN && inner[|inner| - 1] == CLOSE) ==>
              BinaryData(inner) == BinaryData([OPEN] + inner + [CLOSE])
  {
    Proofs.RemoveExactly(inner, Placeholder(0));
    var s := [OPEN] + inner + [CLOSE];
    assert s[1..|s| - 1] == inner && s[0] == OPEN && s[|s| - 1] == CLOSE;
    hide Remove, Proofs.Occurs, Placeholder;
  }
}
