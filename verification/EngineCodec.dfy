/** Engine.IO packets and payloads (Engine.IO protocol v4, "Packet encoding" and "HTTP long-polling"). */
module EngineCodec {
  import opened Common
  import Base64

  datatype PacketId = Open | Close | Ping | Pong | Message | MessageBinary | Upgrade | Noop

  datatype Packet = Packet(id: PacketId, data: Bytes)

  const SEPARATOR: Byte := 30

  /** The byte that marks a base64 encoded message. */
  const BINARY_MARK: Byte := 98

  const ZERO: Byte := 48

  function Code(id: PacketId): (c: Byte)
    ensures c <= 6
  {
    match id
    case Open => 0
    case Close => 1
    case Ping => 2
    case Pong => 3
    case Message => 4
    case MessageBinary => 4
    case Upgrade => 5
    case Noop => 6
  }

  function ToByte(id: PacketId): Byte {
    if id.MessageBinary? then BINARY_MARK else Code(id) + ZERO
  }

  /** The conversion accepts a digit both as a character and as a number. */
  function FromByte(b: Byte): Option<PacketId> {
    match if b >= ZERO then b - ZERO else b
    case 0 => Some(Open)
    case 1 => Some(Close)
    case 2 => Some(Ping)
    case 3 => Some(Pong)
    case 4 => Some(Message)
    case 5 => Some(Upgrade)
    case 6 => Some(Noop)
    case _ => None
  }

  function DecodePacket(b: Bytes): Result<Packet, Error> {
    if b == [] then Err(IncompletePacket)
    else if b[0] == BINARY_MARK then
      match Base64.Decode(b[1..])
      case None => Err(InvalidBase64)
      case Some(data) => Ok(Packet(MessageBinary, data))
    else match FromByte(b[0])
      case None => Err(InvalidPacketId)
      case Some(id) => if |b| == 1 && id.Message? then Err(IncompletePacket) else Ok(Packet(id, b[1..]))
  }

  function EncodePacket(p: Packet): Bytes {
    [ToByte(p.id)] + if p.id.MessageBinary? then Base64.Encode(p.data) else p.data
  }

  // ----- payloads -----

  function Separators(b: Bytes): nat {
    if b == [] then 0 else (if b[0] == SEPARATOR then 1 else 0) + Separators(b[1..])
  }

  /** The stretch before the first separator. */
  function FirstPart(b: Bytes): (n: nat)
    ensures n <= |b|
    ensures n < |b| ==> b[n] == SEPARATOR
    ensures forall i :: 0 <= i < n ==> b[i] != SEPARATOR
  {
    if b == [] || b[0] == SEPARATOR then 0 else 1 + FirstPart(b[1..])
  }

  function Split(b: Bytes): (parts: seq<Bytes>)
    ensures parts != []
    decreases |b|
  {
    var n := FirstPart(b);
    if n == |b| then [b] else [b[..n]] + Split(b[n + 1..])
  }

  function Join(parts: seq<Bytes>): Bytes
    requires parts != []
  {
    if |parts| == 1 then parts[0] else parts[0] + [SEPARATOR] + Join(parts[1..])
  }

  /** Decodes part by part and stops at the first part that is refused. */
  function DecodeAll(parts: seq<Bytes>): Result<seq<Packet>, Error> {
    if parts == [] then Ok([])
    else match DecodePacket(parts[0])
      case Err(e) => Err(e)
      case Ok(p) => match DecodeAll(parts[1..])
        case Err(e) => Err(e)
        case Ok(ps) => Ok([p] + ps)
  }

  function DecodePayload(b: Bytes): Result<seq<Packet>, Error> {
    DecodeAll(Split(b))
  }

  function EncodeEach(ps: seq<Packet>): (parts: seq<Bytes>)
    ensures |parts| == |ps|
  {
    seq(|ps|, i requires 0 <= i < |ps| => EncodePacket(ps[i]))
  }

  /** What `EncodePayload` computes. */
  function Encoded(ps: seq<Packet>): Bytes
    requires ps != []
  {
    Join(EncodeEach(ps))
  }

  /** Each part followed by a separator, as the loop's buffer holds it. */
  function Terminated(parts: seq<Bytes>): Bytes {
    if parts == [] then [] else Terminated(parts[..|parts| - 1]) + parts[|parts| - 1] + [SEPARATOR]
  }

  lemma {:induction false} TerminatedShift(first: Bytes, rest: seq<Bytes>)
    ensures Terminated([first] + rest) == first + [SEPARATOR] + Terminated(rest)
  {
    var parts := [first] + rest;
    if rest == [] {
      assert parts == [first] && parts[..0] == [];
    } else {
      var n := |rest| - 1;
      assert parts[..n + 1] == [first] + rest[..n];
      TerminatedShift(first, rest[..n]);
    }
  }

  lemma {:induction false} TerminatedIsJoin(parts: seq<Bytes>)
    requires parts != []
    ensures Terminated(parts) == Join(parts) + [SEPARATOR]
  {
    assert parts == [parts[0]] + parts[1..];
    TerminatedShift(parts[0], parts[1..]);
    if |parts| > 1 {
      TerminatedIsJoin(parts[1..]);
    }
  }

  /** An empty list has no encoding: dropping its last separator panics. */
  method EncodePayload(packets: seq<Packet>) returns (buf: Bytes)
    requires packets != []
    ensures buf == Encoded(packets)
  {
    buf := [];
    var i := 0;
    ghost var parts := EncodeEach(packets);
    while i < |packets|
      invariant 0 <= i <= |packets|
      invariant buf == Terminated(parts[..i])
    {
      assert parts[..i + 1][..i] == parts[..i];
      buf := buf + EncodePacket(packets[i]);
      buf := buf + [SEPARATOR];
      i := i + 1;
    }
    assert parts[..i] == parts;
    TerminatedIsJoin(parts);
    buf := buf[..|buf| - 1];
  }

  // ----- laws -----

  /** The packets that survive a trip on their own. */
  predicate Encodable(p: Packet) {
    p.id.Message? ==> p.data != []
  }

  lemma {:induction false} PacketRoundTrip(p: Packet)
    ensures DecodePacket(EncodePacket(p)) == Ok(p) <==> Encodable(p)
  {
    assert EncodePacket(p)[1..] == if p.id.MessageBinary? then Base64.Encode(p.data) else p.data;
    if p.id.MessageBinary? {
      Base64.DecodeInvertsEncode(p.data);
    }
  }

  /** Decoding is canonical except for the numeric packet ids it also accepts. */
  lemma {:induction false} PacketCanonical(b: Bytes)
    requires DecodePacket(b).Ok?
    ensures EncodePacket(DecodePacket(b).value) == b <==> b[0] >= ZERO
  {
    assert b == [b[0]] + b[1..];
    if b[0] == BINARY_MARK {
      Base64.EncodeInvertsDecode(b[1..]);
    }
  }

  ghost predicate SeparatorFree(b: Bytes) {
    forall i :: 0 <= i < |b| ==> b[i] != SEPARATOR
  }

  lemma {:induction false} SeparatorsAdd(a: Bytes, b: Bytes)
    ensures Separators(a + b) == Separators(a) + Separators(b)
  {
    if a == [] {
      assert a + b == b;
    } else {
      assert (a + b)[1..] == a[1..] + b;
      SeparatorsAdd(a[1..], b);
    }
  }

  lemma {:induction false} NoSeparators(b: Bytes)
    ensures Separators(b) == 0 <==> SeparatorFree(b)
  {
    if b != [] {
      NoSeparators(b[1..]);
      if SeparatorFree(b[1..]) && b[0] != SEPARATOR {
        forall i | 0 <= i < |b| ensures b[i] != SEPARATOR {
          assert i > 0 ==> b[i] == b[1..][i - 1];
        }
      }
      if SeparatorFree(b) {
        forall i | 0 <= i < |b[1..]| ensures b[1..][i] != SEPARATOR {
          assert b[1..][i] == b[i + 1];
        }
      }
    }
  }

  /** Splitting cuts at every separator and loses nothing. */
  lemma {:induction false} SplitExactly(b: Bytes)
    ensures Join(Split(b)) == b
    ensures |Split(b)| == Separators(b) + 1
    ensures forall i :: 0 <= i < |Split(b)| ==> SeparatorFree(Split(b)[i])
    decreases |b|
  {
    var n := FirstPart(b);
    if n == |b| {
      NoSeparators(b);
    } else {
      SplitExactly(b[n + 1..]);
      assert b == b[..n] + [SEPARATOR] + b[n + 1..];
      NoSeparators(b[..n]);
      SeparatorsAdd(b[..n] + [SEPARATOR], b[n + 1..]);
      SeparatorsAdd(b[..n], [SEPARATOR]);
      var rest := Split(b[n + 1..]);
      assert Split(b) == [b[..n]] + rest && Split(b)[1..] == rest;
    }
  }

  /** The first separator of a text that has one behind a part free of them. */
  lemma {:induction false} FirstPartOf(part: Bytes, rest: Bytes)
    requires SeparatorFree(part)
    ensures var b := part + [SEPARATOR] + rest;
            FirstPart(b) == |part| && b[..|part|] == part && b[|part| + 1..] == rest && |part| < |b|
  {
    hide FirstPart;
    var b := part + [SEPARATOR] + rest;
    var n := FirstPart(b);
    assert b[|part|] == SEPARATOR;
    assert forall i :: 0 <= i < |part| ==> b[i] == part[i];
    assert n <= |part|;
    assert n >= |part|;
  }

  lemma {:induction false} WholePart(part: Bytes)
    requires SeparatorFree(part)
    ensures Split(part) == [part]
  {
    assert FirstPart(part) == |part|;
  }

  lemma {:induction false} SplitInvertsJoin(parts: seq<Bytes>)
    requires parts != [] && forall i :: 0 <= i < |parts| ==> SeparatorFree(parts[i])
    ensures Split(Join(parts)) == parts
  {
    hide FirstPart, SeparatorFree;
    if |parts| == 1 {
      WholePart(parts[0]);
      hide Split;
    } else {
      SplitInvertsJoin(parts[1..]);
      FirstPartOf(parts[0], Join(parts[1..]));
      assert parts == [parts[0]] + parts[1..];
    }
  }

  lemma {:induction false} JoinSeparators(parts: seq<Bytes>)
    requires parts != []
    ensures Separators(Join(parts)) >= |parts| - 1
    ensures Separators(Join(parts)) == |parts| - 1 ==> forall i :: 0 <= i < |parts| ==> Separators(parts[i]) == 0
  {
    if |parts| > 1 {
      JoinSeparators(parts[1..]);
      SeparatorsAdd(parts[0] + [SEPARATOR], Join(parts[1..]));
      SeparatorsAdd(parts[0], [SEPARATOR]);
      if Separators(Join(parts)) == |parts| - 1 {
        forall i | 0 <= i < |parts| ensures Separators(parts[i]) == 0 {
          assert i > 0 ==> parts[i] == parts[1..][i - 1];
        }
      }
    }
  }

  lemma {:induction false} DecodeAllExactly(parts: seq<Bytes>, ps: seq<Packet>)
    ensures DecodeAll(parts) == Ok(ps) <==>
              |parts| == |ps| && forall i :: 0 <= i < |ps| ==> DecodePacket(parts[i]) == Ok(ps[i])
  {
    if parts != [] && ps != [] {
      DecodeAllExactly(parts[1..], ps[1..]);
      if DecodeAll(parts) == Ok(ps) {
        forall i | 0 <= i < |ps| ensures DecodePacket(parts[i]) == Ok(ps[i]) {
          assert i > 0 ==> parts[i] == parts[1..][i - 1] && ps[i] == ps[1..][i - 1];
        }
      }
      if |parts| == |ps| && forall i :: 0 <= i < |ps| ==> DecodePacket(parts[i]) == Ok(ps[i]) {
        forall i | 0 <= i < |ps[1..]| ensures DecodePacket(parts[1..][i]) == Ok(ps[1..][i]) {
          assert parts[1..][i] == parts[i + 1] && ps[1..][i] == ps[i + 1];
        }
        assert ps == [ps[0]] + ps[1..];
      }
    }
  }

  /** The packets that survive framing: binary data is unrestricted. */
  ghost predicate Framable(p: Packet) {
    Encodable(p) && (!p.id.MessageBinary? ==> SeparatorFree(p.data))
  }

  lemma {:induction false} EncodedSeparators(p: Packet)
    ensures SeparatorFree(EncodePacket(p)) <==> p.id.MessageBinary? || SeparatorFree(p.data)
  {
    var e := EncodePacket(p);
    if p.id.MessageBinary? {
      Base64.EncodeIsPrintable(p.data);
    } else {
      assert forall i :: 0 <= i < |p.data| ==> e[i + 1] == p.data[i];
      if SeparatorFree(e) {
        forall i | 0 <= i < |p.data| ensures p.data[i] != SEPARATOR {
          assert e[i + 1] == p.data[i];
        }
      }
    }
  }

  /** Framing is undone by decoding exactly when every packet is framable. */
  lemma {:induction false} PayloadRoundTrip(ps: seq<Packet>)
    requires ps != []
    ensures DecodePayload(Encoded(ps)) == Ok(ps) <==> forall i :: 0 <= i < |ps| ==> Framable(ps[i])
  {
    var parts := EncodeEach(ps);
    if forall i :: 0 <= i < |ps| ==> Framable(ps[i]) {
      forall i | 0 <= i < |parts|
        ensures SeparatorFree(parts[i]) && DecodePacket(parts[i]) == Ok(ps[i])
      {
        assert Framable(ps[i]);
        EncodedSeparators(ps[i]);
        PacketRoundTrip(ps[i]);
      }
      SplitInvertsJoin(parts);
      DecodeAllExactly(parts, ps);
    } else if DecodePayload(Encoded(ps)) == Ok(ps) {
      DecodeAllExactly(Split(Join(parts)), ps);
      SplitExactly(Join(parts));
      JoinSeparators(parts);
      forall i | 0 <= i < |parts| ensures SeparatorFree(parts[i]) { NoSeparators(parts[i]); }
      SplitInvertsJoin(parts);
      forall i | 0 <= i < |ps| ensures Framable(ps[i]) {
        EncodedSeparators(ps[i]);
        PacketRoundTrip(ps[i]);
        assert DecodePacket(parts[i]) == Ok(ps[i]);
      }
    }
  }

  /** An accepted byte string yields one packet more than it has separators. */
  lemma {:induction false} AcceptedCount(b: Bytes)
    requires DecodePayload(b).Ok?
    ensures |DecodePayload(b).value| == Separators(b) + 1
  {
    SplitExactly(b);
    DecodeAllExactly(Split(b), DecodePayload(b).value);
  }

  // ----- the format on the wire -----

  /** The first character of each packet, as the protocol has it. */
  lemma {:induction false} WireFormat(data: Bytes)
    ensures EncodePacket(Packet(Open, data)) == Ascii("0") + data
    ensures EncodePacket(Packet(Close, data)) == Ascii("1") + data
    ensures EncodePacket(Packet(Ping, data)) == Ascii("2") + data
    ensures EncodePacket(Packet(Pong, data)) == Ascii("3") + data
    ensures EncodePacket(Packet(Message, data)) == Ascii("4") + data
    ensures EncodePacket(Packet(Upgrade, data)) == Ascii("5") + data
    ensures EncodePacket(Packet(Noop, data)) == Ascii("6") + data
    ensures EncodePacket(Packet(MessageBinary, data)) == Ascii("b") + Base64.Encode(data)
  {
  }

  /** The packets of a payload stand in order with 0x1e between them. */
  lemma {:induction false} PayloadFormat(p: Packet, ps: seq<Packet>)
    ensures Encoded([p]) == EncodePacket(p)
    ensures ps != [] ==> Encoded([p] + ps) == EncodePacket(p) + [0x1e] + Encoded(ps)
  {
    hide EncodePacket;
    assert EncodeEach([p] + ps) == [EncodePacket(p)] + EncodeEach(ps);
    assert ([EncodePacket(p)] + EncodeEach(ps))[1..] == EncodeEach(ps);
  }

  /** Which bytes are accepted as packet, and what each refusal says. */
  lemma {:induction false} RefusedExactly(b: Bytes)
    ensures DecodePacket(b) == Err(IncompletePacket) <==> b == [] || b == [52] || b == [4]
    ensures DecodePacket(b) == Err(InvalidBase64) <==>
              b != [] && b[0] == 98 && forall data :: b != [98] + Base64.Encode(data)
    ensures DecodePacket(b) == Err(InvalidPacketId) <==>
              b != [] && b[0] != 98 && !(0 <= b[0] <= 6) && !(48 <= b[0] <= 54)
    ensures b != [] && (0 <= b[0] <= 6 || 48 <= b[0] <= 54) && |b| > 1 ==> DecodePacket(b).Ok?
  {
    if b != [] && b[0] == 98 {
      assert b == [98] + b[1..];
      if DecodePacket(b).Ok? {
        Base64.EncodeInvertsDecode(b[1..]);
        assert b == [98] + Base64.Encode(DecodePacket(b).value.data);
      } else {
        forall data ensures b != [98] + Base64.Encode(data) {
          assert ([98] + Base64.Encode(data))[1..] == Base64.Encode(data);
          Base64.DecodeInvertsEncode(data);
        }
      }
    }
  }

  /** A refused payload reports the first part that is refused. */
  lemma {:induction false} FirstRefusal(parts: seq<Bytes>, e: Error)
    ensures DecodeAll(parts) == Err(e) <==>
              exists i :: 0 <= i < |parts| && DecodePacket(parts[i]) == Err(e)
                          && forall j :: 0 <= j < i ==> DecodePacket(parts[j]).Ok?
  {
    if parts != [] {
      FirstRefusal(parts[1..], e);
      if DecodePacket(parts[0]).Ok? {
        if DecodeAll(parts[1..]) == Err(e) {
          var i :| 0 <= i < |parts[1..]| && DecodePacket(parts[1..][i]) == Err(e)
                   && forall j :: 0 <= j < i ==> DecodePacket(parts[1..][j]).Ok?;
          assert DecodePacket(parts[i + 1]) == Err(e);
          forall j | 0 <= j < i + 1 ensures DecodePacket(parts[j]).Ok? {
            assert j > 0 ==> parts[j] == parts[1..][j - 1];
          }
        }
        if i :| 0 <= i < |parts| && DecodePacket(parts[i]) == Err(e) && forall j :: 0 <= j < i ==> DecodePacket(parts[j]).Ok? {
          assert DecodePacket(parts[1..][i - 1]) == Err(e);
          forall j | 0 <= j < i - 1 ensures DecodePacket(parts[1..][j]).Ok? {
            assert parts[1..][j] == parts[j + 1];
          }
        }
      } else if DecodePacket(parts[0]) == Err(e) {
        assert DecodeAll(parts) == Err(e);
      }
    }
  }

  // ----- WebSocket frames -----

  datatype Frame = TextFrame(text: Bytes) | BinaryFrame(bytes: Bytes)

  /** What the WebSocket transport writes for a packet. */
  function ToFrame(p: Packet): Frame {
    if p.id.MessageBinary? then BinaryFrame(p.data) else TextFrame(EncodePacket(p))
  }

  /** What it hands to the payload decoder for a frame: binary frames get the numeric id. */
  function FromFrame(f: Frame): Bytes {
    match f
    case TextFrame(text) => text
    case BinaryFrame(bytes) => [Code(Message)] + bytes
  }

  /** A binary frame is read with the number 4, not the figure, in front; what is sent as text is read as it is. */
  lemma {:induction false} FrameFormat(p: Packet)
    ensures p.id.MessageBinary? ==> FromFrame(ToFrame(p)) == [4] + p.data
    ensures !p.id.MessageBinary? ==> FromFrame(ToFrame(p)) == EncodePacket(p)
  {
  }

  /** A binary frame arrives as the one message it was exactly if it is non-empty and free of separators. */
  lemma {:induction false} BinaryFrameExactly(bytes: Bytes)
    ensures DecodePayload(FromFrame(BinaryFrame(bytes))) == Ok([Packet(Message, bytes)])
       <==> bytes != [] && SeparatorFree(bytes)
  {
    var b := FromFrame(BinaryFrame(bytes));
    var want := [Packet(Message, bytes)];
    assert b[1..] == bytes && forall i :: 0 <= i < |bytes| ==> b[i + 1] == bytes[i];
    DecodeAllExactly(Split(b), want);
    SplitExactly(b);
    NoSeparators(b);
    if SeparatorFree(bytes) {
      assert SeparatorFree(b);
      SplitInvertsJoin([b]);
      assert Split(b) == [b];
    } else {
      var i :| 0 <= i < |bytes| && bytes[i] == SEPARATOR;
      assert b[i + 1] == SEPARATOR;
    }
  }
}
