/** Socket.IO packets as text (Socket.IO protocol v5, "Packet encoding"). */
module SocketCodec {
  import opened Common
  import Utf8
  import Json

  datatype Kind = Connect | Disconnect | Event | Ack | ConnectError | BinaryEvent | BinaryAck

  datatype Packet = Packet(
    kind: Kind,
    nsp: Bytes,
    data: Option<Bytes>,
    id: Option<int>,
    attachmentCount: nat,
    attachments: Option<seq<Bytes>>)

  const ZERO: Byte := 48
  const DASH: Byte := 45
  const PLUS: Byte := 43
  const SLASH: Byte := 47
  const COMMA: Byte := Json.COMMA
  const OPEN: Byte := Json.OPEN_BRACKET
  const CLOSE: Byte := Json.CLOSE_BRACKET

  const ROOT: Bytes := [SLASH]
  const I32_MAX: int := 0x7FFF_FFFF
  const U8_MAX: nat := 255

  function Code(k: Kind): (c: Byte)
    ensures c <= 6
  {
    match k
    case Connect => 0
    case Disconnect => 1
    case Event => 2
    case Ack => 3
    case ConnectError => 4
    case BinaryEvent => 5
    case BinaryAck => 6
  }

  function KindOf(c: Byte): Option<Kind> {
    match c
    case 48 => Some(Connect)
    case 49 => Some(Disconnect)
    case 50 => Some(Event)
    case 51 => Some(Ack)
    case 52 => Some(ConnectError)
    case 53 => Some(BinaryEvent)
    case 54 => Some(BinaryAck)
    case _ => None
  }

  predicate IsBinary(k: Kind) {
    k.BinaryEvent? || k.BinaryAck?
  }

  // ----- numbers -----

  function Digits(n: nat): Bytes {
    if n < 10 then [ZERO + n] else Digits(n / 10) + [ZERO + n % 10]
  }

  function IntText(i: int): Bytes {
    if i < 0 then [DASH] + Digits(-i) else Digits(i)
  }

  predicate AllDigits(s: Bytes) {
    forall i :: 0 <= i < |s| ==> Json.IsDigit(s[i])
  }

  function NatOf(s: Bytes): nat
    requires AllDigits(s)
  {
    if s == [] then 0
    else
      assert Json.IsDigit(s[|s| - 1]);
      NatOf(s[..|s| - 1]) * 10 + (s[|s| - 1] - ZERO)
  }

  /** `u8` parsing, which also takes a leading plus. */
  function ParseU8(s: Bytes): Option<nat> {
    var d := if Json.Starts(s, PLUS) then s[1..] else s;
    if d != [] && AllDigits(d) && NatOf(d) <= U8_MAX then Some(NatOf(d)) else None
  }

  /** `i32` parsing of a run of digits. */
  function ParseI32(s: Bytes): Option<int>
    requires AllDigits(s)
  {
    if s != [] && NatOf(s) <= I32_MAX then Some(NatOf(s)) else None
  }

  // ----- printing -----

  /** What stands in for an attachment. */
  function Placeholder(num: nat): (r: Bytes)
    ensures r != []
  {
    Ascii("{\"_placeholder\":true,\"num\":") + Digits(num) + Ascii("}")
  }

  function Body(p: Packet): Bytes
    requires p.attachments.Some? ==> p.attachmentCount > 0
  {
    if p.attachments.Some? then
      if p.data.Some? then [OPEN] + p.data.value + [COMMA] + Placeholder(p.attachmentCount - 1) + [CLOSE]
      else [OPEN] + Placeholder(p.attachmentCount - 1) + [CLOSE]
    else if p.data.Some? then p.data.value
    else []
  }

  function CountText(p: Packet): Bytes {
    if IsBinary(p.kind) then Digits(p.attachmentCount) + [DASH] else []
  }

  function NamespaceText(p: Packet): Bytes {
    if p.nsp != ROOT then p.nsp + [COMMA] else []
  }

  function IdText(p: Packet): Bytes {
    if p.id.Some? then IntText(p.id.value) else []
  }

  /** The text of a packet's fields in front of a body. */
  function Header(p: Packet, body: Bytes): Bytes {
    [ZERO + Code(p.kind)] + (CountText(p) + (NamespaceText(p) + (IdText(p) + body)))
  }

  /** What `Encode` computes. */
  function Text(p: Packet): Bytes
    requires p.attachments.Some? ==> p.attachmentCount > 0
  {
    Header(p, Body(p))
  }

  lemma {:induction false} Nest(a: Bytes, b: Bytes, c: Bytes, d: Bytes, e: Bytes)
    ensures a + b + c + d + e == a + (b + (c + (d + e)))
  {
  }

  /** Attachments with a count of zero panic: the index of the placeholder underflows. */
  method Encode(packet: Packet) returns (buffer: Bytes)
    requires packet.attachments.Some? ==> packet.attachmentCount > 0
    ensures buffer == Text(packet)
  {
    var code := [ZERO + Code(packet.kind)];
    buffer := code;
    if IsBinary(packet.kind) {
      buffer := buffer + (Digits(packet.attachmentCount) + [DASH]);
    }
    assert buffer == code + CountText(packet);
    ghost var upToCount := buffer;
    if packet.nsp != ROOT {
      buffer := buffer + packet.nsp;
      buffer := buffer + [COMMA];
    }
    assert buffer == upToCount + NamespaceText(packet);
    ghost var upToNamespace := buffer;
    if packet.id.Some? {
      buffer := buffer + IntText(packet.id.value);
    }
    assert buffer == upToNamespace + IdText(packet);
    ghost var upToId := buffer;
    if packet.attachments.Some? {
      var num := packet.attachmentCount - 1;
      if packet.data.Some? {
        buffer := buffer + ([OPEN] + packet.data.value + [COMMA] + Placeholder(num) + [CLOSE]);
      } else {
        buffer := buffer + ([OPEN] + Placeholder(num) + [CLOSE]);
      }
    } else if packet.data.Some? {
      buffer := buffer + packet.data.value;
    }
    assert buffer == upToId + Body(packet);
    Nest(code, CountText(packet), NamespaceText(packet), IdText(packet), Body(packet));
  }

  // ----- parsing -----

  /** The text before and after the first `c`. */
  function SplitOnce(s: Bytes, c: Byte): (r: Option<(Bytes, Bytes)>)
    ensures r.Some? ==> s == r.value.0 + [c] + r.value.1 && c !in r.value.0
    ensures r.None? <==> c !in s
  {
    if s == [] then None
    else if s[0] == c then Some(([], s[1..]))
    else match SplitOnce(s[1..], c)
      case None => None
      case Some((a, b)) => Some(([s[0]] + a, b))
  }

  function LeadingDigits(s: Bytes): (n: nat)
    ensures n <= |s| && AllDigits(s[..n])
    ensures n < |s| ==> !Json.IsDigit(s[n])
  {
    if s != [] && Json.IsDigit(s[0]) then 1 + LeadingDigits(s[1..]) else 0
  }

  /** Removes every occurrence of `pat`, leftmost first. */
  function Remove(s: Bytes, pat: Bytes): Bytes
    requires pat != []
    decreases |s|
  {
    if |s| < |pat| then s
    else if s[..|pat|] == pat then Remove(s[|pat|..], pat)
    else [s[0]] + Remove(s[1..], pat)
  }

  /** What the data of a binary packet is, given the text after the id. */
  function BinaryData(s: Bytes): Option<Bytes> {
    var inner := if |s| >= 2 && s[0] == OPEN && s[|s| - 1] == CLOSE then s[1..|s| - 1] else s;
    var kept := Remove(inner, Placeholder(0));
    var data := if kept != [] && kept[|kept| - 1] == COMMA then kept[..|kept| - 1] else kept;
    if data == [] then None else Some(data)
  }

  function ReadCount(k: Kind, s: Bytes): Result<(nat, Bytes), Error> {
    if !IsBinary(k) then Ok((0, s))
    else match SplitOnce(s, DASH)
      case None => Err(IncompletePacket)
      case Some((prefix, rest)) =>
        match ParseU8(prefix)
        case None => Err(InvalidPacket)
        case Some(n) => Ok((n, rest))
  }

  function ReadNamespace(s: Bytes): Result<(Bytes, Bytes), Error> {
    if !Json.Starts(s, SLASH) then Ok((ROOT, s))
    else match SplitOnce(s, COMMA)
      case None => Err(IncompletePacket)
      case Some((prefix, rest)) => Ok((prefix, rest))
  }

  /** The id and the data; digits with nothing behind them are dropped. */
  function ReadTail(p: Packet, s: Bytes): Result<Packet, Error> {
    var n := LeadingDigits(s);
    if n == |s| then Ok(p)
    else
      var id := ParseI32(s[..n]);
      if n > 0 && id.None? then Err(InvalidPacket)
      else if !Json.IsValid(s[n..]) then Err(InvalidJson)
      else
        Ok(p.(id := if n > 0 then id else None,
              data := if IsBinary(p.kind) then BinaryData(s[n..]) else Some(s[n..])))
  }

  /** What `Decode` computes. */
  function Decoded(text: Bytes): Result<Packet, Error> {
    if !Utf8.Valid(text) then Err(InvalidUtf8)
    else if text == [] then Err(IncompletePacket)
    else match KindOf(text[0])
      case None => Err(InvalidPacketId)
      case Some(k) =>
        match ReadCount(k, text[1..])
        case Err(e) => Err(e)
        case Ok((count, afterCount)) =>
          match ReadNamespace(afterCount)
          case Err(e) => Err(e)
          case Ok((nsp, rest)) => ReadTail(Packet(k, nsp, None, None, count, None), rest)
  }

  method Decode(text: Bytes) returns (r: Result<Packet, Error>)
    ensures r == Decoded(text)
  {
    if !Utf8.Valid(text) {
      return Err(InvalidUtf8);
    }
    var packet := Packet(Event, ROOT, None, None, 0, None);
    var payload := text;
    if payload == [] {
      return Err(IncompletePacket);
    }
    var kind := KindOf(payload[0]);
    if kind.None? {
      return Err(InvalidPacketId);
    }
    packet := packet.(kind := kind.value);
    payload := payload[1..];
    if IsBinary(packet.kind) {
      var cut := SplitOnce(payload, DASH);
      if cut.None? {
        return Err(IncompletePacket);
      }
      payload := cut.value.1;
      var count := ParseU8(cut.value.0);
      if count.None? {
        return Err(InvalidPacket);
      }
      packet := packet.(attachmentCount := count.value);
    }
    if Json.Starts(payload, SLASH) {
      var cut := SplitOnce(payload, COMMA);
      if cut.None? {
        return Err(IncompletePacket);
      }
      payload := cut.value.1;
      packet := packet.(nsp := cut.value.0);
    }
    var nonDigit := LeadingDigits(payload);
    if nonDigit == |payload| {
      return Ok(packet);
    }
    if nonDigit > 0 {
      var prefix := payload[..nonDigit];
      payload := payload[nonDigit..];
      var id := ParseI32(prefix);
      if id.None? {
        return Err(InvalidPacket);
      }
      packet := packet.(id := id);
    }
    if !Json.IsValid(payload) {
      return Err(InvalidJson);
    }
    if IsBinary(packet.kind) {
      packet := packet.(data := BinaryData(payload));
    } else {
      packet := packet.(data := Some(payload));
    }
    return Ok(packet);
  }
}
