/** How received packets divide the message packets of the engine stream. */
module Grouping {
  import opened Common
  import opened Reassembly
  import Engine = EngineClient
  import EngineCodec
  import Codec = SocketCodec
  import Proofs = SocketCodecProofs

  /** The data of the message packets, in order. */
  function MessageData(q: seq<Engine.Outcome>): seq<Bytes> {
    if q == [] then []
    else (if IsMessage(q[0]) then [q[0].packet.data] else []) + MessageData(q[1..])
  }

  lemma {:induction false} MessageDataAppend(a: seq<Engine.Outcome>, b: seq<Engine.Outcome>)
    ensures MessageData(a + b) == MessageData(a) + MessageData(b)
  {
    if a == [] {
      assert a + b == b;
    } else {
      assert (a + b)[1..] == a[1..] + b;
      MessageDataAppend(a[1..], b);
    }
  }

  lemma {:induction false} NoMessageData(q: seq<Engine.Outcome>)
    requires forall i :: 0 <= i < |q| ==> !IsMessage(q[i])
    ensures MessageData(q) == []
  {
    if q != [] {
      NoMessageData(q[1..]);
    }
  }

  lemma {:induction false} AllMessageData(q: seq<Engine.Outcome>)
    requires forall i :: 0 <= i < |q| ==> IsMessage(q[i])
    ensures MessageData(q) == DataOf(q)
  {
    if q != [] {
      AllMessageData(q[1..]);
    }
  }

  /** The attachments a packet came with. */
  function Parts(p: Codec.Packet): seq<Bytes> {
    if p.attachments.Some? then p.attachments.value else []
  }

  /** A packet with this header, whose attachments are as many as the header announces. */
  ghost predicate Heads(header: Bytes, p: Codec.Packet) {
    Codec.Decoded(header) == Ok(p.(attachments := None)) && |Parts(p)| == p.attachmentCount
  }

  lemma {:induction false} AttachmentsAreMessages(n: nat, v: Engine.View, unwraps: bool)
    requires Attachments(n, v, unwraps).0.Ok?
    ensures var (r, m) := Attachments(n, v, unwraps);
            m == n == |r.value| && MessageData(v.seen[..n]) == r.value
  {
    AllMessageData(v.seen[..n]);
  }

  lemma {:induction false} NoneDecoded(text: Bytes)
    requires Codec.Decoded(text).Ok?
    ensures Codec.Decoded(text).value.attachments.None?
  {
    Proofs.Normalised(text);
  }

  lemma {:induction false} GroupParts(packet: EngineCodec.Packet, v: Engine.View, unwraps: bool)
    requires Group(packet, v, unwraps).0.Received?
    ensures var (r, n) := Group(packet, v, unwraps);
            Heads(packet.data, r.packet) && MessageData(v.seen[..n]) == Parts(r.packet)
  {
    hide Codec.Decoded, Attachments, MessageData;
    NoneDecoded(packet.data);
    var p := Codec.Decoded(packet.data).value;
    if p.attachmentCount > 0 {
      AttachmentsAreMessages(p.attachmentCount, v, unwraps);
    } else {
      assert v.seen[..0] == [];
      NoMessageData([]);
    }
  }

  /** Only a message opens a received packet. */
  lemma {:induction false} HeaderStands(v: Engine.View, unwraps: bool)
    ensures var i := Leading(v.seen, IsControl);
            Grouped(v, unwraps).0.Received? ==> i < |v.seen| && IsMessage(v.seen[i])
  {
    hide Group;
  }

  /** A received packet takes its header, exactly the messages the header asks for, and no other message. */
  lemma {:induction false} TakesItsGroup(v: Engine.View, unwraps: bool) returns (header: Bytes)
    ensures var (r, n) := Grouped(v, unwraps);
            r.Received? ==> n > 0 && Heads(header, r.packet) && MessageData(v.seen[..n]) == [header] + Parts(r.packet)
  {
    hide Codec.Decoded, Group, Grouped, Leading;
    var i := Leading(v.seen, IsControl);
    header := [];
    HeaderStands(v, unwraps);
    if Grouped(v, unwraps).0.Received? {
      var rest := Rest(v, i + 1);
      var n := Group(v.seen[i].packet, rest, unwraps).1;
      header := v.seen[i].packet.data;
      Opens(v, i, unwraps);
      GroupParts(v.seen[i].packet, rest, unwraps);
      NoMessageData(v.seen[..i]);
      StretchOf(v, i, n);
      MessageDataAppend(v.seen[..i], [v.seen[i]] + rest.seen[..n]);
      hide MessageData;
      HeaderData(v.seen[i], rest.seen[..n]);
    }
  }

  /** The stretch up to the end of a group: control packets, the header, and the rest. */
  lemma {:induction false} StretchOf(v: Engine.View, i: nat, n: nat)
    requires i + 1 + n <= |v.seen|
    ensures v.seen[..i + 1 + n] == v.seen[..i] + ([v.seen[i]] + Rest(v, i + 1).seen[..n])
  {
    var q, r := v.seen[..i + 1 + n], v.seen[..i] + ([v.seen[i]] + Rest(v, i + 1).seen[..n]);
    assert |q| == |r|;
    forall j | 0 <= j < |q| ensures q[j] == r[j] {
      assert j > i ==> r[j] == Rest(v, i + 1).seen[j - i - 1];
    }
  }

  lemma {:induction false} HeaderData(header: Engine.Outcome, q: seq<Engine.Outcome>)
    requires IsMessage(header)
    ensures MessageData([header] + q) == [header.packet.data] + MessageData(q)
  {
    assert ([header] + q)[1..] == q;
  }

  /** A group is received exactly if no control packet, failure or end falls inside it. */
  lemma {:induction false} ReceivedExactly(v: Engine.View, unwraps: bool)
    requires var i := Leading(v.seen, IsControl);
             i < |v.seen| && IsMessage(v.seen[i]) && Codec.Decoded(v.seen[i].packet.data).Ok?
    ensures var i := Leading(v.seen, IsControl);
            var n := Codec.Decoded(v.seen[i].packet.data).value.attachmentCount;
            Grouped(v, unwraps).0.Received? <==>
              i + n < |v.seen| && forall j :: i < j <= i + n ==> IsMessage(v.seen[j])
  {
    hide Codec.Decoded, Leading;
    var i := Leading(v.seen, IsControl);
    var rest := Rest(v, i + 1);
    var n := Codec.Decoded(v.seen[i].packet.data).value.attachmentCount;
    var m := Leading(rest.seen, IsMessage);
    assert forall j :: 0 <= j < |rest.seen| ==> rest.seen[j] == v.seen[i + 1 + j];
    if n <= m {
      forall j | i < j <= i + n ensures IsMessage(v.seen[j]) {
        assert rest.seen[j - i - 1] == v.seen[j];
      }
    } else if m < |rest.seen| {
      assert !IsMessage(v.seen[i + 1 + m]);
    }
  }

  /**
    What stops a group, and where: the first outcome behind the header that is not a message.
    A control packet is of the wrong type, an error is passed on, and the end of the stream
    makes the packet incomplete, or panics where it is unwrapped.
    */
  lemma {:induction false} BrokenExactly(v: Engine.View, unwraps: bool, j: nat)
    requires var i := Leading(v.seen, IsControl);
             && i < |v.seen| && IsMessage(v.seen[i]) && Codec.Decoded(v.seen[i].packet.data).Ok?
             && i < j <= i + Codec.Decoded(v.seen[i].packet.data).value.attachmentCount && j <= |v.seen|
             && (forall k :: i < k < j ==> IsMessage(v.seen[k])) && !IsMessage(Shown(v, j))
    ensures Grouped(v, unwraps).0 == match Shown(v, j)
              case Item(_) => Refused(InvalidAttachmentPacketType)
              case Failed(e) => Refused(e)
              case Ended => if unwraps then Panics else Refused(IncompletePacket)
              case Starved => Starved
              case Panics => Panics
    ensures Grouped(v, unwraps).1 == if j < |v.seen| then j + 1 else j
  {
    hide Codec.Decoded, Leading;
    var i := Leading(v.seen, IsControl);
    var rest := Rest(v, i + 1);
    var n := Codec.Decoded(v.seen[i].packet.data).value.attachmentCount;
    var m := Leading(rest.seen, IsMessage);
    assert forall k :: 0 <= k < |rest.seen| ==> rest.seen[k] == v.seen[i + 1 + k];
    assert m >= j - i - 1;
    assert m <= j - i - 1;
    Opens(v, i, unwraps);
  }

  /** A header that does not decode is the one packet taken, and its error the result. */
  lemma {:induction false} BadHeader(v: Engine.View, unwraps: bool)
    requires var i := Leading(v.seen, IsControl);
             i < |v.seen| && IsMessage(v.seen[i]) && Codec.Decoded(v.seen[i].packet.data).Err?
    ensures var i := Leading(v.seen, IsControl);
            Grouped(v, unwraps) == (Refused(Codec.Decoded(v.seen[i].packet.data).error), i + 1)
  {
    hide Codec.Decoded;
  }

  /** Between groups a clean end is nothing, and an error is passed on. */
  lemma {:induction false} BetweenGroups(v: Engine.View, unwraps: bool)
    ensures var i := Leading(v.seen, IsControl);
            !Shown(v, i).Item? ==>
              && Grouped(v, unwraps).1 == (if i < |v.seen| then i + 1 else i)
              && Grouped(v, unwraps).0 == match Shown(v, i)
                   case Failed(e) => Refused(e)
                   case Starved => Starved
                   case Panics => Panics
                   case _ => Nothing
  {
    hide Group;
  }

  /** The results of so many polls, and how many outcomes they take together. */
  function Receive(v: Engine.View, unwraps: bool, polls: nat): (r: (seq<Received>, nat))
    ensures |r.0| == polls && r.1 <= |v.seen|
    decreases polls
  {
    if polls == 0 then ([], 0)
    else
      var (first, n) := Grouped(v, unwraps);
      var (more, m) := Receive(Rest(v, n), unwraps, polls - 1);
      ([first] + more, n + m)
  }

  predicate AllReceived(rs: seq<Received>) {
    forall i :: 0 <= i < |rs| ==> rs[i].Received?
  }

  /** Headers and attachments in the order they arrive. */
  function Laid(headers: seq<Bytes>, rs: seq<Received>): seq<Bytes>
    requires |headers| == |rs| && AllReceived(rs)
  {
    if rs == [] then [] else [headers[0]] + Parts(rs[0].packet) + Laid(headers[1..], rs[1..])
  }

  /** Over any run of good polls every message consumed belongs to exactly one result, in order. */
  lemma {:induction false} MessagesArePartitioned(v: Engine.View, unwraps: bool, polls: nat) returns (headers: seq<Bytes>)
    requires AllReceived(Receive(v, unwraps, polls).0)
    ensures var (rs, n) := Receive(v, unwraps, polls);
            && |headers| == polls
            && (forall i :: 0 <= i < polls ==> Heads(headers[i], rs[i].packet))
            && MessageData(v.seen[..n]) == Laid(headers, rs)
    decreases polls
  {
    hide Codec.Decoded, Grouped;
    if polls == 0 {
      headers := [];
    } else {
      var (first, n) := Grouped(v, unwraps);
      var rest := Rest(v, n);
      var (more, m) := Receive(rest, unwraps, polls - 1);
      var rs := Receive(v, unwraps, polls).0;
      assert rs == [first] + more && rs[0] == first;
      assert forall i :: 0 <= i < |more| ==> more[i] == rs[i + 1];
      var header := TakesItsGroup(v, unwraps);
      var later := MessagesArePartitioned(rest, unwraps, polls - 1);
      headers := [header] + later;
      LaidAhead(header, first, later, more);
      SplitMessageData(v, n, m);
    }
  }

  lemma {:induction false} LaidAhead(header: Bytes, first: Received, headers: seq<Bytes>, rs: seq<Received>)
    requires first.Received? && |headers| == |rs| && AllReceived(rs)
    ensures Laid([header] + headers, [first] + rs) == [header] + Parts(first.packet) + Laid(headers, rs)
  {
    assert ([header] + headers)[1..] == headers && ([first] + rs)[1..] == rs;
  }

  lemma {:induction false} SplitMessageData(v: Engine.View, n: nat, m: nat)
    requires n + m <= |v.seen|
    ensures MessageData(v.seen[..n + m]) == MessageData(v.seen[..n]) + MessageData(Rest(v, n).seen[..m])
  {
    assert v.seen[..n + m] == v.seen[..n] + Rest(v, n).seen[..m];
    MessageDataAppend(v.seen[..n], Rest(v, n).seen[..m]);
  }
}
