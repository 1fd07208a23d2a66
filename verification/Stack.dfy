/** The whole wire stack: packets sent one after the other, framed, cut into payloads, decoded and reassembled. */
module Stack {
  import opened Common
  import opened Reassembly
  import opened Grouping
  import Codec = SocketCodec
  import EngineCodec
  import Engine = EngineClient
  import Events
  import Json
  import JsonProofs
  import Proofs = SocketCodecProofs
  import Utf8

  /**
    * The packets the stack returns unchanged: a namespace and an id the parser takes, data that
    * is JSON and not a number, and either no attachment or one behind a JSON value without the
    * text of the placeholder, such as an event literal, or behind nothing.
    */
  ghost predicate Sendable(p: Codec.Packet) {
    && Proofs.Typed(p)
    && EngineCodec.SeparatorFree(p.nsp)
    && (p.data.Some? ==> EngineCodec.SeparatorFree(p.data.value))
    && if Codec.IsBinary(p.kind) then
         && Proofs.BinaryReady(p) && |p.attachments.value| == p.attachmentCount == 1
         && (p.data.Some? ==>
               && !Proofs.Occurs(p.data.value, Codec.Placeholder(0))
               && exists v :: JsonProofs.WellFormed(v) && p.data.value == Json.Print(v))
       else p.attachments.None? && Proofs.TextReady(p)
  }

  lemma {:induction false} SendableReads(p: Codec.Packet)
    requires Sendable(p)
    ensures Codec.Decoded(Codec.Text(p)) == Ok(p.(attachments := None))
    ensures p.attachmentCount == |Parts(p)| && (p.attachments.None? <==> p.attachmentCount == 0)
  {
    if Codec.IsBinary(p.kind) {
      hide Codec.Decoded, Codec.Text, Proofs.Occurs, Codec.Placeholder;
      if p.data.Some? {
        var v :| JsonProofs.WellFormed(v) && p.data.value == Json.Print(v);
        Proofs.BinaryExactly(p, Some(v));
      } else {
        Proofs.BinaryExactly(p, None);
      }
    } else {
      Proofs.TextRoundTrip(p);
    }
  }

  // ----- header texts hold no separator -----

  lemma {:induction false} FreeAppend(a: Bytes, b: Bytes)
    requires EngineCodec.SeparatorFree(a) && EngineCodec.SeparatorFree(b)
    ensures EngineCodec.SeparatorFree(a + b)
  {
  }

  lemma {:induction false} CleanIsFree(s: Bytes)
    requires JsonProofs.IsClean(s)
    ensures EngineCodec.SeparatorFree(s)
  {
  }

  lemma {:induction false} DigitsAreFree(n: nat)
    ensures EngineCodec.SeparatorFree(Codec.Digits(n))
  {
    Proofs.DigitsRead(n);
    var d := Codec.Digits(n);
    forall i | 0 <= i < |d| ensures d[i] != EngineCodec.SEPARATOR {
      assert Json.IsDigit(d[i]);
    }
  }

  lemma {:induction false} BodyIsFree(p: Codec.Packet)
    requires p.attachments.Some? ==> p.attachmentCount > 0
    requires p.data.Some? ==> EngineCodec.SeparatorFree(p.data.value)
    ensures EngineCodec.SeparatorFree(Codec.Body(p))
  {
    if p.attachments.Some? {
      var h := Codec.Placeholder(p.attachmentCount - 1);
      assert EngineCodec.SeparatorFree(h) by {
        Proofs.PlaceholderShape(p.attachmentCount - 1);
        CleanIsFree(h);
      }
      var before := if p.data.Some? then [Codec.OPEN] + p.data.value + [Codec.COMMA] else [Codec.OPEN];
      FreeAppend(before, h);
      FreeAppend(before + h, [Codec.CLOSE]);
      assert Codec.Body(p) == before + h + [Codec.CLOSE];
    }
  }

  lemma {:induction false} TextIsFree(p: Codec.Packet)
    requires p.attachments.Some? ==> p.attachmentCount > 0
    requires EngineCodec.SeparatorFree(p.nsp) && (p.data.Some? ==> EngineCodec.SeparatorFree(p.data.value))
    ensures EngineCodec.SeparatorFree(Codec.Text(p))
  {
    var body := Codec.Body(p);
    BodyIsFree(p);
    DigitsAreFree(p.attachmentCount);
    if p.id.Some? {
      DigitsAreFree(if p.id.value < 0 then -p.id.value else p.id.value);
      if p.id.value < 0 {
        FreeAppend([Codec.DASH], Codec.Digits(-p.id.value));
      }
    }
    FreeAppend(p.nsp, [Codec.COMMA]);
    FreeAppend(Codec.Digits(p.attachmentCount), [Codec.DASH]);
    FreeAppend(Codec.IdText(p), body);
    FreeAppend(Codec.NamespaceText(p), Codec.IdText(p) + body);
    FreeAppend(Codec.CountText(p), Codec.NamespaceText(p) + (Codec.IdText(p) + body));
    FreeAppend([Codec.ZERO + Codec.Code(p.kind)],
               Codec.CountText(p) + (Codec.NamespaceText(p) + (Codec.IdText(p) + body)));
  }

  // ----- frames -----

  ghost predicate AllSendable(ps: seq<Codec.Packet>) {
    forall i :: 0 <= i < |ps| ==> Sendable(ps[i])
  }

  /** The encoder does not panic on any of them. */
  predicate AllPrintable(ps: seq<Codec.Packet>) {
    forall i :: 0 <= i < |ps| ==> ps[i].attachments.Some? ==> ps[i].attachmentCount > 0
  }

  lemma {:induction false} SendableIsPrintable(ps: seq<Codec.Packet>)
    requires AllSendable(ps)
    ensures AllPrintable(ps)
  {
  }

  /** What sending the packets in turn writes. */
  function AllFrames(ps: seq<Codec.Packet>): seq<EngineCodec.Packet>
    requires AllPrintable(ps)
  {
    if ps == [] then [] else Frames(ps[0]) + AllFrames(ps[1..])
  }

  lemma {:induction false} FramesAreFramable(p: Codec.Packet)
    requires Sendable(p)
    ensures forall i :: 0 <= i < |Frames(p)| ==> EngineCodec.Framable(Frames(p)[i])
  {
    assert EngineCodec.SeparatorFree(Codec.Text(p)) && Codec.Text(p) != [] by {
      TextIsFree(p);
    }
    assert Frames(p)[0] == EngineCodec.Packet(EngineCodec.Message, Codec.Text(p));
    hide Codec.Text;
  }

  lemma {:induction false} AllFramesAreFramable(ps: seq<Codec.Packet>)
    requires AllSendable(ps)
    ensures forall i :: 0 <= i < |AllFrames(ps)| ==> EngineCodec.Framable(AllFrames(ps)[i])
  {
    hide EngineCodec.Framable, Frames, Sendable;
    if ps != [] {
      FramesAreFramable(ps[0]);
      AllFramesAreFramable(ps[1..]);
    }
  }

  /** Message packets with the data of the frames that were sent, text or binary. */
  predicate Carries(fs: seq<EngineCodec.Packet>, sent: seq<EngineCodec.Packet>) {
    && |fs| == |sent|
    && forall i :: 0 <= i < |fs| ==> IsMessage(Engine.Item(fs[i])) && fs[i].data == sent[i].data
  }

  lemma {:induction false} GroupReads(packet: EngineCodec.Packet, v: Engine.View, unwraps: bool, p: Codec.Packet)
    requires Codec.Decoded(packet.data) == Ok(p.(attachments := None))
    requires p.attachmentCount == |Parts(p)| <= |v.seen| && (p.attachments.None? <==> p.attachmentCount == 0)
    requires forall i :: 0 <= i < |Parts(p)| ==> IsMessage(v.seen[i]) && v.seen[i].packet.data == Parts(p)[i]
    ensures Group(packet, v, unwraps) == (Received(p), |Parts(p)|)
  {
    hide Codec.Decoded;
    var n := |Parts(p)|;
    assert n <= Leading(v.seen, IsMessage);
    assert n > 0 ==> DataOf(v.seen[..n]) == Parts(p);
  }

  /** One packet comes back from its frames, whatever follows. */
  lemma {:induction false} TakesOne(v: Engine.View, unwraps: bool, p: Codec.Packet, fs: seq<EngineCodec.Packet>, rest: seq<Engine.Outcome>)
    requires Sendable(p) && Carries(fs, Frames(p)) && v.seen == Engine.Items(fs) + rest
    ensures Grouped(v, unwraps) == (Received(p), |fs|)
  {
    hide Codec.Decoded, Codec.Text, Sendable, Group;
    SendableReads(p);
    var frames := Frames(p);
    var n := |Parts(p)|;
    assert |frames| == 1 + n && frames[0].data == Codec.Text(p);
    assert v.seen[0] == Engine.Item(fs[0]);
    forall i | 0 <= i < n
      ensures IsMessage(Rest(v, 1).seen[i]) && Rest(v, 1).seen[i].packet.data == Parts(p)[i]
    {
      assert Rest(v, 1).seen[i] == Engine.Item(fs[i + 1]) && frames[i + 1].data == Parts(p)[i];
    }
    GroupReads(fs[0], Rest(v, 1), unwraps, p);
    Opens(v, 0, unwraps);
  }

  function Got(ps: seq<Codec.Packet>): (r: seq<Received>)
    ensures |r| == |ps|
  {
    seq(|ps|, i requires 0 <= i < |ps| => Received(ps[i]))
  }

  lemma {:induction false} CarriesInParts(fs: seq<EngineCodec.Packet>, first: seq<EngineCodec.Packet>, more: seq<EngineCodec.Packet>)
    requires |fs| == |first| + |more| && Carries(fs, first + more)
    ensures Carries(fs[..|first|], first)
    ensures Carries(fs[|first|..], more)
  {
    hide IsMessage;
    var n := |first|;
    forall i | 0 <= i < |more| ensures IsMessage(Engine.Item(fs[n..][i])) && fs[n..][i].data == more[i].data {
      assert fs[n..][i] == fs[n + i] && (first + more)[n + i] == more[i];
    }
    forall i | 0 <= i < n ensures IsMessage(Engine.Item(fs[..n][i])) && fs[..n][i].data == first[i].data {
      assert fs[..n][i] == fs[i] && (first + more)[i] == first[i];
    }
  }

  lemma {:induction false} ItemsInParts(v: Engine.View, fs: seq<EngineCodec.Packet>, n: nat)
    requires n <= |fs| && v.seen == Engine.Items(fs)
    ensures v.seen == Engine.Items(fs[..n]) + Engine.Items(fs[n..]) && Rest(v, n).seen == Engine.Items(fs[n..])
  {
  }

  lemma {:induction false} SplitSafely(fs: seq<EngineCodec.Packet>, first: seq<EngineCodec.Packet>, more: seq<EngineCodec.Packet>)
    requires Carries(fs, first + more)
    ensures |fs| == |first| + |more|
  {
  }

  lemma {:induction false} GotAhead(p: Codec.Packet, ps: seq<Codec.Packet>)
    ensures Got([p] + ps) == [Received(p)] + Got(ps)
  {
  }

  /** All packets come back in order from frames that carry what was sent. */
  lemma {:induction false} TakesAll(v: Engine.View, unwraps: bool, ps: seq<Codec.Packet>, fs: seq<EngineCodec.Packet>)
    requires AllSendable(ps) && Carries(fs, AllFrames(ps)) && v.seen == Engine.Items(fs)
    ensures Receive(v, unwraps, |ps|) == (Got(ps), |fs|)
    decreases ps
  {
    hide Grouped, Sendable, Frames, Carries, Got, Engine.Items, Receive;
    SendableIsPrintable(ps);
    if ps == [] {
      ReceiveNothing(v, unwraps);
      NothingCarried(fs);
    } else {
      var sent := Frames(ps[0]);
      SplitSafely(fs, sent, AllFrames(ps[1..]));
      var first, more := fs[..|sent|], fs[|sent|..];
      CarriesInParts(fs, sent, AllFrames(ps[1..]));
      ItemsInParts(v, fs, |sent|);
      TakesOne(v, unwraps, ps[0], first, Engine.Items(more));
      TakesAll(Rest(v, |first|), unwraps, ps[1..], more);
      ReceiveAhead(v, unwraps, |ps| - 1);
      assert ps == [ps[0]] + ps[1..];
      GotAhead(ps[0], ps[1..]);
    }
  }

  lemma {:induction false} ReceiveNothing(v: Engine.View, unwraps: bool)
    ensures Receive(v, unwraps, 0) == ([], 0)
  {
  }

  lemma {:induction false} ReceiveAhead(v: Engine.View, unwraps: bool, polls: nat)
    ensures var (first, n) := Grouped(v, unwraps);
            var (more, m) := Receive(Rest(v, n), unwraps, polls);
            Receive(v, unwraps, polls + 1) == ([first] + more, n + m)
  {
    hide Grouped;
  }

  lemma {:induction false} NothingCarried(fs: seq<EngineCodec.Packet>)
    ensures Carries(fs, []) ==> fs == []
    ensures Got([]) == []
  {
  }

  // ----- payloads -----

  function Concat(chunks: seq<seq<EngineCodec.Packet>>): seq<EngineCodec.Packet> {
    if chunks == [] then [] else chunks[0] + Concat(chunks[1..])
  }

  /** One response for each payload. */
  function Payloads(chunks: seq<seq<EngineCodec.Packet>>): seq<Engine.Response>
    requires [] !in chunks
  {
    if chunks == [] then []
    else
      assert chunks[0] in chunks;
      [Engine.Data(EngineCodec.Encoded(chunks[0]))] + Payloads(chunks[1..])
  }

  lemma {:induction false} PayloadContributes(chunk: seq<EngineCodec.Packet>)
    requires chunk != [] && forall i :: 0 <= i < |chunk| ==> EngineCodec.Framable(chunk[i])
    ensures Engine.Contribution(Engine.Data(EngineCodec.Encoded(chunk))) == Engine.Items(chunk)
  {
    EngineCodec.PayloadRoundTrip(chunk);
    assert EngineCodec.DecodePayload([]) == Err(IncompletePacket);
  }

  lemma {:induction false} PayloadsAreFlat(chunks: seq<seq<EngineCodec.Packet>>)
    requires [] !in chunks && forall i :: 0 <= i < |Concat(chunks)| ==> EngineCodec.Framable(Concat(chunks)[i])
    ensures Engine.Flat(Payloads(chunks)) == Engine.Items(Concat(chunks))
  {
    hide EngineCodec.Framable, EngineCodec.Encoded;
    if chunks != [] {
      var first, more := chunks[0], chunks[1..];
      assert first in chunks;
      forall i | 0 <= i < |first| ensures EngineCodec.Framable(first[i]) {
        assert Concat(chunks)[i] == first[i];
      }
      forall i | 0 <= i < |Concat(more)| ensures EngineCodec.Framable(Concat(more)[i]) {
        assert Concat(chunks)[|first| + i] == Concat(more)[i];
      }
      PayloadContributes(first);
      PayloadsAreFlat(more);
      var rs := Payloads(chunks);
      assert rs[1..] == Payloads(more);
      assert Engine.Items(Concat(chunks)) == Engine.Items(first) + Engine.Items(Concat(more));
    }
  }

  lemma {:induction false} MessagesAreSeen(q: seq<Engine.Outcome>, writes: nat)
    requires forall i :: 0 <= i < |q| ==> IsMessage(q[i])
    ensures Engine.Cut(q, writes) == Engine.View(q, false)
  {
    if q != [] {
      MessagesAreSeen(q[1..], writes);
    }
  }

  /** A connected client with nothing buffered, and these responses on their way. */
  predicate Awaits(st: Engine.State, responses: seq<Engine.Response>) {
    st.connected && Engine.Buffered(st) == [] && st.responses == responses
  }

  lemma {:induction false} SeesItems(st: Engine.State, fs: seq<EngineCodec.Packet>, sent: seq<EngineCodec.Packet>)
    requires Awaits(st, st.responses) && Engine.Flat(st.responses) == Engine.Items(fs) && Carries(fs, sent)
    ensures Engine.ViewOf(st) == Engine.View(Engine.Items(fs), false)
  {
    assert Engine.Items([]) == [];
    assert Engine.Pending(st) == Engine.Items(fs);
    MessagesAreSeen(Engine.Items(fs), st.writes);
  }

  lemma {:induction false} FramesAreMessages(ps: seq<Codec.Packet>)
    requires AllSendable(ps)
    ensures Carries(AllFrames(ps), AllFrames(ps))
  {
    hide Codec.Text, Sendable;
    if ps != [] {
      FramesAreMessages(ps[1..]);
    }
  }

  /**
    * Any list of such packets, sent in turn and cut into payloads anywhere, comes back as it
    * was from as many polls, attachments included, with nothing left over.
    */
  lemma {:induction false} PollingStack(ps: seq<Codec.Packet>, chunks: seq<seq<EngineCodec.Packet>>, st: Engine.State, unwraps: bool)
    requires AllSendable(ps) && [] !in chunks && Concat(chunks) == AllFrames(ps) && Awaits(st, Payloads(chunks))
    ensures Receive(Engine.ViewOf(st), unwraps, |ps|) == (Got(ps), |AllFrames(ps)|)
    ensures Engine.ViewOf(st) == Engine.View(Engine.Items(AllFrames(ps)), false)
  {
    hide Sendable, Frames, Grouped;
    SendableIsPrintable(ps);
    AllFramesAreFramable(ps);
    PayloadsAreFlat(chunks);
    FramesAreMessages(ps);
    SeesItems(st, AllFrames(ps), AllFrames(ps));
    TakesAll(Engine.ViewOf(st), unwraps, ps, AllFrames(ps));
  }

  // ----- WebSocket frames -----

  /** What a frame is read as: binary frames come back as plain messages. */
  function Arrived(f: EngineCodec.Packet): EngineCodec.Packet {
    if f.id.MessageBinary? then EngineCodec.Packet(EngineCodec.Message, f.data) else f
  }

  function ArrivedAll(fs: seq<EngineCodec.Packet>): (r: seq<EngineCodec.Packet>)
    ensures |r| == |fs|
  {
    seq(|fs|, i requires 0 <= i < |fs| => Arrived(fs[i]))
  }

  /** One response for each WebSocket frame. */
  function FrameResponses(fs: seq<EngineCodec.Packet>): seq<Engine.Response> {
    if fs == [] then []
    else [Engine.Data(EngineCodec.FromFrame(EngineCodec.ToFrame(fs[0])))] + FrameResponses(fs[1..])
  }

  lemma {:induction false} FrameContributes(f: EngineCodec.Packet)
    requires IsMessage(Engine.Item(f)) && f.data != [] && EngineCodec.SeparatorFree(f.data)
    ensures Engine.Contribution(Engine.Data(EngineCodec.FromFrame(EngineCodec.ToFrame(f)))) == Engine.Items([Arrived(f)])
  {
    if f.id.MessageBinary? {
      EngineCodec.BinaryFrameExactly(f.data);
    } else {
      assert EngineCodec.Encoded([f]) == EngineCodec.EncodePacket(f);
      PayloadContributes([f]);
    }
  }

  lemma {:induction false} FramesAreFlat(fs: seq<EngineCodec.Packet>)
    requires forall i :: 0 <= i < |fs| ==>
               IsMessage(Engine.Item(fs[i])) && fs[i].data != [] && EngineCodec.SeparatorFree(fs[i].data)
    ensures Engine.Flat(FrameResponses(fs)) == Engine.Items(ArrivedAll(fs))
  {
    hide EngineCodec.FromFrame, EngineCodec.ToFrame, EngineCodec.SeparatorFree, Engine.Contribution, Arrived;
    if fs != [] {
      FrameContributes(fs[0]);
      FramesAreFlat(fs[1..]);
      assert FrameResponses(fs)[1..] == FrameResponses(fs[1..]);
      assert Engine.Items(ArrivedAll(fs)) == Engine.Items([Arrived(fs[0])]) + Engine.Items(ArrivedAll(fs[1..]));
    }
  }

  /** Every attachment is non-empty and free of separators, which WebSocket frames need. */
  ghost predicate FrameReady(p: Codec.Packet) {
    forall i :: 0 <= i < |Parts(p)| ==> Parts(p)[i] != [] && EngineCodec.SeparatorFree(Parts(p)[i])
  }

  lemma {:induction false} FramesHoldData(p: Codec.Packet)
    requires Sendable(p) && FrameReady(p)
    ensures forall i :: 0 <= i < |Frames(p)| ==> Frames(p)[i].data != [] && EngineCodec.SeparatorFree(Frames(p)[i].data)
  {
    TextIsFree(p);
    var frames := Frames(p);
    assert frames[0].data == Codec.Text(p) != [];
    forall i | 0 < i < |frames| ensures frames[i].data != [] && EngineCodec.SeparatorFree(frames[i].data) {
      assert frames[i].data == Parts(p)[i - 1];
    }
  }

  lemma {:induction false} AllFramesHoldData(ps: seq<Codec.Packet>)
    requires AllSendable(ps) && forall i :: 0 <= i < |ps| ==> FrameReady(ps[i])
    ensures forall i :: 0 <= i < |AllFrames(ps)| ==>
              AllFrames(ps)[i].data != [] && EngineCodec.SeparatorFree(AllFrames(ps)[i].data)
  {
    hide Sendable, FrameReady, Frames, EngineCodec.SeparatorFree;
    if ps != [] {
      FramesHoldData(ps[0]);
      AllFramesHoldData(ps[1..]);
    }
  }

  /** The same over WebSocket frames, one response each. */
  lemma {:induction false} WebSocketStack(ps: seq<Codec.Packet>, st: Engine.State, unwraps: bool)
    requires AllSendable(ps) && forall i :: 0 <= i < |ps| ==> FrameReady(ps[i])
    requires Awaits(st, FrameResponses(AllFrames(ps)))
    ensures Receive(Engine.ViewOf(st), unwraps, |ps|) == (Got(ps), |AllFrames(ps)|)
    ensures |Engine.ViewOf(st).seen| == |AllFrames(ps)| && !Engine.ViewOf(st).ended
  {
    hide Sendable, FrameReady, Frames, Grouped;
    SendableIsPrintable(ps);
    var fs := AllFrames(ps);
    AllFramesHoldData(ps);
    FramesAreMessages(ps);
    FramesAreFlat(fs);
    assert Carries(ArrivedAll(fs), fs);
    SeesItems(st, ArrivedAll(fs), fs);
    TakesAll(Engine.ViewOf(st), unwraps, ps, ArrivedAll(fs));
  }

  // ----- from emit to callback -----

  /** One call of emit. */
  datatype Emission = Emission(event: Events.Event, payload: Events.Payload, nsp: Bytes, id: Option<int>)

  function Built(c: Emission): Codec.Packet {
    Events.NewFromPayload(c.payload, c.event, c.nsp, c.id)
  }

  /** The calls whose event arrives as it was emitted. */
  ghost predicate Canonical(c: Emission) {
    && EngineCodec.SeparatorFree(c.nsp)
    && (c.event.Custom? ==> !Events.IsReserved(c.event.name))
    && match c.payload
       case Text(values) => Events.Emittable(c.event, values, c.nsp, c.id) && values != [] && !c.event.Connect?
       case Binary(_) =>
         && Events.Emittable(c.event, [], c.nsp, c.id) && c.id.None?
         && (c.event.Custom? ==> forall i :: 0 <= i < |c.event.name| ==> !Json.MustEscape(c.event.name[i]))
  }

  function Dispatched(p: Codec.Packet): Events.Delivery {
    match p.kind
    case Event => Events.HandleEvent(p)
    case BinaryEvent => Events.HandleBinaryEvent(p)
    case _ => Events.Nothing
  }

  /** A binary emit with an ack id is tagged as an ack, and no handler of events ever sees it. */
  lemma {:induction false} BinaryEmitWithId(c: Emission)
    requires c.payload.Binary?
    ensures Built(c).kind == if c.id.Some? then Codec.BinaryAck else Codec.BinaryEvent
    ensures c.id.Some? ==> Dispatched(Built(c)) == Events.Nothing
  {
    hide Json.Print;
  }

  lemma {:induction false} BuiltIsSendable(c: Emission)
    requires Canonical(c)
    ensures Sendable(Built(c))
  {
    var p := Built(c);
    match c.payload
    case Text(values) =>
      var contents := [Json.Str(Events.AsStr(c.event))] + values;
      JsonProofs.PrintIsClean(Json.Arr(contents));
      CleanIsFree(p.data.value);
      JsonProofs.ParseInvertsPrint(Json.Arr(contents));
      JsonProofs.PrintBegins(Json.Arr(contents));
    case Binary(_) =>
      var name := Events.IntoString(c.event);
      if c.event.Connect? {
        Utf8.AsciiIsValid(name);
      }
      JsonProofs.PrintStringClean(name);
      CleanIsFree(p.data.value);
      Proofs.EventLiteralIsFree(name);
      assert JsonProofs.WellFormed(Json.Str(name)) && p.data.value == Json.Print(Json.Str(name));
  }

  lemma {:induction false} BuiltIsDispatched(c: Emission)
    requires Canonical(c)
    ensures Dispatched(Built(c)) == Events.Deliver(c.event, c.payload, c.id)
  {
    hide Codec.Decoded, Codec.Text, Events.HandleEvent, Events.HandleBinaryEvent, Events.IsReserved, Json.Print, Events.Emittable;
    match c.payload
    case Text(values) => Events.TextDelivery(c.event, values, c.nsp, c.id);
    case Binary(bytes) => Events.BinaryDelivery(c.event, bytes, c.nsp);
  }

  function BuiltAll(calls: seq<Emission>): (ps: seq<Codec.Packet>)
    ensures |ps| == |calls| && AllPrintable(ps)
  {
    seq(|calls|, i requires 0 <= i < |calls| => Built(calls[i]))
  }

  /** Every canonical emit reaches the callback of the other side with its event, payload and id, in order. */
  lemma {:induction false} EmitsAreDelivered(calls: seq<Emission>, chunks: seq<seq<EngineCodec.Packet>>, st: Engine.State, unwraps: bool)
    requires forall i :: 0 <= i < |calls| ==> Canonical(calls[i])
    requires [] !in chunks && Concat(chunks) == AllFrames(BuiltAll(calls)) && Awaits(st, Payloads(chunks))
    ensures var rs := Receive(Engine.ViewOf(st), unwraps, |calls|).0;
            forall i :: 0 <= i < |calls| ==>
              && rs[i].Received?
              && Dispatched(rs[i].packet) == Events.Deliver(calls[i].event, calls[i].payload, calls[i].id)
  {
    hide Canonical, Sendable, Dispatched;
    var ps := BuiltAll(calls);
    forall i | 0 <= i < |calls|
      ensures Sendable(ps[i])
      ensures Dispatched(ps[i]) == Events.Deliver(calls[i].event, calls[i].payload, calls[i].id)
    {
      BuiltIsSendable(calls[i]);
      BuiltIsDispatched(calls[i]);
    }
    PollingStack(ps, chunks, st, unwraps);
  }
}
