/** Emitting with an ack, and the way of the ack back to the callback. */
module AckRoundTrip {
  import opened Common
  import opened AckTable
  import opened Reassembly
  import opened Grouping
  import opened Stack
  import Codec = SocketCodec
  import EngineCodec
  import Engine = EngineClient
  import Events
  import Json
  import JsonProofs
  import Proofs = SocketCodecProofs

  /** A client that emits: its namespace, its outstanding acks and its socket. */
  class Emitter {
    const nsp: Bytes
    const acks: OutstandingAcks
    const socket: Socket

    constructor (nsp: Bytes, acks: OutstandingAcks, socket: Socket)
      ensures this.nsp == nsp && this.acks == acks && this.socket == socket
    {
      this.nsp, this.acks, this.socket := nsp, acks, socket;
    }

    /**
      Registers the callback under the id the packet carries, and only then sends. The ack
      stays registered whether or not anything could be written.
      */
    method EmitWithAck(event: Events.Event, payload: Events.Payload, id: int, now: nat, timeout: nat, callback: nat)
      returns (r: Result<(), Error>)
      modifies acks, socket`sent, socket.engine`writes
      ensures acks.outstanding == old(acks.outstanding) + [Ack(id, now, timeout, callback)]
      ensures var p := Events.NewFromPayload(payload, event, nsp, Some(id));
              var n := if old(socket.engine.writes) < |Frames(p)| then old(socket.engine.writes) else |Frames(p)|;
              if !socket.engine.connected || !socket.connected then
                r == Err(IllegalActionBeforeOpen) && socket.sent == old(socket.sent)
              else
                && socket.sent == old(socket.sent) + Frames(p)[..n]
                && r == if n == |Frames(p)| then Ok(()) else Err(TransportFailure)
    {
      var packet := Events.NewFromPayload(payload, event, nsp, Some(id));
      var ack := Ack(id, now, timeout, callback);
      acks.Register(ack);
      r := socket.Send(packet);
    }
  }

  /** An answer that the other side gives to an emit. */
  datatype Answer = Answer(payload: Events.Payload, nsp: Bytes, id: int)

  ghost predicate Sayable(a: Answer) {
    Events.Answerable(a.payload, a.nsp, Some(a.id)) && EngineCodec.SeparatorFree(a.nsp)
  }

  function Packed(a: Answer): Codec.Packet {
    Events.AckFromPayload(a.payload, a.nsp, Some(a.id))
  }

  /** What a callback receives: the values of a text ack as one array. */
  function Heard(payload: Events.Payload): Events.Payload {
    match payload
    case Text(values) => Events.Text([Json.Arr(values)])
    case Binary(bytes) => payload
  }

  /** The packet of an answer carries exactly what the callback is to hear. */
  lemma {:induction false} AnswerPassesOn(a: Answer)
    requires Sayable(a)
    ensures PassesOn(Packed(a), Heard(a.payload)) && Packed(a).id == Some(a.id)
  {
    hide Codec.Decoded, Codec.Text, Json.Parse, Json.Print, Events.Answerable;
    Events.AckArrives(a.payload, a.nsp, Some(a.id));
  }

  lemma {:induction false} AnswerIsSendable(a: Answer)
    requires Sayable(a)
    ensures Sendable(Packed(a))
  {
    hide Json.Parse;
    match a.payload
    case Text(values) =>
      JsonProofs.PrintIsClean(Json.Arr(values));
      CleanIsFree(Packed(a).data.value);
      ArrayIsReady(values);
    case Binary(_) =>
  }

  lemma {:induction false} ArrayIsReady(values: seq<Json.Json>)
    requires forall i :: 0 <= i < |values| ==> JsonProofs.WellFormed(values[i])
    ensures Proofs.BodyReady(Json.Print(Json.Arr(values)))
  {
    JsonProofs.ParseInvertsPrint(Json.Arr(values));
    JsonProofs.PrintBegins(Json.Arr(values));
  }

  function PackedAll(answers: seq<Answer>): (ps: seq<Codec.Packet>)
    ensures |ps| == |answers| && AllPrintable(ps)
  {
    seq(|answers|, i requires 0 <= i < |answers| => Packed(answers[i]))
  }

  /**
    Text and binary acks through the whole stack: each is received with its id, and handling
    it calls every matching callback whose time is not yet up once, with the acknowledged
    payload, and no other.
    */
  lemma {:induction false} AcksReachTheirCallbacks(
      answers: seq<Answer>, chunks: seq<seq<EngineCodec.Packet>>, st: Engine.State, unwraps: bool,
      outstanding: seq<Ack>, clock: nat -> nat)
    requires forall i :: 0 <= i < |answers| ==> Sayable(answers[i])
    requires [] !in chunks && Concat(chunks) == AllFrames(PackedAll(answers)) && Awaits(st, Payloads(chunks))
    ensures var rs := Receive(Engine.ViewOf(st), unwraps, |answers|).0;
            forall i :: 0 <= i < |answers| ==>
              && rs[i].Received? && rs[i].packet.id == Some(answers[i].id)
              && (rs[i].packet.kind.Ack? || rs[i].packet.kind.BinaryAck?)
              && var acks := Matching(outstanding, answers[i].id);
              AllCalls(acks, rs[i].packet, clock)
              == TimelyCalls(acks, Heard(answers[i].payload), Some(answers[i].id), clock)
  {
    hide Sayable, Sendable, AllCalls, TimelyCalls, Matching, PassesOn;
    var ps := PackedAll(answers);
    forall i | 0 <= i < |answers|
      ensures Sendable(ps[i]) && (ps[i].kind.Ack? || ps[i].kind.BinaryAck?)
      ensures AllCalls(Matching(outstanding, answers[i].id), ps[i], clock)
           == TimelyCalls(Matching(outstanding, answers[i].id), Heard(answers[i].payload), Some(answers[i].id), clock)
    {
      AnswerIsSendable(answers[i]);
      AnswerPassesOn(answers[i]);
      AllCallsAreTimely(Matching(outstanding, answers[i].id), ps[i], Heard(answers[i].payload), clock);
    }
    PollingStack(ps, chunks, st, unwraps);
  }
}
