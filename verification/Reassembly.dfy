/** Socket.IO packets over the engine client: sent as a header and its attachments, received as one packet. */
module Reassembly {
  import opened Common
  import EngineCodec
  import Engine = EngineClient
  import Codec = SocketCodec

  /** What one poll of the Socket.IO layer gives; `Nothing` is a clean end. */
  datatype Received =
    | Received(packet: Codec.Packet)
    | Nothing
    | Refused(error: Error)
    | Starved
    | Panics

  predicate IsMessage(o: Engine.Outcome) {
    o.Item? && (o.packet.id.Message? || o.packet.id.MessageBinary?)
  }

  predicate IsControl(o: Engine.Outcome) {
    o.Item? && !IsMessage(o)
  }

  // ----- sending -----

  /** The engine packets of a packet. */
  function Frames(p: Codec.Packet): seq<EngineCodec.Packet>
    requires p.attachments.Some? ==> p.attachmentCount > 0
  {
    [EngineCodec.Packet(EngineCodec.Message, Codec.Text(p))]
    + (if p.attachments.Some? then Attached(p.attachments.value) else [])
  }

  function Attached(attachments: seq<Bytes>): (r: seq<EngineCodec.Packet>)
    ensures |r| == |attachments|
  {
    seq(|attachments|, i requires 0 <= i < |attachments| =>
      EngineCodec.Packet(EngineCodec.MessageBinary, attachments[i]))
  }

  /** The header goes first and as text, then each attachment as binary, in order. */
  lemma {:induction false} HeaderThenAttachments(p: Codec.Packet)
    requires p.attachments.Some? ==> p.attachmentCount > 0
    ensures var n := if p.attachments.Some? then |p.attachments.value| else 0;
            && |Frames(p)| == n + 1
            && Frames(p)[0] == EngineCodec.Packet(EngineCodec.Message, Codec.Text(p))
            && forall i :: 0 <= i < n ==>
                 Frames(p)[i + 1] == EngineCodec.Packet(EngineCodec.MessageBinary, p.attachments.value[i])
  {
    hide Codec.Text;
  }

  // ----- the grouping specification -----

  /** How many outcomes at the front have a property. */
  function Leading(q: seq<Engine.Outcome>, p: Engine.Outcome -> bool): (n: nat)
    ensures n <= |q|
    ensures forall i :: 0 <= i < n ==> p(q[i])
    ensures n < |q| ==> !p(q[n])
  {
    if q != [] && p(q[0]) then 1 + Leading(q[1..], p) else 0
  }

  function DataOf(q: seq<Engine.Outcome>): seq<Bytes>
    requires forall i :: 0 <= i < |q| ==> IsMessage(q[i])
  {
    seq(|q|, i requires 0 <= i < |q| && IsMessage(q[i]) => q[i].packet.data)
  }

  /** An outcome that ends a poll between groups. */
  function Stopped(o: Engine.Outcome): Received {
    match o
    case Failed(e) => Refused(e)
    case Starved => Starved
    case Panics => Panics
    case _ => Nothing
  }

  /**
    * An outcome that breaks a group. At the end of the stream the blocking client reports an
    * incomplete packet, where the asynchronous one unwraps nothing and panics.
    */
  function BrokenOff(o: Engine.Outcome, unwraps: bool): Received {
    match o
    case Item(p) => Refused(InvalidAttachmentPacketType)
    case Ended => if unwraps then Panics else Refused(IncompletePacket)
    case _ => Stopped(o)
  }

  /** The outcome of a poll at a position, or what polls show from there on. */
  function Shown(v: Engine.View, i: nat): Engine.Outcome {
    if i < |v.seen| then v.seen[i] else v.Last()
  }

  /** The first `n` messages as attachments, or what breaks the group; and how many outcomes that takes. */
  function Attachments(n: nat, v: Engine.View, unwraps: bool): (r: (Result<seq<Bytes>, Received>, nat))
    ensures r.1 <= |v.seen| && (r.0.Err? ==> !r.0.error.Received?)
  {
    var m := Leading(v.seen, IsMessage);
    if n <= m then (Ok(DataOf(v.seen[..n])), n)
    else (Err(BrokenOff(Shown(v, m), unwraps)), if m < |v.seen| then m + 1 else m)
  }

  /** One more message is one more attachment. */
  lemma {:induction false} OneMore(v: Engine.View, k: nat)
    requires k <= Leading(v.seen, IsMessage) && IsMessage(Shown(v, k))
    ensures k < Leading(v.seen, IsMessage)
    ensures DataOf(v.seen[..k + 1]) == DataOf(v.seen[..k]) + [Shown(v, k).packet.data]
  {
  }

  /** Anything else breaks a group that is still short of attachments. */
  lemma {:induction false} ShortGroup(n: nat, v: Engine.View, k: nat, unwraps: bool)
    requires k <= Leading(v.seen, IsMessage) && k < n && !IsMessage(Shown(v, k))
    ensures Attachments(n, v, unwraps) == (Err(BrokenOff(Shown(v, k), unwraps)), if k < |v.seen| then k + 1 else k)
  {
  }

  /** What a message packet opens: the group it is the header of. */
  function Group(packet: EngineCodec.Packet, v: Engine.View, unwraps: bool): (r: (Received, nat))
    ensures r.1 <= |v.seen|
  {
    match Codec.Decoded(packet.data)
    case Err(e) => (Refused(e), 0)
    case Ok(p) =>
      if p.attachmentCount == 0 then (Received(p), 0)
      else
        var (r, n) := Attachments(p.attachmentCount, v, unwraps);
        match r
        case Ok(attachments) => (Received(p.(attachments := Some(attachments))), n)
        case Err(broken) => (broken, n)
  }

  /** Skips control packets, takes one header and exactly the messages it asks for. */
  function Grouped(v: Engine.View, unwraps: bool): (r: (Received, nat))
    ensures r.1 <= |v.seen|
  {
    var i := Leading(v.seen, IsControl);
    if i == |v.seen| then (Stopped(v.Last()), i)
    else if !IsMessage(v.seen[i]) then (Stopped(v.seen[i]), i + 1)
    else
      var (r, n) := Group(v.seen[i].packet, Rest(v, i + 1), unwraps);
      (r, i + 1 + n)
  }

  lemma {:induction false} Opens(v: Engine.View, i: nat, unwraps: bool)
    requires i <= Leading(v.seen, IsControl) && IsMessage(Shown(v, i))
    ensures i < |v.seen|
    ensures var (r, n) := Group(v.seen[i].packet, Rest(v, i + 1), unwraps);
            Grouped(v, unwraps) == (r, i + 1 + n)
  {
    hide Codec.Decoded;
    assert i == Leading(v.seen, IsControl) < |v.seen|;
  }

  lemma {:induction false} Skips(v: Engine.View, i: nat)
    requires i <= Leading(v.seen, IsControl) && IsControl(Shown(v, i))
    ensures i < Leading(v.seen, IsControl) && Past(v, i) == i + 1
  {
  }

  lemma {:induction false} Stops(v: Engine.View, i: nat, unwraps: bool)
    requires i <= Leading(v.seen, IsControl) && !Shown(v, i).Item?
    ensures Grouped(v, unwraps) == (Stopped(Shown(v, i)), if i < |v.seen| then i + 1 else i)
  {
  }

  /** Where a poll at `i` leads. */
  function Past(v: Engine.View, i: nat): nat {
    if i < |v.seen| then i + 1 else i
  }

  lemma {:induction false} AtStart(v: Engine.View)
    ensures Rest(v, 0) == v
  {
  }

  lemma {:induction false} Advance(v: Engine.View, i: nat)
    requires i <= |v.seen|
    ensures Shown(Rest(v, i), 0) == Shown(v, i)
    ensures (if Rest(v, i).seen == [] then Rest(v, i) else Rest(Rest(v, i), 1)) == Rest(v, Past(v, i))
  {
  }

  /** A message at `i` behind control packets only: the poll ends with its group. */
  lemma {:induction false} TookGroup(v: Engine.View, i: nat, unwraps: bool)
    requires i <= Leading(v.seen, IsControl) && IsMessage(Shown(v, i))
    ensures i < |v.seen| && Past(v, i) == i + 1
    ensures var (r, n) := Group(Shown(v, i).packet, Rest(v, i + 1), unwraps);
            Grouped(v, unwraps) == (r, i + 1 + n) && Rest(Rest(v, i + 1), n) == Rest(v, i + 1 + n)
  {
    hide Group, Grouped;
    Opens(v, i, unwraps);
    RestOfRest(v, i + 1, Group(Shown(v, i).packet, Rest(v, i + 1), unwraps).1);
  }

  /** Anything but a packet at `i`: the poll ends with it. */
  lemma {:induction false} Halted(v: Engine.View, i: nat, unwraps: bool)
    requires i <= Leading(v.seen, IsControl) && !Shown(v, i).Item?
    ensures Grouped(v, unwraps) == (Stopped(Shown(v, i)), Past(v, i))
  {
    hide Group;
    Stops(v, i, unwraps);
  }

  function Rest(v: Engine.View, n: nat): (r: Engine.View)
    requires n <= |v.seen|
  {
    Engine.View(v.seen[n..], v.ended)
  }

  lemma {:induction false} RestOfRest(v: Engine.View, m: nat, n: nat)
    requires m + n <= |v.seen|
    ensures Rest(Rest(v, m), n) == Rest(v, m + n)
  {
    assert v.seen[m..][n..] == v.seen[m + n..];
  }

  // ----- turns of the layer -----

  /** The layer as a value; `sent` are the message frames that have been written. */
  datatype Layer = Layer(engine: Engine.State, connected: bool, sent: seq<EngineCodec.Packet>)

  /** One call on the layer, with its result. */
  datatype Turn =
    | Polled(result: Received)
    | Tried(packet: Codec.Packet, accepted: Result<(), Error>)
    | Opened(done: Result<(), Error>)
    | Shut

  function Min(a: nat, b: nat): nat {
    if a < b then a else b
  }

  /** A result that sets the flag of the layer. */
  predicate Switches(r: Received) {
    r.Received? && (r.packet.kind.Connect? || r.packet.kind.Disconnect? || r.packet.kind.ConnectError?)
  }

  /** What each call does to the layer. */
  ghost predicate Takes(l: Layer, turn: Turn, l': Layer, unwraps: bool) {
    match turn
    case Polled(r) =>
      var (want, n) := Grouped(Engine.ViewOf(l.engine), unwraps);
      && r == want && Engine.ViewOf(l'.engine) == Rest(Engine.ViewOf(l.engine), n)
      && l'.connected == (if Switches(r) then r.packet.kind.Connect? else l.connected)
      && l'.sent == l.sent
    case Tried(p, r) =>
      && (p.attachments.Some? ==> p.attachmentCount > 0)
      && l'.connected == l.connected
      && if !l.engine.connected || !l.connected then r == Err(IllegalActionBeforeOpen) && l' == l
         else
           var n := Min(l.engine.writes, |Frames(p)|);
           && r == (if n == |Frames(p)| then Ok(()) else Err(TransportFailure))
           && l'.sent == l.sent + Frames(p)[..n]
           && l'.engine == l.engine.(writes := l.engine.writes - n)
    case Opened(r) =>
      && r == (if l.engine.writes > 0 then Ok(()) else Err(TransportFailure))
      && l'.connected == (r.Ok? || l.connected) && l'.engine.connected && l'.sent == l.sent
    case Shut => !l'.connected && !l'.engine.connected && l'.sent == l.sent
  }

  /** What a turn says about the flag, if anything. */
  predicate SwitchesOn(turn: Turn) {
    match turn
    case Polled(r) => r.Received? && r.packet.kind.Connect?
    case Tried(_, _) => false
    case Opened(r) => r.Ok?
    case Shut => false
  }

  predicate SwitchesOff(turn: Turn) {
    match turn
    case Polled(r) => r.Received? && (r.packet.kind.Disconnect? || r.packet.kind.ConnectError?)
    case Tried(_, _) => false
    case Opened(_) => false
    case Shut => true
  }

  /** The layers that a list of turns leads through. */
  ghost predicate Runs(ls: seq<Layer>, turns: seq<Turn>, unwraps: bool) {
    && |ls| == |turns| + 1
    && forall i :: 0 <= i < |turns| ==> Takes(ls[i], turns[i], ls[i + 1], unwraps)
  }

  /** Nothing has switched the flag between two points of a run. */
  predicate Unswitched(turns: seq<Turn>, from: nat, to: nat) {
    forall i :: from <= i < to && i < |turns| ==> !SwitchesOn(turns[i]) && !SwitchesOff(turns[i])
  }

  lemma {:induction false} FlagStays(ls: seq<Layer>, turns: seq<Turn>, unwraps: bool, from: nat, to: nat)
    requires Runs(ls, turns, unwraps) && from <= to < |ls| && Unswitched(turns, from, to)
    ensures ls[to].connected == ls[from].connected
  {
    hide Grouped, Frames;
    if from < to {
      FlagStays(ls, turns, unwraps, from, to - 1);
      assert Takes(ls[to - 1], turns[to - 1], ls[to], unwraps);
    }
  }

  /**
    Over any run of polls, sends, connects and disconnects the last turn that switches the
    flag decides it: a received CONNECT or a successful connect sets it, a received DISCONNECT
    or CONNECT_ERROR or a call of disconnect clears it, and nothing else touches it.
    */
  lemma {:induction false} LastSwitchDecides(ls: seq<Layer>, turns: seq<Turn>, unwraps: bool, i: nat, to: nat)
    requires Runs(ls, turns, unwraps) && i < to < |ls| && Unswitched(turns, i + 1, to)
    ensures SwitchesOn(turns[i]) ==> ls[to].connected
    ensures SwitchesOff(turns[i]) ==> !ls[to].connected
    ensures Unswitched(turns, 0, to) ==> ls[to].connected == ls[0].connected
  {
    hide Grouped, Frames;
    FlagStays(ls, turns, unwraps, i + 1, to);
    assert Takes(ls[i], turns[i], ls[i + 1], unwraps);
    if Unswitched(turns, 0, to) {
      FlagStays(ls, turns, unwraps, 0, to);
    }
  }

  /** Behind a DISCONNECT, until a CONNECT or a new connection, every send is refused and writes nothing. */
  lemma {:induction false} RefusedAfterDisconnect(ls: seq<Layer>, turns: seq<Turn>, unwraps: bool, i: nat, j: nat)
    requires Runs(ls, turns, unwraps) && i < j < |turns| && turns[j].Tried?
    requires turns[i].Polled? && turns[i].result.Received? && turns[i].result.packet.kind.Disconnect?
    requires forall k :: i < k < j ==> !SwitchesOn(turns[k])
    ensures turns[j].accepted == Err(IllegalActionBeforeOpen) && ls[j + 1] == ls[j]
  {
    FlagStaysOff(ls, turns, unwraps, i + 1, j);
    assert Takes(ls[j], turns[j], ls[j + 1], unwraps);
  }

  lemma {:induction false} FlagStaysOff(ls: seq<Layer>, turns: seq<Turn>, unwraps: bool, from: nat, to: nat)
    requires Runs(ls, turns, unwraps) && 0 < from <= to < |ls| && SwitchesOff(turns[from - 1])
    requires forall k :: from <= k < to ==> !SwitchesOn(turns[k])
    ensures !ls[to].connected
  {
    hide Grouped, Frames;
    assert Takes(ls[to - 1], turns[to - 1], ls[to], unwraps);
    if from < to {
      FlagStaysOff(ls, turns, unwraps, from, to - 1);
    }
  }

  // ----- the layer itself -----

  class Socket {
    const engine: Engine.Client
    const unwraps: bool
    var connected: bool

    /** The message frames that have been written. */
    var sent: seq<EngineCodec.Packet>

    constructor (engine: Engine.Client, unwraps: bool)
      ensures this.engine == engine && this.unwraps == unwraps
      ensures !connected && sent == []
    {
      this.engine, this.unwraps := engine, unwraps;
      connected, sent := false, [];
    }

    ghost function Value(): Layer
      reads this, engine
    {
      Layer(engine.Value(), connected, sent)
    }

    /** Opens the engine, which sends a pong; only then the flag is set. */
    method Connect() returns (r: Result<(), Error>)
      modifies this`connected, engine
      ensures Takes(old(Value()), Opened(r), Value(), unwraps)
    {
      engine.connected := true;
      if engine.writes == 0 {
        return Err(TransportFailure);
      }
      engine.pongs, engine.writes := engine.pongs + 1, engine.writes - 1;
      connected := true;
      return Ok(());
    }

    /** Closes the engine, whose close packet may fail, and clears the flag. */
    method Disconnect()
      modifies this`connected, engine
      ensures Takes(old(Value()), Shut, Value(), unwraps)
    {
      if engine.connected {
        if engine.writes > 0 {
          engine.writes := engine.writes - 1;
        }
        engine.connected := false;
      }
      if connected {
        connected := false;
      }
    }

    method Emit(frame: EngineCodec.Packet) returns (ok: bool)
      modifies this`sent, engine`writes
      ensures ok == (old(engine.writes) > 0)
      ensures if ok then sent == old(sent) + [frame] && engine.writes == old(engine.writes) - 1
              else sent == old(sent) && engine.writes == old(engine.writes)
    {
      ok := engine.writes > 0;
      if ok {
        sent, engine.writes := sent + [frame], engine.writes - 1;
      }
    }

    /** The frames in order up to the first write that fails. */
    method Send(p: Codec.Packet) returns (r: Result<(), Error>)
      requires p.attachments.Some? ==> p.attachmentCount > 0
      modifies this`sent, engine`writes
      ensures Takes(old(Value()), Tried(p, r), Value(), unwraps)
    {
      hide Codec.Text;
      if !engine.connected || !connected {
        return Err(IllegalActionBeforeOpen);
      }
      var text := Codec.Encode(p);
      var header := EngineCodec.Packet(EngineCodec.Message, text);
      var ok := Emit(header);
      if !ok {
        return Err(TransportFailure);
      }
      ghost var attached := if p.attachments.Some? then Attached(p.attachments.value) else [];
      assert Frames(p) == [header] + attached;
      if p.attachments.Some? {
        ok := SendAttachments(header, p.attachments.value);
        r := if ok then Ok(()) else Err(TransportFailure);
      } else {
        r := Ok(());
      }
    }

    /** The attachments behind a header that has been written. */
    method SendAttachments(ghost header: EngineCodec.Packet, attachments: seq<Bytes>) returns (ok: bool)
      modifies this`sent, engine`writes
      ensures var n := if old(engine.writes) < |attachments| then old(engine.writes) else |attachments|;
              && sent == old(sent) + Attached(attachments)[..n]
              && engine.writes == old(engine.writes) - n
              && ok == (n == |attachments|)
    {
      ghost var frames := Attached(attachments);
      var i := 0;
      while i < |attachments|
        invariant 0 <= i <= |attachments|
        invariant sent == old(sent) + frames[..i] && engine.writes == old(engine.writes) - i
      {
        assert frames[..i + 1] == frames[..i] + [frames[i]];
        ok := Emit(EngineCodec.Packet(EngineCodec.MessageBinary, attachments[i]));
        if !ok {
          return false;
        }
        i := i + 1;
      }
      return true;
    }

    // ----- receiving -----

    /** What polls of the engine client will show. */
    ghost function View(): Engine.View
      reads engine
    {
      Engine.ViewOf(engine.Value())
    }

    /** One poll of the engine client. */
    method Next() returns (o: Engine.Outcome)
      modifies engine
      ensures var v := old(View());
              o == Shown(v, 0) && View() == if v.seen == [] then v else Rest(v, 1)
    {
      Engine.PollTakesNext(engine.Value());
      o := engine.Poll();
    }

    method ReadAttachments(count: nat) returns (r: Result<seq<Bytes>, Received>)
      modifies engine
      ensures var (want, n) := Attachments(count, old(View()), unwraps);
              r == want && View() == Rest(old(View()), n)
    {
      hide Engine.ViewOf, Leading;
      var left := count;
      var attachments: seq<Bytes> := [];
      ghost var v := View();
      while left > 0
        invariant 0 <= left <= count
        invariant |attachments| == count - left <= Leading(v.seen, IsMessage)
        invariant attachments == DataOf(v.seen[..|attachments|])
        invariant View() == Rest(v, |attachments|)
      {
        ghost var k := |attachments|;
        var next := Next();
        assert next == Shown(v, k) && View() == if k < |v.seen| then Rest(v, k + 1) else Rest(v, k);
        if IsMessage(next) {
          OneMore(v, k);
          attachments := attachments + [next.packet.data];
          left := left - 1;
        } else {
          ShortGroup(count, v, k, unwraps);
          match next {
          case Failed(e) => r := Err(Refused(e));
          case Item(_) => r := Err(Refused(InvalidAttachmentPacketType));
          case Ended => r := Err(if unwraps then Panics else Refused(IncompletePacket));
          case Starved => r := Err(Starved);
          case Panics => r := Err(Panics);
          }
          assert r == Err(BrokenOff(next, unwraps));
          return;
        }
      }
      return Ok(attachments);
    }

    method HandleEnginePacket(packet: EngineCodec.Packet) returns (r: Received)
      modifies engine
      ensures var (want, n) := Group(packet, old(View()), unwraps);
              r == want && View() == Rest(old(View()), n)
    {
      assert Rest(View(), 0) == View();
      var decoded := Codec.Decode(packet.data);
      if decoded.Err? {
        return Refused(decoded.error);
      }
      var socketPacket := decoded.value;
      if socketPacket.attachmentCount > 0 {
        var attachments := ReadAttachments(socketPacket.attachmentCount);
        if attachments.Err? {
          return attachments.error;
        }
        socketPacket := socketPacket.(attachments := Some(attachments.value));
      }
      return Received(socketPacket);
    }

    /** What a received packet does to the flag. */
    method HandleSocketioPacket(packet: Codec.Packet)
      modifies this`connected
      ensures packet.kind.Connect? ==> connected
      ensures packet.kind.Disconnect? || packet.kind.ConnectError? ==> !connected
      ensures !packet.kind.Connect? && !packet.kind.Disconnect? && !packet.kind.ConnectError? ==> connected == old(connected)
    {
      match packet.kind
      case Connect => connected := true;
      case ConnectError => connected := false;
      case Disconnect => connected := false;
      case Event =>
      case Ack =>
      case BinaryEvent =>
      case BinaryAck =>
    }

    method Poll() returns (r: Received)
      modifies this`connected, engine
      ensures Takes(old(Value()), Polled(r), Value(), unwraps)
    {
      hide Engine.ViewOf, Codec.Decoded, Group, Grouped, Leading, Rest, Shown;
      ghost var v := View();
      ghost var i := 0;
      AtStart(v);
      while true
        invariant 0 <= i <= Leading(v.seen, IsControl) <= |v.seen|
        invariant View() == Rest(v, i)
        invariant connected == old(connected)
        decreases |v.seen| - i
      {
        Advance(v, i);
        var next := Next();
        assert next == Shown(v, i) && View() == Rest(v, Past(v, i));
        if IsMessage(next) {
          r := HandleEnginePacket(next.packet);
          TookGroup(v, i, unwraps);
          if r.Received? {
            HandleSocketioPacket(r.packet);
          }
          return;
        }
        if !next.Item? {
          Halted(v, i, unwraps);
          match next {
          case Ended => r := Nothing;
          case Failed(e) => r := Refused(e);
          case Starved => r := Starved;
          case Panics => r := Panics;
          }
          assert r == Stopped(next);
          return;
        }
        Skips(v, i);
        i := i + 1;
      }
    }
  }
}
