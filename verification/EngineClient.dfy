/** The blocking Engine.IO client: packets are polled one at a time out of buffered payloads. */
module EngineClient {
  import opened Common
  import opened EngineCodec

  /** What one poll of the transport yields. */
  datatype Response = Data(bytes: Bytes) | Broken

  /**
    * What one poll of the client yields. `Starved` is the error of a transport that had
    * nothing to give before the deadline; `Panics` is the `unreachable!` of an open or pong packet.
    */
  datatype Outcome = Item(packet: Packet) | Ended | Failed(error: Error) | Starved | Panics

  /** `writes` is how many more writes the transport takes before they fail. */
  datatype State = State(
    connected: bool,
    remaining: Option<seq<Packet>>,
    responses: seq<Response>,
    pongs: nat,
    writes: nat)

  // ----- what the methods compute -----

  /** One poll of the socket. */
  function SocketPolled(st: State): (r: (Outcome, State))
    decreases |st.responses|
  {
    if !st.connected then (Ended, st)
    else if st.remaining.Some? && st.remaining.value != [] then
      (Item(st.remaining.value[0]), st.(remaining := Some(st.remaining.value[1..])))
    else if st.responses == [] then (Starved, st)
    else
      var waiting := st.(responses := st.responses[1..]);
      match st.responses[0]
      case Broken => (Failed(TransportFailure), waiting)
      case Data(b) =>
        if b == [] then SocketPolled(waiting)
        else match DecodePayload(b)
          case Err(e) => (Failed(e), waiting)
          case Ok(ps) => if ps == [] then SocketPolled(waiting) else (Item(ps[0]), waiting.(remaining := Some(ps[1..])))
  }

  /** What the client does with a packet before handing it out. */
  function Handled(r: (Outcome, State)): (Outcome, State) {
    match r.0
    case Item(p) =>
      (match p.id
       case Open => (Panics, r.1)
       case Pong => (Panics, r.1)
       case Close => (r.0, r.1.(connected := false))
       case Ping =>
         if r.1.writes == 0 then (Failed(TransportFailure), r.1)
         else (r.0, r.1.(pongs := r.1.pongs + 1, writes := r.1.writes - 1))
       case _ => r)
    case _ => r
  }

  /** One poll of the client. */
  function ClientPolled(st: State): (Outcome, State) {
    Handled(SocketPolled(st))
  }

  class Client {
    var connected: bool
    var remaining: Option<seq<Packet>>
    var responses: seq<Response>
    var pongs: nat
    var writes: nat

    constructor (writes: nat)
      ensures Value() == State(false, None, [], 0, writes)
    {
      connected, remaining, responses, pongs, this.writes := false, None, [], 0, writes;
    }

    function Value(): State
      reads this
    {
      State(connected, remaining, responses, pongs, writes)
    }

    method PollSocket() returns (r: Outcome)
      modifies this
      ensures (r, Value()) == SocketPolled(old(Value()))
    {
      while true
        invariant SocketPolled(Value()) == SocketPolled(old(Value()))
        decreases |responses|
      {
        if !connected {
          return Ended;
        }
        if remaining.Some? {
          var iter := remaining.value;
          if iter != [] {
            remaining := Some(iter[1..]);
            return Item(iter[0]);
          }
        }
        if responses == [] {
          return Starved;
        }
        var response := responses[0];
        responses := responses[1..];
        if response.Broken? {
          return Failed(TransportFailure);
        }
        if response.bytes == [] {
          continue;
        }
        var payload := DecodePayload(response.bytes);
        if payload.Err? {
          return Failed(payload.error);
        }
        var iter := payload.value;
        if iter != [] {
          remaining := Some(iter[1..]);
          return Item(iter[0]);
        }
      }
    }

    method Poll() returns (r: Outcome)
      modifies this
      ensures (r, Value()) == ClientPolled(old(Value()))
    {
      r := PollSocket();
      if r.Item? {
        match r.packet.id
        case Open => r := Panics;
        case Pong => r := Panics;
        case Close => connected := false;
        case Ping =>
          if writes == 0 {
            r := Failed(TransportFailure);
          } else {
            pongs, writes := pongs + 1, writes - 1;
          }
        case _ =>
      }
    }
  }

  // ----- the flat stream -----

  function Items(ps: seq<Packet>): (r: seq<Outcome>)
    ensures |r| == |ps| && forall i :: 0 <= i < |ps| ==> r[i] == Item(ps[i])
  {
    seq(|ps|, i requires 0 <= i < |ps| => Item(ps[i]))
  }

  /** What one response contributes: its packets, or one failure, or nothing if it is empty. */
  function Contribution(r: Response): seq<Outcome> {
    match r
    case Broken => [Failed(TransportFailure)]
    case Data(b) =>
      if b == [] then []
      else match DecodePayload(b)
        case Err(e) => [Failed(e)]
        case Ok(ps) => Items(ps)
  }

  function Flat(rs: seq<Response>): seq<Outcome> {
    if rs == [] then [] else Contribution(rs[0]) + Flat(rs[1..])
  }

  function Buffered(st: State): seq<Packet> {
    if st.remaining.Some? then st.remaining.value else []
  }

  /** Everything still to come, in order. */
  function Pending(st: State): seq<Outcome> {
    Items(Buffered(st)) + Flat(st.responses)
  }

  lemma {:induction false} FlatAppend(a: seq<Response>, b: seq<Response>)
    ensures Flat(a + b) == Flat(a) + Flat(b)
  {
    if a == [] {
      assert a + b == b;
    } else {
      assert (a + b)[1..] == a[1..] + b;
      FlatAppend(a[1..], b);
    }
  }

  /** A connected socket hands out exactly the head of the flat stream. */
  lemma {:induction false} SocketTakesHead(st: State)
    requires st.connected
    ensures var (o, after) := SocketPolled(st);
            && after == st.(remaining := after.remaining, responses := after.responses)
            && if Pending(st) == [] then o == Starved && Pending(after) == []
               else o == Pending(st)[0] && Pending(after) == Pending(st)[1..]
    decreases |st.responses|
  {
    var rest := Flat(st.responses);
    if Buffered(st) != [] {
      assert Pending(st)[1..] == Items(Buffered(st))[1..] + rest;
      assert Items(Buffered(st))[1..] == Items(Buffered(st)[1..]);
    } else {
      assert Items([]) == [];
      assert Pending(st) == rest;
      if st.responses != [] {
        var waiting := st.(responses := st.responses[1..]);
        var c := Contribution(st.responses[0]);
        assert Pending(waiting) == Flat(waiting.responses);
        assert c == [] ==> c + Flat(waiting.responses) == Flat(waiting.responses);
        if c == [] {
          SocketTakesHead(waiting);
        } else {
          assert rest[0] == c[0] && rest[1..] == c[1..] + Flat(waiting.responses);
          if c[0].Item? {
            var ps := DecodePayload(st.responses[0].bytes).value;
            assert Items(ps)[1..] == Items(ps[1..]);
          } else {
            assert c[1..] == [];
          }
        }
      }
    }
  }

  /** A disconnected socket hands out nothing and keeps what it has. */
  lemma {:induction false} ClientTakesHead(st: State)
    ensures var (o, after) := ClientPolled(st);
            && (!st.connected ==> o == Ended && after == st)
            && (st.connected && Pending(st) == [] ==> o == Starved && Pending(after) == [] && after.connected)
            && (st.connected && Pending(st) != [] ==>
                  && Pending(after) == Pending(st)[1..]
                  && o == Shown(Pending(st)[0], st.writes)
                  && after.writes == WritesAfter(Pending(st)[0], st.writes)
                  && after.connected == !Closes(Pending(st)[0]))
  {
    hide Flat, Items;
    if st.connected {
      SocketTakesHead(st);
    }
  }

  predicate Closes(o: Outcome) {
    o.Item? && o.packet.id.Close?
  }

  /** What the client's caller sees of an outcome: a ping that cannot be answered is a failure. */
  function Shown(o: Outcome, writes: nat): Outcome {
    if o.Item? && (o.packet.id.Open? || o.packet.id.Pong?) then Panics
    else if o.Item? && o.packet.id.Ping? && writes == 0 then Failed(TransportFailure)
    else o
  }

  function WritesAfter(o: Outcome, writes: nat): nat {
    if o.Item? && o.packet.id.Ping? && writes > 0 then writes - 1 else writes
  }

  // ----- whole runs -----

  /** Polls, responses arriving, and connects and disconnects in any order. */
  datatype Step = Poll | Arrive(response: Response) | SetConnected(on: bool)

  function After(st: State, step: Step): State {
    match step
    case Poll => ClientPolled(st).1
    case Arrive(r) => st.(responses := st.responses + [r])
    case SetConnected(on) => st.(connected := on)
  }

  /** What a step hands out of the flat stream. */
  function Delivered(st: State, step: Step): seq<Outcome> {
    if step.Poll? && (SocketPolled(st).0.Item? || SocketPolled(st).0.Failed?) then [SocketPolled(st).0] else []
  }

  function DeliveredOver(st: State, run: seq<Step>): seq<Outcome>
    decreases |run|
  {
    if run == [] then [] else Delivered(st, run[0]) + DeliveredOver(After(st, run[0]), run[1..])
  }

  function AfterAll(st: State, run: seq<Step>): State
    decreases |run|
  {
    if run == [] then st else AfterAll(After(st, run[0]), run[1..])
  }

  function Arrivals(run: seq<Step>): seq<Response>
    decreases |run|
  {
    if run == [] then []
    else (if run[0].Arrive? then [run[0].response] else []) + Arrivals(run[1..])
  }

  lemma {:induction false} FlatIsShown(rs: seq<Response>)
    ensures forall i :: 0 <= i < |Flat(rs)| ==> Flat(rs)[i].Item? || Flat(rs)[i].Failed?
  {
    if rs != [] {
      FlatIsShown(rs[1..]);
    }
  }

  lemma {:induction false} PendingIsShown(st: State)
    ensures forall i :: 0 <= i < |Pending(st)| ==> Pending(st)[i].Item? || Pending(st)[i].Failed?
  {
    FlatIsShown(st.responses);
  }

  lemma {:induction false} HandlingKeepsPending(r: (Outcome, State))
    ensures Pending(Handled(r).1) == Pending(r.1)
  {
    hide Flat, Items;
  }

  lemma {:induction false} PollConserves(st: State)
    ensures Delivered(st, Poll) + Pending(After(st, Poll)) == Pending(st)
  {
    HandlingKeepsPending(SocketPolled(st));
    assert !st.connected ==> SocketPolled(st) == (Ended, st);
    hide Pending, SocketPolled, Handled;
    if st.connected {
      SocketTakesHead(st);
      PendingIsShown(st);
      if Pending(st) != [] {
        assert Pending(st) == [Pending(st)[0]] + Pending(st)[1..];
      }
    }
  }

  lemma {:induction false} ArriveConserves(st: State, r: Response)
    ensures Pending(After(st, Arrive(r))) == Pending(st) + Flat([r])
  {
    hide Flat, Items;
    FlatAppend(st.responses, [r]);
    assert Items(Buffered(st)) + (Flat(st.responses) + Flat([r])) == Items(Buffered(st)) + Flat(st.responses) + Flat([r]);
  }

  lemma {:induction false} StepConserves(st: State, step: Step)
    ensures Delivered(st, step) + Pending(After(st, step)) == Pending(st) + Flat(Arrivals([step]))
  {
    assert [step][1..] == [] && Flat([]) == [];
    match step
    case Poll => PollConserves(st);
    case Arrive(r) => ArriveConserves(st, r);
    case SetConnected(on) =>
  }

  lemma {:induction false} NothingFlat()
    ensures Flat([]) == []
  {
  }

  lemma {:induction false} ArrivalsSplit(run: seq<Step>)
    requires run != []
    ensures Arrivals(run) == Arrivals([run[0]]) + Arrivals(run[1..])
  {
    assert [run[0]][1..] == [];
  }

  /** Nothing is lost, doubled or reordered over any run, disconnected polls included. */
  lemma {:induction false} NothingIsLost(st: State, run: seq<Step>)
    ensures DeliveredOver(st, run) + Pending(AfterAll(st, run)) == Pending(st) + Flat(Arrivals(run))
    decreases |run|
  {
    hide Pending, After, Delivered, Flat;
    if run == [] {
      NothingFlat();
    } else {
      var next := After(st, run[0]);
      StepConserves(st, run[0]);
      NothingIsLost(next, run[1..]);
      ArrivalsSplit(run);
      FlatAppend(Arrivals([run[0]]), Arrivals(run[1..]));
      Regroup(Delivered(st, run[0]), DeliveredOver(next, run[1..]), Pending(AfterAll(st, run)), Pending(next),
              Flat(Arrivals(run[1..])), Pending(st), Flat(Arrivals([run[0]])));
    }
  }

  lemma {:induction false} Regroup<T>(first: seq<T>, more: seq<T>, left: seq<T>, middle: seq<T>, late: seq<T>, start: seq<T>, early: seq<T>)
    requires more + left == middle + late && first + middle == start + early
    ensures first + more + left == start + (early + late)
  {
    assert first + more + left == first + (middle + late);
    assert first + (middle + late) == (first + middle) + late;
  }

  /** The pings that the polls of a run hand out to the caller. */
  function PingsShown(st: State, run: seq<Step>): nat
    decreases |run|
  {
    if run == [] then 0
    else
      (if run[0].Poll? && ClientPolled(st).0.Item? && ClientPolled(st).0.packet.id.Ping? then 1 else 0)
      + PingsShown(After(st, run[0]), run[1..])
  }

  lemma {:induction false} PongStep(st: State, step: Step)
    ensures After(st, step).pongs
         == st.pongs + if step.Poll? && ClientPolled(st).0.Item? && ClientPolled(st).0.packet.id.Ping? then 1 else 0
    ensures After(st, step).pongs + After(st, step).writes == st.pongs + st.writes
  {
    if step.Poll? && st.connected {
      SocketTakesHead(st);
      hide SocketPolled;
    }
  }

  /** Every ping handed out has been answered by exactly one pong, and only pings are; each pong takes one write. */
  lemma {:induction false} PongsAnswerPings(st: State, run: seq<Step>)
    ensures AfterAll(st, run).pongs == st.pongs + PingsShown(st, run)
    ensures AfterAll(st, run).pongs + AfterAll(st, run).writes == st.pongs + st.writes
    decreases |run|
  {
    hide After, ClientPolled;
    if run != [] {
      PongStep(st, run[0]);
      PongsAnswerPings(After(st, run[0]), run[1..]);
    }
  }

  // ----- what repeated polls show -----

  /** The outcomes that polls show until one finds nothing, and whether it then finds the end. */
  datatype View = View(seen: seq<Outcome>, ended: bool) {
    function Last(): Outcome {
      if ended then Ended else Starved
    }
  }

  function Cut(pending: seq<Outcome>, writes: nat): View {
    if pending == [] then View([], false)
    else if Closes(pending[0]) then View([pending[0]], true)
    else
      var more := Cut(pending[1..], WritesAfter(pending[0], writes));
      View([Shown(pending[0], writes)] + more.seen, more.ended)
  }

  function ViewOf(st: State): View {
    if st.connected then Cut(Pending(st), st.writes) else View([], true)
  }

  /** Polling the client is taking the next outcome of its view. */
  lemma {:induction false} PollTakesNext(st: State)
    ensures var (o, after) := ClientPolled(st);
            var v := ViewOf(st);
            if v.seen == [] then o == v.Last() && ViewOf(after) == v
            else o == v.seen[0] && ViewOf(after) == View(v.seen[1..], v.ended)
  {
    ClientTakesHead(st);
    if st.connected && Pending(st) != [] {
      var more := Cut(Pending(st)[1..], WritesAfter(Pending(st)[0], st.writes));
      assert ([Shown(Pending(st)[0], st.writes)] + more.seen)[1..] == more.seen;
    }
  }
}
