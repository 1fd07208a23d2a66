/**
 The asynchronous client as the object its tasks share: the fields the source updates, and
 one method for each block that the reader task or a teardown task runs between two awaits.
 */
module ClientBlocks {
  import opened Common
  import opened Lifecycle
  import DispatchList
  import Transport = TransportOwner

  predicate InAttempt(pc: ReaderPc) {
    pc.Attempt? || pc.ReconnectCallback? || pc.Creating? || pc.Installing? || pc.Backoff?
  }

  predicate InConnect(pc: ReaderPc) {
    pc.ConnectingEngine? || pc.AwaitingEngine? || pc.SendingOpen? || pc.AwaitingOpen?
  }

  class Client {
    const config: Config
    const dispatch: DispatchList.DispatchTasks
    var epoch: nat
    var reason: Reason
    var installed: nat
    var socks: seq<Sock>
    var reader: Reader
    var slot: bool
    var operation: Option<nat>
    var teardowns: seq<TeardownPc>
    ghost var trace: seq<Mark>

    ghost predicate Valid()
      reads dispatch
    {
      dispatch.Valid()
    }

    ghost function Value(): State
      reads this, dispatch
    {
      State(epoch, reason, installed, socks, reader, slot, dispatch.tasks, DispatchList.Ids(dispatch.handles),
            operation, teardowns, trace)
    }

    constructor (config: Config)
      ensures Valid() && fresh(dispatch) && Value() == Lifecycle.Start() && this.config == config
    {
      this.config := config;
      dispatch := new DispatchList.DispatchTasks();
      epoch, reason, installed := 1, Unknown, 0;
      socks := [Sock(Transport.Fresh().(connected := true), true, true)];
      reader, slot := Reader(Top, false), true;
      operation, teardowns, trace := None, [], [Connected];
    }

    // ----- dispatch tasks -----

    method SpawnDispatch(callback: Callback, terminal: bool)
      requires Valid()
      modifies dispatch
      ensures Valid()
      ensures Value() == Lifecycle.SpawnDispatch(old(Value()), callback, terminal)
    {
      dispatch.SpawnDispatch(epoch, callback, terminal);
    }

    method AbortDispatch(includeTerminal: bool)
      requires Valid()
      modifies dispatch
      ensures Valid()
      ensures Value() == Lifecycle.AbortDispatch(old(Value()), includeTerminal)
    {
      dispatch.AbortDispatch(includeTerminal);
    }

    /** The close notification carries the epoch at the time it is spawned. */
    method CallbackClose(why: CloseReason)
      requires Valid()
      modifies dispatch, this`trace
      ensures Valid()
      ensures Value() == CloseNow(old(Value()), why)
    {
      SpawnDispatch(OnClose(epoch, why), true);
      trace := trace + [Closed(epoch, why)];
    }

    // ----- the reader -----

    method Goto(pc: ReaderPc)
      modifies this`reader
      ensures Value() == At(old(Value()), pc)
    {
      reader := reader.(pc := pc);
    }

    method EndOfState()
      requires Valid()
      modifies dispatch, this`trace, this`reader
      ensures Valid()
      ensures Value() == EndStream(old(Value()))
    {
      AbortDispatch(false);
      trace := trace + [StreamEnded];
      Goto(Deciding);
    }

    /** One poll of the inner stream, which keeps the flag of its socket. */
    method PollSocket(g: nat, input: Input)
      requires Valid()
      requires g < |socks|
      modifies this, dispatch
      ensures Valid()
      ensures Value() == StreamBlock(old(Value()), g, input)
    {
      if !socks[g].open || input.EndOfStream? || input.Success? || input.Failure? {
        EndOfState();
      } else if input.StreamError? {
        Goto(GotError(g));
      } else {
        match input.kind {
          case Connect => socks := socks[g := socks[g].(connected := true)];
          case Disconnect => socks := socks[g := socks[g].(connected := false)];
          case ConnectError => socks := socks[g := socks[g].(connected := false)];
          case Event =>
          case Ack =>
        }
        assert socks == YieldPacket(old(Value()), g, input.kind, input.ours).socks;
        Goto(GotPacket(g, input.kind, input.ours));
      }
    }

    method HandleError(g: nat)
      requires Valid()
      modifies this, dispatch
      ensures Valid()
      ensures Value() == ErrorBlock(old(Value()), g)
    {
      if reason.Manual? {
        EndOfState();
        return;
      }
      SpawnDispatch(OnError, true);
      Goto(Stream(g));
    }

    method HandlePacket(g: nat, kind: PacketKind, ours: bool)
      requires Valid()
      modifies this, dispatch
      ensures Valid()
      ensures Value() == PacketBlock(old(Value()), g, kind, ours)
    {
      if reason.Manual? {
        EndOfState();
        return;
      }
      if !ours {
        Goto(Stream(g));
        return;
      }
      match kind
      case Connect =>
        Goto(SettingUnknown(g));
      case Disconnect =>
        Goto(SettingServer(g));
      case ConnectError =>
        SpawnDispatch(OnConnectError, false);
        Goto(Stream(g));
      case Event =>
        SpawnDispatch(OnEvent, false);
        Goto(Stream(g));
      case Ack =>
        SpawnDispatch(OnAck, false);
        Goto(Stream(g));
    }

    method HandleConnect(g: nat)
      requires Valid()
      modifies this, dispatch
      ensures Valid()
      ensures Value() == ConnectBlock(old(Value()), g)
    {
      reason := Unknown;
      SpawnDispatch(OnConnect, true);
      trace := trace + [ConnectSeen];
      Goto(Stream(g));
    }

    method HandleDisconnect(g: nat)
      requires Valid()
      modifies this, dispatch
      ensures Valid()
      ensures Value() == DisconnectBlock(old(Value()), g)
    {
      reason := Server;
      AbortDispatch(false);
      trace := trace + [DisconnectSeen];
      CallbackClose(IoServerDisconnect);
      Goto(Stream(g));
    }

    /** After the stream has ended: report it if nobody has, and decide whether to reconnect. */
    method Decide()
      requires Valid()
      modifies this, dispatch
      ensures Valid()
      ensures Value() == DecideBlock(config, old(Value()))
    {
      var again := false;
      match reason {
        case Unknown =>
          CallbackClose(TransportClose);
          again := config.reconnect;
        case Manual =>
        case Server =>
          again := config.reconnectOnDisconnect;
      }
      trace := trace + [Decided];
      Goto(if again then Attempt(0) else Over);
    }

    /** The head of the reconnect loop; running out of attempts leads back to the outer loop. */
    method NextAttempt(n: nat)
      modifies this`reader, this`trace
      ensures Value() == AttemptBlock(config, old(Value()), n)
    {
      var attempts := n;
      if config.maxAttempts.Some? {
        attempts := attempts + 1;
        if attempts > config.maxAttempts.value {
          trace := trace + [RoundExhausted];
          Goto(Top);
          return;
        }
      }
      Goto(ReconnectCallback(attempts));
    }

    method AttemptFails(n: nat)
      modifies this`reader, this`trace
      ensures Value() == FailAttempt(old(Value()), n)
    {
      trace := trace + [AttemptFailed];
      Goto(Backoff(n));
    }

    /** The write lock on the socket is held while the new socket is put in place. */
    method Install(n: nat)
      modifies this`reader, this`socks, this`installed
      ensures Value() == InstallBlock(old(Value()), n)
    {
      installed := |socks|;
      socks := socks + [Sock(Transport.Fresh(), false, true)];
      Goto(ConnectingEngine(n));
    }

    method StartCall(g: nat, entry: Transport.Pc) returns (call: nat)
      requires g < |socks| && Transport.IsEntry(entry)
      modifies this`socks
      ensures Value() == Lifecycle.StartCall(old(Value()), g, entry) && call == NextCall(old(Value()), g)
    {
      call := |socks[g].engine.tasks|;
      var engine := socks[g].engine;
      engine := engine.(tasks := engine.tasks + [entry]);
      socks := socks[g := socks[g].(engine := engine)];
    }

    method Result(g: nat, call: nat) returns (pc: Transport.Pc)
      ensures pc == CallOf(Value(), g, call)
    {
      pc := Transport.Cancelled;
      if g < |socks| && call < |socks[g].engine.tasks| {
        pc := socks[g].engine.tasks[call];
      }
    }

    method EngineConnected(n: nat, call: nat)
      requires installed < |socks|
      modifies this
      ensures Value() == EngineResultBlock(old(Value()), n, call)
    {
      var pc := Result(installed, call);
      if pc == Transport.EmitDone(true) {
        socks := socks[installed := socks[installed].(connected := true)];
        Goto(SendingOpen(n));
      } else {
        AttemptFails(n);
      }
    }

    method SendOpen(n: nat)
      requires installed < |socks|
      modifies this
      ensures Value() == SendOpenBlock(old(Value()), n)
    {
      if socks[installed].connected && socks[installed].engine.connected {
        var call := StartCall(installed, Transport.EmitCheck);
        Goto(AwaitingOpen(n, call));
      } else {
        AttemptFails(n);
      }
    }

    /** A session begins only when its opening packet has been sent. */
    method OpenSent(n: nat, call: nat)
      modifies this
      ensures Value() == OpenResultBlock(old(Value()), n, call)
    {
      var pc := Result(installed, call);
      if pc == Transport.EmitDone(true) {
        epoch := epoch + 1;
        trace := trace + [Connected];
        Goto(Top);
      } else {
        AttemptFails(n);
      }
    }

    /** The blocks of one attempt of the reconnect loop. */
    method Reconnect(input: Input)
      requires WellPlaced(Value()) && InAttempt(reader.pc)
      modifies this
      ensures Value() == ReaderBlock(config, old(Value()), input)
    {
      match reader.pc
      case Attempt(n) => NextAttempt(n);
      case ReconnectCallback(n) => Goto(Creating(n));
      case Creating(n) =>
        if input.Success? {
          Goto(Installing(n));
        } else {
          AttemptFails(n);
        }
      case Installing(n) => Install(n);
      case Backoff(n) => Goto(Attempt(n));
    }

    /** The blocks of `connect` on the socket just installed. */
    method Connect(input: Input)
      requires WellPlaced(Value()) && InConnect(reader.pc)
      modifies this
      ensures Value() == ReaderBlock(config, old(Value()), input)
    {
      match reader.pc
      case ConnectingEngine(n) =>
        var call := StartCall(installed, Transport.ConnectPublish);
        Goto(AwaitingEngine(n, call));
      case AwaitingEngine(n, call) => EngineConnected(n, call);
      case SendingOpen(n) => SendOpen(n);
      case AwaitingOpen(n, call) => OpenSent(n, call);
    }

    /** The block the reader task is about to run, aborted or not. */
    method PollStream(input: Input)
      requires Valid()
      requires Lifecycle.Enabled(Value(), ReaderStep(input))
      modifies this, dispatch
      ensures Valid()
      ensures Value() == Apply(config, old(Value()), ReaderStep(input))
    {
      if InAttempt(reader.pc) {
        Reconnect(input);
      } else if InConnect(reader.pc) {
        Connect(input);
      } else {
        match reader.pc
        case Top => Goto(Stream(installed));
        case Stream(g) => PollSocket(g, input);
        case GotError(g) => HandleError(g);
        case GotPacket(g, kind, ours) => HandlePacket(g, kind, ours);
        case SettingUnknown(g) => HandleConnect(g);
        case SettingServer(g) => HandleDisconnect(g);
        case Deciding => Decide();
      }
    }

    /** Dropping the reader drops the stream state it holds, which aborts its dispatch. */
    method Drop()
      requires Valid()
      requires Lifecycle.Enabled(Value(), ReaderDrop)
      modifies this, dispatch
      ensures Valid()
      ensures Value() == Apply(config, old(Value()), ReaderDrop)
    {
      if OwnsStream(reader.pc) {
        AbortDispatch(false);
      }
      Goto(Over);
    }

    // ----- teardowns -----

    method Advance(i: nat, pc: TeardownPc)
      requires i < |teardowns|
      modifies this`teardowns
      ensures Value() == Lifecycle.Goto(old(Value()), i, pc)
    {
      teardowns := teardowns[i := pc];
    }

    method TakeReader(i: nat)
      requires i < |teardowns|
      modifies this
      ensures Value() == Lifecycle.TakeReader(old(Value()), i)
    {
      if slot {
        slot := false;
        reader := reader.(aborted := true);
        Advance(i, Joining);
      } else {
        Advance(i, SendingDisconnect);
      }
    }

    method SendDisconnect(i: nat)
      requires i < |teardowns| && installed < |socks|
      modifies this
      ensures Value() == StartSend(old(Value()), i)
    {
      var g := installed;
      if socks[g].connected && socks[g].engine.connected {
        var call := StartCall(g, Transport.EmitCheck);
        Advance(i, AwaitingSend(g, call));
      } else {
        Advance(i, ClosingStream(g, NotOpen));
      }
    }

    /** The send ends, or its time is up and its future is dropped. */
    method StopSending(i: nat, g: nat, call: nat)
      requires i < |teardowns| && g < |socks|
      modifies this
      ensures Value() == FinishSend(old(Value()), i, g, call)
    {
      var pc := Result(g, call);
      var engine := socks[g].engine;
      if call < |engine.tasks| && !Transport.IsOver(engine.tasks[call]) {
        engine := Transport.Apply(engine, Transport.Cancel(call));
        socks := socks[g := socks[g].(engine := engine)];
      }
      Advance(i, ClosingStream(g, if pc == Transport.EmitDone(true) then Sent else SendFailed));
    }

    method Finish(i: nat, g: nat, call: nat, send: SendOutcome)
      requires Valid()
      requires i < |teardowns| && g < |socks|
      modifies this, dispatch
      ensures Valid()
      ensures Value() == FinishTeardown(old(Value()), i, g, call, send)
    {
      var pc := Result(g, call);
      socks := socks[g := socks[g].(connected := false)];
      AbortDispatch(true);
      operation := None;
      Advance(i, Done(pc == Transport.DiscDone(true) && send != SendFailed));
    }

    /** A call of disconnect spawns its teardown. */
    method CallDisconnect()
      modifies this`teardowns
      ensures Value() == Apply(config, old(Value()), Action.CallDisconnect)
    {
      teardowns := teardowns + [WaitingTurn];
    }

    method Disconnect(i: nat)
      requires Valid()
      requires Lifecycle.Enabled(Value(), TeardownStep(i))
      modifies this, dispatch
      ensures Valid()
      ensures Value() == Apply(config, old(Value()), TeardownStep(i))
    {
      match teardowns[i]
      case WaitingTurn =>
        operation := Some(i);
        Advance(i, SettingManual);
      case SettingManual =>
        reason := Manual;
        Advance(i, TakingReader);
      case TakingReader =>
        TakeReader(i);
      case Joining =>
        Advance(i, SendingDisconnect);
      case SendingDisconnect =>
        SendDisconnect(i);
      case AwaitingSend(g, call) =>
        StopSending(i, g, call);
      case ClosingStream(g, send) =>
        socks := socks[g := socks[g].(connected := false, open := false)];
        Advance(i, RetiringEngine(g, send));
      case RetiringEngine(g, send) =>
        var call := StartCall(g, Transport.DiscTake);
        Advance(i, AwaitingRetire(g, call, send));
      case AwaitingRetire(g, call, send) =>
        Finish(i, g, call, send);
    }
  }
}
