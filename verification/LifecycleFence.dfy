/** The disconnect fence: what holds once a teardown has completed. */
module LifecycleFence {
  import opened Common
  import opened Lifecycle
  import Transport = TransportOwner
  import TransportProofs = TransportOwnerProofs

  /** A teardown that holds the operation lock. */
  predicate IsActive(pc: TeardownPc) {
    !pc.WaitingTurn? && !pc.Done?
  }

  /** A teardown that has joined the reader, or found no reader to join. */
  predicate HasJoined(pc: TeardownPc) {
    !pc.WaitingTurn? && !pc.SettingManual? && !pc.TakingReader? && !pc.Joining?
  }

  /** The socket a teardown is working on once it has one. */
  function SocketOf(pc: TeardownPc): Option<nat> {
    match pc
    case AwaitingSend(g, _) => Some(g)
    case ClosingStream(g, _) => Some(g)
    case RetiringEngine(g, _) => Some(g)
    case AwaitingRetire(g, _, _) => Some(g)
    case _ => None
  }

  ghost predicate PlaceInv(s: State) {
    && IsSocket(s, s.installed)
    && (s.reader.pc.Stream? ==> IsSocket(s, s.reader.pc.g))
    && (s.reader.pc.GotError? ==> IsSocket(s, s.reader.pc.g))
    && (s.reader.pc.GotPacket? ==> IsSocket(s, s.reader.pc.g))
    && (s.reader.pc.SettingUnknown? ==> IsSocket(s, s.reader.pc.g))
    && (s.reader.pc.SettingServer? ==> IsSocket(s, s.reader.pc.g))
  }

  ghost predicate OperationInv(s: State) {
    && (s.operation.Some? ==> s.operation.value < |s.teardowns|)
    && (forall i: nat :: i < |s.teardowns| ==> (IsActive(s.teardowns[i]) <==> s.operation == Some(i)))
  }

  ghost predicate ReaderInv(s: State) {
    && (s.reader.aborted <==> !s.slot)
    && (!s.slot ==> s.reader.pc.Over? || (s.operation.Some? && s.operation.value < |s.teardowns|
                                          && s.teardowns[s.operation.value].Joining?))
    && (forall i: nat :: i < |s.teardowns| && s.teardowns[i].Joining? ==> !s.slot)
    && (forall i: nat :: i < |s.teardowns| && HasJoined(s.teardowns[i]) ==> !s.slot && s.reader.pc.Over?)
  }

  ghost predicate WorkInv(s: State) {
    forall i: nat :: i < |s.teardowns| && SocketOf(s.teardowns[i]).Some? ==>
      SocketOf(s.teardowns[i]) == Some(s.installed)
  }

  /** The engine of every socket obeys the transport owner's invariant. */
  ghost predicate EngineInv(s: State) {
    forall g: nat :: g < |s.socks| ==> TransportProofs.Inv(s.socks[g].engine)
  }

  /** A detached retiring call is a disconnect that nobody cancels. */
  ghost predicate DetachedInv(s: State) {
    forall i: nat :: i < |s.teardowns| && s.teardowns[i].AwaitingRetire? && IsSocket(s, s.teardowns[i].g) ==>
      var pc := CallOf(s, s.teardowns[i].g, s.teardowns[i].call);
      pc.DiscTake? || TransportProofs.PastTake(pc)
  }

  /** What a completed teardown has established. */
  ghost predicate TornDown(s: State) {
    && !s.slot && s.reader.pc.Over?
    && IsSocket(s, s.installed)
    && !s.socks[s.installed].connected
    && s.socks[s.installed].engine.closing
    && !s.socks[s.installed].engine.present
    && !s.socks[s.installed].engine.connected
    && (forall id: nat :: id < |s.tasks| ==> !s.tasks[id].status.Live?)
  }

  ghost predicate SomeDone(s: State) {
    exists i: nat :: i < |s.teardowns| && s.teardowns[i].Done?
  }

  ghost predicate TrackedInv(s: State) {
    && (forall id :: id in s.tracked ==> id < |s.tasks|)
    && (forall id: nat :: id < |s.tasks| && s.tasks[id].status.Live? ==> id in s.tracked)
  }

  ghost predicate Inv(s: State) {
    && PlaceInv(s) && OperationInv(s) && ReaderInv(s) && WorkInv(s)
    && EngineInv(s) && DetachedInv(s) && TrackedInv(s)
    && (SomeDone(s) ==> TornDown(s))
  }

  // ----- frames -----

  /** A reader block moves the reader to a place whose socket exists. */
  lemma {:induction false} ReaderBlockPlaced(c: Config, s: State, input: Input)
    requires PlaceInv(s) && WellPlaced(s)
    ensures PlaceInv(ReaderBlock(c, s, input))
  {
    hide SpawnDispatch, AbortDispatch;
    match s.reader.pc
    case Stream(g) => match input { case StreamError => case Packet(_, _) => case _ => }
    case GotPacket(g, kind, ours) => match kind { case Connect => case Disconnect => case _ => }
    case Deciding => match s.reason { case Unknown => case Manual => case Server => }
    case _ =>
  }

  /** A teardown block leaves the reader's place and the installed socket alone. */
  lemma {:induction false} TeardownBlockFrame(s: State, i: nat)
    requires TeardownPlaced(s, i)
    ensures var s' := TeardownBlock(s, i);
            && s'.reader.pc == s.reader.pc && s'.installed == s.installed && s'.epoch == s.epoch
            && s'.trace == s.trace && |s'.socks| == |s.socks| && |s'.tasks| == |s.tasks|
  {
    hide SpawnDispatch, AbortDispatch;
    match s.teardowns[i]
    case AwaitingSend(g, call) =>
    case _ =>
  }

  lemma {:induction false} PlacePreserved(c: Config, s: State, a: Action)
    requires PlaceInv(s) && Enabled(s, a)
    ensures PlaceInv(Apply(c, s, a))
  {
    hide SpawnDispatch, AbortDispatch;
    match a
    case ReaderStep(input) => ReaderBlockPlaced(c, s, input);
    case TeardownStep(i) => TeardownBlockFrame(s, i);
    case _ =>
  }

  lemma {:induction false} OperationKeptByTeardown(s: State, i: nat)
    requires OperationInv(s) && TeardownPlaced(s, i) && TeardownReady(s, i)
    ensures OperationInv(TeardownBlock(s, i))
  {
    hide SpawnDispatch, AbortDispatch, Transport.Apply, Transport.IsOver, MaySend;
    assert s.teardowns[i].WaitingTurn? || s.operation == Some(i);
  }

  lemma {:induction false} OperationPreserved(c: Config, s: State, a: Action)
    requires OperationInv(s) && Enabled(s, a)
    ensures OperationInv(Apply(c, s, a))
  {
    hide ReaderBlock, TeardownBlock, SpawnDispatch, AbortDispatch, Transport.Apply, Transport.IsOver, MaySend;
    match a
    case TeardownStep(i) => OperationKeptByTeardown(s, i);
    case _ =>
  }

  lemma {:induction false} ReaderPreserved(c: Config, s: State, a: Action)
    requires OperationInv(s) && ReaderInv(s) && Enabled(s, a)
    ensures ReaderInv(Apply(c, s, a))
  {
    hide SpawnDispatch, AbortDispatch;
  }

  lemma {:induction false} WorkPreserved(c: Config, s: State, a: Action)
    requires ReaderInv(s) && WorkInv(s) && Enabled(s, a)
    ensures WorkInv(Apply(c, s, a))
  {
    hide ReaderBlock, SpawnDispatch, AbortDispatch;
  }

  // ----- the transport owners -----

  lemma {:induction false} FreshEngine()
    ensures TransportProofs.Inv(Transport.Fresh())
    ensures TransportProofs.Inv(Transport.Fresh().(connected := true))
  {
  }

  lemma {:induction false} EngineSet(s: State, g: nat, sock: Sock)
    requires EngineInv(s) && IsSocket(s, g) && TransportProofs.Inv(sock.engine)
    ensures EngineInv(SetSock(s, g, sock))
  {
  }

  lemma {:induction false} EngineMoved(s: State, g: nat, e: Transport.Action)
    requires EngineInv(s) && IsSocket(s, g) && Transport.Enabled(s.socks[g].engine, e)
    ensures EngineInv(SetSock(s, g, s.socks[g].(engine := Transport.Apply(s.socks[g].engine, e))))
  {
    TransportProofs.InvPreserved(s.socks[g].engine, e);
    EngineSet(s, g, s.socks[g].(engine := Transport.Apply(s.socks[g].engine, e)));
  }

  /** The entry of the call, if any, that the next reader block starts. */
  function StartedByReader(s: State): Option<Transport.Pc> {
    match s.reader.pc
    case ConnectingEngine(_) => Some(Transport.ConnectPublish)
    case SendingOpen(_) => if MaySend(s) then Some(Transport.EmitCheck) else None
    case _ => None
  }

  /** What a reader block does to the transport owners. */
  lemma {:induction false} ReaderBlockEngines(c: Config, s: State, input: Input, g: nat)
    requires WellPlaced(s) && g < |ReaderBlock(c, s, input).socks|
    ensures var e := ReaderBlock(c, s, input).socks[g].engine;
            if g >= |s.socks| then e == Transport.Fresh()
            else if g == s.installed && StartedByReader(s).Some?
              then e == Transport.Apply(s.socks[g].engine, Transport.Spawn(StartedByReader(s).value))
            else e == s.socks[g].engine
  {
    hide SpawnDispatch, AbortDispatch;
    match s.reader.pc
    case Stream(h) => match input { case StreamError => case Packet(_, _) => case _ => }
    case GotPacket(h, kind, ours) => match kind { case Connect => case Disconnect => case _ => }
    case Deciding => match s.reason { case Unknown => case Manual => case Server => }
    case _ =>
  }

  lemma {:induction false} EngineKeptByReader(c: Config, s: State, input: Input)
    requires EngineInv(s) && WellPlaced(s)
    ensures EngineInv(ReaderBlock(c, s, input))
  {
    forall g: nat | g < |ReaderBlock(c, s, input).socks|
      ensures TransportProofs.Inv(ReaderBlock(c, s, input).socks[g].engine)
    {
      ReaderBlockEngines(c, s, input, g);
      FreshEngine();
      if g == s.installed && StartedByReader(s).Some? {
        TransportProofs.InvPreserved(s.socks[g].engine, Transport.Spawn(StartedByReader(s).value));
      }
    }
  }

  lemma {:induction false} EngineKeptByTeardown(s: State, i: nat)
    requires EngineInv(s) && TeardownPlaced(s, i)
    ensures EngineInv(TeardownBlock(s, i))
  {
    match s.teardowns[i]
    case SendingDisconnect => EngineMoved(s, s.installed, Transport.Spawn(Transport.EmitCheck));
    case RetiringEngine(g, _) => EngineMoved(s, g, Transport.Spawn(Transport.DiscTake));
    case AwaitingSend(g, call) =>
      if Transport.Enabled(s.socks[g].engine, Transport.Cancel(call)) {
        EngineMoved(s, g, Transport.Cancel(call));
      }
    case _ =>
  }

  lemma {:induction false} EnginePreserved(c: Config, s: State, a: Action)
    requires EngineInv(s) && Enabled(s, a)
    ensures EngineInv(Apply(c, s, a))
  {
    match a
    case ReaderStep(input) => EngineKeptByReader(c, s, input);
    case TeardownStep(i) => EngineKeptByTeardown(s, i);
    case EngineStep(g, e) => EngineMoved(s, g, e);
    case _ =>
  }

  // ----- the detached call -----

  predicate IsRetiring(pc: Transport.Pc) {
    pc.DiscTake? || TransportProofs.PastTake(pc)
  }

  /** Only a cancellation ends a disconnect before its last block. */
  lemma {:induction false} RetiringGoesOn(e: Transport.State, a: Transport.Action, call: nat)
    requires Transport.Enabled(e, a) && call < |e.tasks| && IsRetiring(e.tasks[call])
    requires a != Transport.Cancel(call)
    ensures call < |Transport.Apply(e, a).tasks| && IsRetiring(Transport.Apply(e, a).tasks[call])
  {
  }

  /** A step of one engine that does not cancel the call keeps it going. */
  lemma {:induction false} CallGoesOn(s: State, g: nat, e: Transport.Action, h: nat, call: nat)
    requires IsSocket(s, g) && Transport.Enabled(s.socks[g].engine, e)
    requires IsSocket(s, h) && IsRetiring(CallOf(s, h, call))
    requires g == h ==> e != Transport.Cancel(call)
    ensures var s' := SetSock(s, g, s.socks[g].(engine := Transport.Apply(s.socks[g].engine, e)));
            IsRetiring(CallOf(s', h, call))
  {
    if g == h {
      RetiringGoesOn(s.socks[g].engine, e, call);
    }
  }

  lemma {:induction false} CallKeptByReader(c: Config, s: State, input: Input, h: nat, call: nat)
    requires WellPlaced(s) && IsSocket(s, h) && IsRetiring(CallOf(s, h, call))
    ensures IsRetiring(CallOf(ReaderBlock(c, s, input), h, call))
  {
    ReaderBlockEngines(c, s, input, h);
  }

  lemma {:induction false} DetachedKeptByReader(c: Config, s: State, input: Input)
    requires DetachedInv(s) && WorkInv(s) && WellPlaced(s)
    requires forall i: nat :: i < |s.teardowns| && s.teardowns[i].AwaitingRetire? ==> IsSocket(s, s.teardowns[i].g)
    ensures DetachedInv(ReaderBlock(c, s, input))
  {
    hide ReaderBlock;
    var s' := ReaderBlock(c, s, input);
    forall i: nat | i < |s'.teardowns| && s'.teardowns[i].AwaitingRetire? && IsSocket(s', s'.teardowns[i].g)
      ensures IsRetiring(CallOf(s', s'.teardowns[i].g, s'.teardowns[i].call))
    {
      CallKeptByReader(c, s, input, s.teardowns[i].g, s.teardowns[i].call);
    }
  }

  lemma {:induction false} DetachedKeptByEngine(s: State, g: nat, e: Transport.Action)
    requires DetachedInv(s) && IsSocket(s, g) && Transport.Enabled(s.socks[g].engine, e)
    requires e.Cancel? ==> !IsDetached(s, g, e.task)
    ensures DetachedInv(SetSock(s, g, s.socks[g].(engine := Transport.Apply(s.socks[g].engine, e))))
  {
    hide Transport.Apply;
    forall i: nat | i < |s.teardowns| && s.teardowns[i].AwaitingRetire? && IsSocket(s, s.teardowns[i].g)
      ensures var s' := SetSock(s, g, s.socks[g].(engine := Transport.Apply(s.socks[g].engine, e)));
              IsRetiring(CallOf(s', s'.teardowns[i].g, s'.teardowns[i].call))
    {
      CallGoesOn(s, g, e, s.teardowns[i].g, s.teardowns[i].call);
    }
  }

  lemma {:induction false} DetachedKeptByTeardown(s: State, j: nat)
    requires OperationInv(s) && DetachedInv(s) && TeardownPlaced(s, j) && TeardownReady(s, j)
    ensures DetachedInv(TeardownBlock(s, j))
  {
    var s' := TeardownBlock(s, j);
    forall i: nat | i < |s'.teardowns| && s'.teardowns[i].AwaitingRetire? && IsSocket(s', s'.teardowns[i].g)
      ensures IsRetiring(CallOf(s', s'.teardowns[i].g, s'.teardowns[i].call))
    {
      assert IsActive(s'.teardowns[i]);
    }
  }

  lemma {:induction false} DetachedPreserved(c: Config, s: State, a: Action)
    requires OperationInv(s) && DetachedInv(s) && PlaceInv(s) && WorkInv(s) && Enabled(s, a)
    ensures DetachedInv(Apply(c, s, a))
  {
    hide ReaderBlock, TeardownBlock;
    match a
    case ReaderStep(input) => DetachedKeptByReader(c, s, input);
    case EngineStep(g, e) => DetachedKeptByEngine(s, g, e);
    case TeardownStep(j) => DetachedKeptByTeardown(s, j);
    case _ =>
  }

  // ----- dispatch handles -----

  lemma {:induction false} AbortKeepsTracked(s: State, includeTerminal: bool)
    requires TrackedInv(s)
    ensures var s' := AbortDispatch(s, includeTerminal);
            && TrackedInv(s')
            && forall id: nat :: id < |s'.tasks| && s'.tasks[id].status.Live? ==>
                 !includeTerminal && s.tasks[id].terminal && s'.tasks[id] == s.tasks[id]
  {
  }

  lemma {:induction false} SpawnKeepsTracked(s: State, callback: Callback, terminal: bool)
    requires TrackedInv(s)
    ensures TrackedInv(SpawnDispatch(s, callback, terminal))
  {
  }

  lemma {:induction false} TrackedKeptByPacket(s: State, g: nat, kind: PacketKind, ours: bool)
    requires TrackedInv(s)
    ensures TrackedInv(PacketBlock(s, g, kind, ours))
  {
    AbortKeepsTracked(s, false);
    match kind
    case ConnectError => SpawnKeepsTracked(s, OnConnectError, false);
    case Event => SpawnKeepsTracked(s, OnEvent, false);
    case Ack => SpawnKeepsTracked(s, OnAck, false);
    case _ =>
  }

  lemma {:induction false} TrackedKeptByClose(s: State, reason: CloseReason)
    requires TrackedInv(s)
    ensures TrackedInv(CloseNow(s, reason))
  {
    SpawnKeepsTracked(s, OnClose(s.epoch, reason), true);
  }

  /** Away from the stream only a decision spawns anything. */
  lemma {:induction false} OtherBlocksKeepTasks(c: Config, s: State, input: Input)
    requires WellPlaced(s) && !OwnsStream(s.reader.pc) && !s.reader.pc.Deciding?
    ensures var s' := ReaderBlock(c, s, input); s'.tasks == s.tasks && s'.tracked == s.tracked
  {
    hide SpawnDispatch, AbortDispatch, StreamBlock, PacketBlock, ErrorBlock, ConnectBlock, DisconnectBlock,
         DecideBlock, Transport.Apply, Transport.IsOver, Transport.Fresh, MaySend, CallOf;
  }

  lemma {:induction false} TrackedKeptByStream(c: Config, s: State, input: Input)
    requires TrackedInv(s) && WellPlaced(s) && OwnsStream(s.reader.pc)
    ensures TrackedInv(ReaderBlock(c, s, input))
  {
    match s.reader.pc
    case Stream(g) =>
      assert TrackedInv(EndStream(s)) by { AbortKeepsTracked(s, false); }
      match input { case StreamError => case Packet(_, _) => case _ => }
    case GotError(g) =>
      assert TrackedInv(EndStream(s)) by { AbortKeepsTracked(s, false); }
      SpawnKeepsTracked(s, OnError, true);
    case GotPacket(g, kind, ours) => TrackedKeptByPacket(s, g, kind, ours);
    case SettingUnknown(g) => SpawnKeepsTracked(s.(reason := Unknown), OnConnect, true);
    case SettingServer(g) =>
      AbortKeepsTracked(s.(reason := Server), false);
      TrackedKeptByClose(Mark1(AbortDispatch(s.(reason := Server), false), DisconnectSeen), IoServerDisconnect);
  }

  lemma {:induction false} TrackedKeptByReader(c: Config, s: State, input: Input)
    requires TrackedInv(s) && WellPlaced(s)
    ensures TrackedInv(ReaderBlock(c, s, input))
  {
    if OwnsStream(s.reader.pc) {
      TrackedKeptByStream(c, s, input);
    } else if s.reader.pc.Deciding? {
      TrackedKeptByClose(s, TransportClose);
    } else {
      OtherBlocksKeepTasks(c, s, input);
    }
  }

  lemma {:induction false} TrackedPreserved(c: Config, s: State, a: Action)
    requires TrackedInv(s) && Enabled(s, a)
    ensures TrackedInv(Apply(c, s, a))
  {
    match a
    case ReaderStep(input) => TrackedKeptByReader(c, s, input);
    case ReaderDrop => AbortKeepsTracked(s, false);
    case TeardownStep(i) =>
      match s.teardowns[i] {
        case AwaitingRetire(g, call, send) =>
          AbortKeepsTracked(SetSock(s, g, s.socks[g].(connected := false)), true);
        case _ =>
      }
    case _ =>
  }

  // ----- what a completed teardown leaves behind -----

  lemma {:induction false} FinishTearsDown(s: State, i: nat, g: nat, call: nat, send: SendOutcome)
    requires PlaceInv(s) && ReaderInv(s) && WorkInv(s) && EngineInv(s) && DetachedInv(s) && TrackedInv(s)
    requires i < |s.teardowns| && s.teardowns[i] == AwaitingRetire(g, call, send) && IsSocket(s, g)
    requires Transport.IsOver(CallOf(s, g, call))
    ensures TornDown(FinishTeardown(s, i, g, call, send))
  {
    assert g == s.installed && HasJoined(s.teardowns[i]);
    assert s.socks[g].engine.tasks[call].DiscDone?;
    assert TransportProofs.Inv(s.socks[g].engine);
    AbortKeepsTracked(SetSock(s, g, s.socks[g].(connected := false)), true);
  }

  /** No call on the installed socket's transport has come to a successful end since `s`. */
  ghost predicate NoNewSends(s: State, s': State) {
    && s'.installed == s.installed && IsSocket(s, s.installed) && IsSocket(s', s.installed)
    && forall t: nat :: CallOf(s', s.installed, t) == Transport.EmitDone(true) ==>
         CallOf(s, s.installed, t) == Transport.EmitDone(true)
  }

  lemma {:induction false} TornDownByTeardown(s: State, i: nat)
    requires Inv(s) && TornDown(s) && TeardownPlaced(s, i) && TeardownReady(s, i)
    ensures var s' := TeardownBlock(s, i); TornDown(s') && NoNewSends(s, s')
  {
    TeardownBlockFrame(s, i);
    match s.teardowns[i]
    case RetiringEngine(g, _) =>
      if g == s.installed {
        TransportProofs.RetiredStep(s.socks[g].engine, Transport.Spawn(Transport.DiscTake));
      }
    case AwaitingRetire(g, call, send) =>
      AbortKeepsTracked(SetSock(s, g, s.socks[g].(connected := false)), true);
    case AwaitingSend(g, call) =>
      if g == s.installed && Transport.Enabled(s.socks[g].engine, Transport.Cancel(call)) {
        TransportProofs.RetiredStep(s.socks[g].engine, Transport.Cancel(call));
      }
    case _ =>
  }

  lemma {:induction false} TornDownStays(c: Config, s: State, a: Action)
    requires Inv(s) && TornDown(s) && Enabled(s, a)
    ensures TornDown(Apply(c, s, a))
    ensures var s' := Apply(c, s, a);
            && !a.ReaderStep? && !a.ReaderDrop?
            && s'.epoch == s.epoch && s'.installed == s.installed && s'.trace == s.trace
            && |s'.tasks| == |s.tasks| && !MaySend(s') && NoNewSends(s, s')
  {
    hide ReaderBlock, TeardownBlock;
    match a
    case EngineStep(g, e) =>
      if g == s.installed {
        TransportProofs.RetiredStep(s.socks[g].engine, e);
      }
    case TeardownStep(i) =>
      TeardownBlockFrame(s, i);
      TornDownByTeardown(s, i);
    case _ =>
  }

  lemma {:induction false} InvPreserved(c: Config, s: State, a: Action)
    requires Inv(s) && Enabled(s, a)
    ensures Inv(Apply(c, s, a))
  {
    PlacePreserved(c, s, a);
    OperationPreserved(c, s, a);
    ReaderPreserved(c, s, a);
    WorkPreserved(c, s, a);
    EnginePreserved(c, s, a);
    DetachedPreserved(c, s, a);
    TrackedPreserved(c, s, a);
    DonePreserved(c, s, a);
  }

  lemma {:induction false} DonePreserved(c: Config, s: State, a: Action)
    requires Inv(s) && Enabled(s, a)
    ensures SomeDone(Apply(c, s, a)) ==> TornDown(Apply(c, s, a))
  {
    hide ReaderBlock;
    if TornDown(s) {
      TornDownStays(c, s, a);
    } else if a.TeardownStep? && s.teardowns[a.i].AwaitingRetire? {
      var pc := s.teardowns[a.i];
      FinishTearsDown(s, a.i, pc.g, pc.call, pc.send);
    } else if a.ReaderStep? {
    }
  }

  lemma {:induction false} StartInv()
    ensures Inv(Start())
  {
    FreshEngine();
  }

  lemma {:induction false} InvAlong(c: Config, s: State, run: seq<Action>)
    requires Inv(s) && Exec(c, s, run).Some?
    ensures Inv(Exec(c, s, run).value)
    decreases |run|
  {
    if run != [] {
      InvPreserved(c, s, run[0]);
      InvAlong(c, Apply(c, s, run[0]), run[1..]);
    }
  }

  lemma {:induction false} TornDownAlong(c: Config, s: State, run: seq<Action>)
    requires Inv(s) && TornDown(s) && Exec(c, s, run).Some?
    ensures var s' := Exec(c, s, run).value;
            && TornDown(s') && NoNewSends(s, s')
            && s'.epoch == s.epoch && s'.trace == s.trace && |s'.tasks| == |s.tasks|
    ensures forall a :: a in run ==> !a.ReaderStep? && !a.ReaderDrop?
    decreases |run|
  {
    if run != [] {
      InvPreserved(c, s, run[0]);
      TornDownStays(c, s, run[0]);
      TornDownAlong(c, Apply(c, s, run[0]), run[1..]);
      assert run == [run[0]] + run[1..];
    }
  }

  /**
   The disconnect fence. Whatever interleaving led to the completion of a teardown, and
   whatever happens afterwards: the reader never runs again, nothing is spawned, closed
   or connected, the installed socket stays the same one, its transport stays retired,
   the guard of every later send refuses, and no call on that transport succeeds any
   more. It does not matter how the teardown ended, who asked for it, or whether a
   CONNECT packet overwrote the manual reason.
   */
  lemma {:induction false} DisconnectFence(c: Config, before: seq<Action>, after: seq<Action>)
    requires Exec(c, Start(), before).Some?
    ensures var s := Exec(c, Start(), before).value;
            SomeDone(s) && Exec(c, s, after).Some? ==>
              var s' := Exec(c, s, after).value;
              && (forall a :: a in after ==> !a.ReaderStep? && !a.ReaderDrop?)
              && s'.epoch == s.epoch && s'.installed == s.installed && s'.trace == s.trace
              && |s'.tasks| == |s.tasks| && TornDown(s') && !MaySend(s') && NoNewSends(s, s')
  {
    hide Exec, Inv;
    var s := Exec(c, Start(), before).value;
    StartInv();
    InvAlong(c, Start(), before);
    if SomeDone(s) && Exec(c, s, after).Some? {
      DoneMeansTornDown(s);
      TornDownAlong(c, s, after);
    }
  }

  lemma {:induction false} DoneMeansTornDown(s: State)
    requires Inv(s) && SomeDone(s)
    ensures TornDown(s)
  {
  }
}
