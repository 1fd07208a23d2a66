/**
 The life of one asynchronous client: its reader task with the automatic reconnect, the
 dispatch tasks the reader spawns, and the teardown tasks that `disconnect` spawns.

 Every code block between two awaits is one action. An aborted task may go on through
 awaits that do not yield and is dropped at one that does; joining it is possible only when
 it has finished. Each installed socket has its own transport owner (module TransportOwner),
 whose actions interleave freely with those of the client.
 */
module Lifecycle {
  import opened Common
  import Transport = TransportOwner

  datatype Config = Config(reconnect: bool, reconnectOnDisconnect: bool, maxAttempts: Option<nat>)

  datatype Reason = Unknown | Manual | Server

  datatype CloseReason = TransportClose | IoServerDisconnect

  /** A Socket.IO socket: its transport owner, its own flag, and whether its stream can yield. */
  datatype Sock = Sock(engine: Transport.State, connected: bool, open: bool)

  // ----- dispatch tasks -----

  datatype Callback =
    | OnEvent
    | OnAck
    | OnConnectError
    | OnConnect
    | OnError
    | OnClose(epoch: nat, reason: CloseReason)

  datatype Status = Live | Aborted | Finished

  /** `session` is the epoch in which the task was spawned. */
  datatype Task = Task(callback: Callback, terminal: bool, session: nat, status: Status)

  // ----- the reader -----

  datatype PacketKind = Connect | Disconnect | ConnectError | Event | Ack

  datatype ReaderPc =
    | Top
    | Stream(g: nat)
    | GotError(g: nat)
    | GotPacket(g: nat, kind: PacketKind, ours: bool)
    | SettingUnknown(g: nat)
    | SettingServer(g: nat)
    | Deciding
    | Attempt(n: nat)
    | ReconnectCallback(n: nat)
    | Creating(n: nat)
    | Installing(n: nat)
    | ConnectingEngine(n: nat)
    | AwaitingEngine(n: nat, call: nat)
    | SendingOpen(n: nat)
    | AwaitingOpen(n: nat, call: nat)
    | Backoff(n: nat)
    | Over

  /** An aborted reader may still run blocks until an await really yields; then it is dropped. */
  datatype Reader = Reader(pc: ReaderPc, aborted: bool)

  // ----- teardowns -----

  datatype SendOutcome = Sent | NotOpen | SendFailed

  datatype TeardownPc =
    | WaitingTurn
    | SettingManual
    | TakingReader
    | Joining
    | SendingDisconnect
    | AwaitingSend(g: nat, call: nat)
    | ClosingStream(g: nat, send: SendOutcome)
    | RetiringEngine(g: nat, send: SendOutcome)
    | AwaitingRetire(g: nat, call: nat, send: SendOutcome)
    | Done(ok: bool)

  // ----- history -----

  datatype Mark =
    | Connected
    | AttemptFailed
    | RoundExhausted
    | ConnectSeen
    | DisconnectSeen
    | StreamEnded
    | Closed(epoch: nat, reason: CloseReason)
    | Decided

  datatype State = State(
    epoch: nat,
    reason: Reason,
    installed: nat,
    socks: seq<Sock>,
    reader: Reader,
    slot: bool,
    tasks: seq<Task>,
    tracked: set<nat>,
    operation: Option<nat>,
    teardowns: seq<TeardownPc>,
    trace: seq<Mark>)

  /** A freshly connected client whose reader has just been spawned and registered. */
  function Start(): State {
    State(1, Unknown, 0, [Sock(Transport.Fresh().(connected := true), true, true)],
          Reader(Top, false), true, [], {}, None, [], [Connected])
  }

  // ----- the tracked list -----

  /** The `spawn_dispatch` block: spawn, prune finished handles, push. */
  function SpawnDispatch(s: State, callback: Callback, terminal: bool): (r: State)
    ensures r == s.(tasks := r.tasks, tracked := r.tracked)
  {
    s.(tasks := s.tasks + [Task(callback, terminal, s.epoch, Live)],
       tracked := (set id | id in s.tracked && (id < |s.tasks| ==> !s.tasks[id].status.Finished?))
                  + {|s.tasks|})
  }

  predicate IsCut(s: State, id: nat, includeTerminal: bool) {
    id < |s.tasks| && id in s.tracked && (includeTerminal || !s.tasks[id].terminal)
  }

  /** The `abort_dispatch` block: abort and forget what is cut, keep the rest. */
  function AbortDispatch(s: State, includeTerminal: bool): (r: State)
    ensures r == s.(tasks := r.tasks, tracked := r.tracked) && |r.tasks| == |s.tasks|
  {
    s.(tasks := seq(|s.tasks|, id requires 0 <= id < |s.tasks| =>
                  if IsCut(s, id, includeTerminal) && s.tasks[id].status.Live?
                  then s.tasks[id].(status := Aborted) else s.tasks[id]),
       tracked := set id | id in s.tracked && !IsCut(s, id, includeTerminal))
  }

  function Mark1(s: State, m: Mark): State {
    s.(trace := s.trace + [m])
  }

  function At(s: State, pc: ReaderPc): State {
    s.(reader := s.reader.(pc := pc))
  }

  // ----- reader actions -----

  /** What the world decides while a reader block runs. */
  datatype Input = EndOfStream | StreamError | Packet(kind: PacketKind, ours: bool) | Success | Failure

  predicate IsSocket(s: State, g: nat) {
    g < |s.socks|
  }

  function SetSock(s: State, g: nat, sock: Sock): State
    requires IsSocket(s, g)
  {
    s.(socks := s.socks[g := sock])
  }

  function CallOf(s: State, g: nat, call: nat): Transport.Pc {
    if g < |s.socks| && call < |s.socks[g].engine.tasks| then s.socks[g].engine.tasks[call]
    else Transport.Cancelled
  }

  /** The guard of `Socket::send`. */
  predicate MaySend(s: State) {
    s.installed < |s.socks| && s.socks[s.installed].connected && s.socks[s.installed].engine.connected
  }

  /** Starts a call on the transport owner of socket `g`. */
  function StartCall(s: State, g: nat, entry: Transport.Pc): State
    requires IsSocket(s, g) && Transport.IsEntry(entry)
  {
    SetSock(s, g, s.socks[g].(engine := Transport.Apply(s.socks[g].engine, Transport.Spawn(entry))))
  }

  function NextCall(s: State, g: nat): nat
    requires IsSocket(s, g)
  {
    |s.socks[g].engine.tasks|
  }

  /** The inner stream sets its own flag before it yields a packet, whatever the namespace. */
  function YieldPacket(s: State, g: nat, kind: PacketKind, ours: bool): State
    requires IsSocket(s, g)
  {
    var sock := s.socks[g];
    var flag := if kind.Connect? then true
                else if kind.Disconnect? || kind.ConnectError? then false
                else sock.connected;
    At(SetSock(s, g, sock.(connected := flag)), GotPacket(g, kind, ours))
  }

  function EndStream(s: State): State {
    At(Mark1(AbortDispatch(s, false), StreamEnded), Deciding)
  }

  /** What no block of the reader touches. */
  predicate ReaderFrame(s: State, r: State) {
    && r.teardowns == s.teardowns && r.slot == s.slot && r.operation == s.operation
    && r.reader.aborted == s.reader.aborted
    && |s.socks| <= |r.socks|
  }

  /** The inner stream is polled on behalf of `state.socket.next()`. */
  function StreamBlock(s: State, g: nat, input: Input): (r: State)
    requires IsSocket(s, g)
    ensures ReaderFrame(s, r)
  {
    match input
    case StreamError => if s.socks[g].open then At(s, GotError(g)) else EndStream(s)
    case Packet(kind, ours) => if s.socks[g].open then YieldPacket(s, g, kind, ours) else EndStream(s)
    case _ => EndStream(s)
  }

  /** The guard on `disconnect_reason`, then the inline part of the dispatch. */
  function PacketBlock(s: State, g: nat, kind: PacketKind, ours: bool): (r: State)
    ensures ReaderFrame(s, r)
  {
    if s.reason.Manual? then EndStream(s)
    else if !ours then At(s, Stream(g))
    else match kind
      case Connect => At(s, SettingUnknown(g))
      case Disconnect => At(s, SettingServer(g))
      case ConnectError => At(SpawnDispatch(s, OnConnectError, false), Stream(g))
      case Event => At(SpawnDispatch(s, OnEvent, false), Stream(g))
      case Ack => At(SpawnDispatch(s, OnAck, false), Stream(g))
  }

  function ErrorBlock(s: State, g: nat): (r: State)
    ensures ReaderFrame(s, r)
  {
    if s.reason.Manual? then EndStream(s)
    else At(SpawnDispatch(s, OnError, true), Stream(g))
  }

  function CloseNow(s: State, reason: CloseReason): State {
    Mark1(SpawnDispatch(s, OnClose(s.epoch, reason), true), Closed(s.epoch, reason))
  }

  function ConnectBlock(s: State, g: nat): (r: State)
    ensures ReaderFrame(s, r)
  {
    At(Mark1(SpawnDispatch(s.(reason := Unknown), OnConnect, true), ConnectSeen), Stream(g))
  }

  function DisconnectBlock(s: State, g: nat): (r: State)
    ensures ReaderFrame(s, r)
  {
    At(CloseNow(Mark1(AbortDispatch(s.(reason := Server), false), DisconnectSeen), IoServerDisconnect),
       Stream(g))
  }

  function DecideBlock(c: Config, s: State): (r: State)
    ensures ReaderFrame(s, r)
  {
    match s.reason
    case Unknown => At(Mark1(CloseNow(s, TransportClose), Decided), if c.reconnect then Attempt(0) else Over)
    case Manual => At(Mark1(s, Decided), Over)
    case Server => At(Mark1(s, Decided), if c.reconnectOnDisconnect then Attempt(0) else Over)
  }

  function AttemptBlock(c: Config, s: State, n: nat): (r: State)
    ensures ReaderFrame(s, r)
  {
    if c.maxAttempts.Some? then
      if n + 1 > c.maxAttempts.value then At(Mark1(s, RoundExhausted), Top)
      else At(s, ReconnectCallback(n + 1))
    else At(s, ReconnectCallback(n))
  }

  function FailAttempt(s: State, n: nat): State {
    At(Mark1(s, AttemptFailed), Backoff(n))
  }

  function InstallBlock(s: State, n: nat): (r: State)
    ensures ReaderFrame(s, r)
  {
    At(s.(socks := s.socks + [Sock(Transport.Fresh(), false, true)], installed := |s.socks|),
       ConnectingEngine(n))
  }

  function EngineResultBlock(s: State, n: nat, call: nat): (r: State)
    requires IsSocket(s, s.installed)
    ensures ReaderFrame(s, r)
  {
    if CallOf(s, s.installed, call) == Transport.EmitDone(true) then
      At(SetSock(s, s.installed, s.socks[s.installed].(connected := true)), SendingOpen(n))
    else FailAttempt(s, n)
  }

  function SendOpenBlock(s: State, n: nat): (r: State)
    requires IsSocket(s, s.installed)
    ensures ReaderFrame(s, r)
  {
    if MaySend(s) then
      At(StartCall(s, s.installed, Transport.EmitCheck), AwaitingOpen(n, NextCall(s, s.installed)))
    else FailAttempt(s, n)
  }

  function OpenResultBlock(s: State, n: nat, call: nat): (r: State)
    ensures ReaderFrame(s, r)
  {
    if CallOf(s, s.installed, call) == Transport.EmitDone(true) then
      At(Mark1(s.(epoch := s.epoch + 1), Connected), Top)
    else FailAttempt(s, n)
  }

  predicate ReaderReady(s: State) {
    match s.reader.pc
    case Over => false
    case AwaitingEngine(_, call) => Transport.IsOver(CallOf(s, s.installed, call))
    case AwaitingOpen(_, call) => Transport.IsOver(CallOf(s, s.installed, call))
    case _ => true
  }

  /** Every socket the reader may touch exists. */
  predicate WellPlaced(s: State) {
    && IsSocket(s, s.installed)
    && (s.reader.pc.Stream? ==> IsSocket(s, s.reader.pc.g))
  }

  function ReaderBlock(c: Config, s: State, input: Input): (r: State)
    requires WellPlaced(s)
    ensures ReaderFrame(s, r)
  {
    match s.reader.pc
    case Top => At(s, Stream(s.installed))
    case Stream(g) => StreamBlock(s, g, input)
    case GotError(g) => ErrorBlock(s, g)
    case GotPacket(g, kind, ours) => PacketBlock(s, g, kind, ours)
    case SettingUnknown(g) => ConnectBlock(s, g)
    case SettingServer(g) => DisconnectBlock(s, g)
    case Deciding => DecideBlock(c, s)
    case Attempt(n) => AttemptBlock(c, s, n)
    case ReconnectCallback(n) => At(s, Creating(n))
    case Creating(n) => if input.Success? then At(s, Installing(n)) else FailAttempt(s, n)
    case Installing(n) => InstallBlock(s, n)
    case ConnectingEngine(n) =>
      At(StartCall(s, s.installed, Transport.ConnectPublish), AwaitingEngine(n, NextCall(s, s.installed)))
    case AwaitingEngine(n, call) => EngineResultBlock(s, n, call)
    case SendingOpen(n) => SendOpenBlock(s, n)
    case AwaitingOpen(n, call) => OpenResultBlock(s, n, call)
    case Backoff(n) => At(s, Attempt(n))
    case Over => s
  }

  /** The places where the reader owns a stream state, which aborts dispatch when dropped. */
  predicate OwnsStream(pc: ReaderPc) {
    pc.Stream? || pc.GotError? || pc.GotPacket? || pc.SettingUnknown? || pc.SettingServer?
  }

  /** An aborted reader is dropped at an await. */
  function DropReader(s: State): State {
    At(if OwnsStream(s.reader.pc) then AbortDispatch(s, false) else s, Over)
  }

  // ----- teardown actions -----

  function Goto(s: State, i: nat, pc: TeardownPc): State
    requires i < |s.teardowns|
  {
    s.(teardowns := s.teardowns[i := pc])
  }

  predicate TeardownReady(s: State, i: nat) {
    && i < |s.teardowns|
    && match s.teardowns[i]
       case WaitingTurn => s.operation.None?
       case Joining => s.reader.pc.Over?
       case AwaitingRetire(g, call, _) => Transport.IsOver(CallOf(s, g, call))
       case Done(_) => false
       case _ => true
  }

  function SendOutcomeOf(pc: Transport.Pc): SendOutcome {
    if pc == Transport.EmitDone(true) then Sent else SendFailed
  }

  /** Takes the reader handle out of its slot and aborts the reader. */
  function TakeReader(s: State, i: nat): State
    requires i < |s.teardowns|
  {
    if s.slot then
      Goto(s.(slot := false, reader := s.reader.(aborted := true)), i, Joining)
    else Goto(s, i, SendingDisconnect)
  }

  function StartSend(s: State, i: nat): State
    requires i < |s.teardowns| && IsSocket(s, s.installed)
  {
    var g := s.installed;
    if MaySend(s) then Goto(StartCall(s, g, Transport.EmitCheck), i, AwaitingSend(g, NextCall(s, g)))
    else Goto(s, i, ClosingStream(g, NotOpen))
  }

  /** After one second the send is dropped; the teardown goes on with whatever it got. */
  function FinishSend(s: State, i: nat, g: nat, call: nat): State
    requires i < |s.teardowns| && IsSocket(s, g)
  {
    var outcome := SendOutcomeOf(CallOf(s, g, call));
    var a := Transport.Cancel(call);
    var sock := s.socks[g];
    var dropped := if Transport.Enabled(sock.engine, a)
                   then SetSock(s, g, sock.(engine := Transport.Apply(sock.engine, a))) else s;
    Goto(dropped, i, ClosingStream(g, outcome))
  }

  /** Clears the flag and swaps the stream for an empty one. */
  function CloseStream(s: State, i: nat, g: nat, send: SendOutcome): State
    requires i < |s.teardowns| && IsSocket(s, g)
  {
    Goto(SetSock(s, g, s.socks[g].(connected := false, open := false)), i, RetiringEngine(g, send))
  }

  function RetireEngine(s: State, i: nat, g: nat, send: SendOutcome): State
    requires i < |s.teardowns| && IsSocket(s, g)
  {
    Goto(StartCall(s, g, Transport.DiscTake), i, AwaitingRetire(g, NextCall(s, g), send))
  }

  function FinishTeardown(s: State, i: nat, g: nat, call: nat, send: SendOutcome): State
    requires i < |s.teardowns| && IsSocket(s, g)
  {
    var ok := CallOf(s, g, call) == Transport.DiscDone(true) && send != SendFailed;
    Goto(AbortDispatch(SetSock(s, g, s.socks[g].(connected := false)), true), i, Done(ok))
    .(operation := None)
  }

  predicate TeardownPlaced(s: State, i: nat) {
    && i < |s.teardowns|
    && IsSocket(s, s.installed)
    && match s.teardowns[i]
       case AwaitingSend(g, _) => IsSocket(s, g)
       case ClosingStream(g, _) => IsSocket(s, g)
       case RetiringEngine(g, _) => IsSocket(s, g)
       case AwaitingRetire(g, _, _) => IsSocket(s, g)
       case _ => true
  }

  function TeardownBlock(s: State, i: nat): State
    requires TeardownPlaced(s, i)
  {
    match s.teardowns[i]
    case WaitingTurn => Goto(s.(operation := Some(i)), i, SettingManual)
    case SettingManual => Goto(s.(reason := Manual), i, TakingReader)
    case TakingReader => TakeReader(s, i)
    case Joining => Goto(s, i, SendingDisconnect)
    case SendingDisconnect => StartSend(s, i)
    case AwaitingSend(g, call) => FinishSend(s, i, g, call)
    case ClosingStream(g, send) => CloseStream(s, i, g, send)
    case RetiringEngine(g, send) => RetireEngine(s, i, g, send)
    case AwaitingRetire(g, call, send) => FinishTeardown(s, i, g, call, send)
    case Done(_) => s
  }

  // ----- all actions -----

  datatype Action =
    | ReaderStep(input: Input)
    | ReaderDrop
    | TaskFinish(id: nat)
    | CallDisconnect
    | TeardownStep(i: nat)
    | EngineStep(g: nat, a: Transport.Action)

  /** The retiring call of a teardown is detached: nobody can cancel it. */
  predicate IsDetached(s: State, g: nat, call: nat) {
    exists i :: 0 <= i < |s.teardowns| && s.teardowns[i].AwaitingRetire?
                && s.teardowns[i].g == g && s.teardowns[i].call == call
  }

  predicate Enabled(s: State, a: Action) {
    match a
    case ReaderStep(_) =>
      WellPlaced(s) && ReaderReady(s)
    case ReaderDrop => s.reader.aborted && !s.reader.pc.Over?
    case TaskFinish(id) => id < |s.tasks| && !s.tasks[id].status.Finished?
    case CallDisconnect => true
    case TeardownStep(i) => TeardownPlaced(s, i) && TeardownReady(s, i)
    case EngineStep(g, e) =>
      && IsSocket(s, g)
      && Transport.Enabled(s.socks[g].engine, e)
      && !(e.Spawn? && e.entry.ConnectPublish?)
      && (e.Cancel? ==> !IsDetached(s, g, e.task))
  }

  function Apply(c: Config, s: State, a: Action): State
    requires Enabled(s, a)
  {
    match a
    case ReaderStep(input) => ReaderBlock(c, s, input)
    case ReaderDrop => DropReader(s)
    case TaskFinish(id) => s.(tasks := s.tasks[id := s.tasks[id].(status := Finished)])
    case CallDisconnect => s.(teardowns := s.teardowns + [WaitingTurn])
    case TeardownStep(i) => TeardownBlock(s, i)
    case EngineStep(g, e) =>
      SetSock(s, g, s.socks[g].(engine := Transport.Apply(s.socks[g].engine, e)))
  }

  function Exec(c: Config, s: State, run: seq<Action>): (r: Option<State>)
    decreases |run|
  {
    if run == [] then Some(s)
    else if Enabled(s, run[0]) then Exec(c, Apply(c, s, run[0]), run[1..])
    else None
  }
}
