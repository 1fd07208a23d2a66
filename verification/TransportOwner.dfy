/**
 The owner of one Engine.IO transport, shared by every clone of a client.

 Calls of `emit`, `connect` and `disconnect` are tasks that interleave freely; each
 block of a task between two awaits, and each poll of the `select!` in `emit`, is one
 atomic action. The history `log` records what became visible outside.
 */
module TransportOwner {
  import opened Common

  /** Where a task is; the entry points are EmitCheck, ConnectPublish and DiscTake. */
  datatype Pc =
    | EmitCheck
    | EmitClone
    | EmitSelect
    | EmitWriting
    | ConnectPublish
    | ConnectPong
    | EmitDone(sent: bool)
    | DiscTake
    | DiscLock
    | DiscWriting
    | DiscDone(clean: bool)
    | Cancelled

  datatype Event =
    | Take(task: nat)
    | OnClose(task: nat)
    | PeerClosed
    | WriteBegin(task: nat, closeFrame: bool)
    | WriteEnd(task: nat)

  datatype State = State(
    present: bool,
    connected: bool,
    closing: bool,
    sendLock: Option<nat>,
    tasks: seq<Pc>,
    log: seq<Event>)

  /** Write outcomes are chosen by the peer, timeouts by the clock. */
  datatype Choice = Success | Failure | Timeout

  datatype Action =
    | Spawn(entry: Pc)
    | Poll(task: nat, choice: Choice)
    | Cancel(task: nat)
    | HandleClose

  predicate IsEntry(pc: Pc) {
    pc.EmitCheck? || pc.ConnectPublish? || pc.DiscTake?
  }

  predicate IsOver(pc: Pc) {
    pc.EmitDone? || pc.DiscDone? || pc.Cancelled?
  }

  predicate IsWriting(pc: Pc) {
    pc.EmitWriting? || pc.DiscWriting?
  }

  /** A socket as `new` leaves it. */
  function Fresh(): State {
    State(true, false, false, None, [], [])
  }

  function Goto(s: State, t: nat, pc: Pc): State
    requires t < |s.tasks|
  {
    s.(tasks := s.tasks[t := pc])
  }

  function Logged(s: State, e: Event): State {
    s.(log := s.log + [e])
  }

  /** Acquires the send lock and starts the write in the same poll. */
  function BeginWrite(s: State, t: nat, closeFrame: bool): State
    requires t < |s.tasks|
  {
    Logged(Goto(s, t, if closeFrame then DiscWriting else EmitWriting), WriteBegin(t, closeFrame))
    .(sendLock := Some(t))
  }

  /** Ends a write and drops the lock guard. */
  function EndWrite(s: State, t: nat, pc: Pc): State
    requires t < |s.tasks|
  {
    Logged(Goto(s, t, pc), WriteEnd(t)).(sendLock := None)
  }

  predicate Enabled(s: State, a: Action) {
    match a
    case Spawn(entry) => IsEntry(entry)
    case HandleClose => true
    case Cancel(t) => t < |s.tasks| && !IsOver(s.tasks[t])
    case Poll(t, choice) =>
      && t < |s.tasks|
      && match s.tasks[t]
         case EmitSelect => s.closing || s.sendLock.None?
         case DiscLock => s.sendLock.None? || choice.Timeout?
         case EmitDone(_) => false
         case DiscDone(_) => false
         case Cancelled => false
         case _ => true
  }

  function PollTask(s: State, t: nat, choice: Choice): State
    requires Enabled(s, Poll(t, choice))
  {
    match s.tasks[t]
    case EmitCheck => Goto(s, t, if s.connected then EmitClone else EmitDone(false))
    case EmitClone => Goto(s, t, if s.present then EmitSelect else EmitDone(false))
    case EmitSelect =>
      if s.closing then Goto(s, t, EmitDone(false)) else BeginWrite(s, t, false)
    case EmitWriting => EndWrite(s, t, EmitDone(!s.closing && choice.Success?))
    case ConnectPublish =>
      if s.present then Goto(s, t, ConnectPong).(connected := true) else Goto(s, t, EmitDone(false))
    case ConnectPong => Goto(s, t, EmitCheck)
    case DiscTake =>
      var revoked := s.(connected := false, closing := true, present := false);
      if s.present then
        Logged(Logged(Goto(revoked, t, DiscLock), Take(t)), OnClose(t))
      else
        Goto(revoked, t, DiscDone(true))
    case DiscLock =>
      if s.sendLock.None? then BeginWrite(s, t, true) else Goto(s, t, DiscDone(false))
    case DiscWriting => EndWrite(s, t, DiscDone(choice.Success?))
    case _ => s
  }

  function Apply(s: State, a: Action): State
    requires Enabled(s, a)
  {
    match a
    case Spawn(entry) => s.(tasks := s.tasks + [entry])
    case HandleClose => Logged(s.(connected := false), PeerClosed)
    case Cancel(t) =>
      if s.sendLock == Some(t) then EndWrite(s, t, Cancelled) else Goto(s, t, Cancelled)
    case Poll(t, choice) => PollTask(s, t, choice)
  }

  /** The state after a whole run, if every action was enabled when it was taken. */
  function Exec(s: State, run: seq<Action>): (r: Option<State>)
    decreases |run|
  {
    if run == [] then Some(s)
    else if Enabled(s, run[0]) then Exec(Apply(s, run[0]), run[1..])
    else None
  }

  // ----- what the history means -----

  function Takes(log: seq<Event>): nat {
    if log == [] then 0
    else Takes(log[..|log| - 1]) + if log[|log| - 1].Take? then 1 else 0
  }

  function CloseCallbacks(log: seq<Event>): nat {
    if log == [] then 0
    else CloseCallbacks(log[..|log| - 1]) + if log[|log| - 1].OnClose? then 1 else 0
  }

  function CloseFrames(log: seq<Event>): nat {
    if log == [] then 0
    else
      CloseFrames(log[..|log| - 1])
      + if log[|log| - 1].WriteBegin? && log[|log| - 1].closeFrame then 1 else 0
  }

  /** Between the begins of two writes lies the end of the first. */
  ghost predicate WritesNeverOverlap(log: seq<Event>) {
    forall i, j :: 0 <= i < j < |log| && log[i].WriteBegin? && log[j].WriteBegin? ==>
      exists k :: i < k < j && log[k] == WriteEnd(log[i].task)
  }

  ghost predicate NoEmitWriteAfterTake(log: seq<Event>) {
    forall i, j :: 0 <= i < j < |log| && log[i].Take? && log[j].WriteBegin? ==> log[j].closeFrame
  }

  /** Every write begun in the log has ended, except one by `busy`. */
  ghost predicate AllEndedBut(log: seq<Event>, busy: Option<nat>) {
    forall i :: 0 <= i < |log| && log[i].WriteBegin? && busy != Some(log[i].task) ==>
      exists k :: i < k < |log| && log[k] == WriteEnd(log[i].task)
  }
}
