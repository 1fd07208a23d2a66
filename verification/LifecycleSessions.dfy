/** Dispatch tasks, epochs and close notifications over whole runs of the client. */
module LifecycleSessions {
  import opened Common
  import opened Lifecycle
  import opened LifecycleTrace
  import Fence = LifecycleFence

  // ----- dispatch tracking -----

  predicate IsTerminal(callback: Callback) {
    callback.OnConnect? || callback.OnError? || callback.OnClose?
  }

  ghost predicate TaskInv(s: State) {
    && (forall id: nat :: id < |s.tasks| ==>
          && s.tasks[id].session <= s.epoch
          && (s.tasks[id].terminal <==> IsTerminal(s.tasks[id].callback)))
    && (forall id: nat :: id < |s.tasks| && s.tasks[id].status.Live? && !s.tasks[id].terminal ==>
          s.tasks[id].session == s.epoch)
  }

  /** Away from the stream only terminal notifications are live. */
  ghost predicate OnlyTerminalLive(s: State) {
    forall id: nat :: id < |s.tasks| && s.tasks[id].status.Live? ==> s.tasks[id].terminal
  }

  ghost predicate DispatchInv(s: State) {
    TaskInv(s) && (!OwnsStream(s.reader.pc) ==> OnlyTerminalLive(s))
  }

  lemma {:induction false} AbortLeavesTerminal(s: State)
    requires TaskInv(s) && Fence.TrackedInv(s)
    ensures TaskInv(AbortDispatch(s, false)) && OnlyTerminalLive(AbortDispatch(s, false))
  {
  }

  lemma {:induction false} SpawnKeepsTasks(s: State, callback: Callback, terminal: bool)
    requires TaskInv(s) && (terminal <==> IsTerminal(callback))
    ensures TaskInv(SpawnDispatch(s, callback, terminal))
    ensures terminal && OnlyTerminalLive(s) ==> OnlyTerminalLive(SpawnDispatch(s, callback, terminal))
  {
  }

  lemma {:induction false} DispatchKeptByPacket(s: State, g: nat, kind: PacketKind, ours: bool)
    requires DispatchInv(s) && Fence.TrackedInv(s) && OwnsStream(s.reader.pc)
    ensures DispatchInv(PacketBlock(s, g, kind, ours))
  {
    AbortLeavesTerminal(s);
    hide SpawnDispatch, AbortDispatch;
    match kind
    case ConnectError => SpawnKeepsTasks(s, OnConnectError, false);
    case Event => SpawnKeepsTasks(s, OnEvent, false);
    case Ack => SpawnKeepsTasks(s, OnAck, false);
    case _ =>
  }

  lemma {:induction false} DispatchKeptByClose(s: State, g: nat)
    requires DispatchInv(s) && Fence.TrackedInv(s)
    ensures DispatchInv(DisconnectBlock(s, g))
  {
    var cut := s.(reason := Server);
    AbortLeavesTerminal(cut);
    SpawnKeepsTasks(Mark1(AbortDispatch(cut, false), DisconnectSeen), OnClose(s.epoch, IoServerDisconnect), true);
    hide SpawnDispatch, AbortDispatch;
  }

  lemma {:induction false} DispatchKeptByStream(c: Config, s: State, input: Input)
    requires DispatchInv(s) && Fence.TrackedInv(s) && WellPlaced(s) && OwnsStream(s.reader.pc)
    ensures DispatchInv(ReaderBlock(c, s, input))
  {
    hide SpawnDispatch, AbortDispatch, PacketBlock, DisconnectBlock;
    match s.reader.pc
    case Stream(g) =>
      AbortLeavesTerminal(s);
      match input { case StreamError => case Packet(_, _) => case _ => }
    case GotError(g) =>
      AbortLeavesTerminal(s);
      SpawnKeepsTasks(s, OnError, true);
    case GotPacket(g, kind, ours) => DispatchKeptByPacket(s, g, kind, ours);
    case SettingUnknown(g) => SpawnKeepsTasks(s.(reason := Unknown), OnConnect, true);
    case SettingServer(g) => DispatchKeptByClose(s, g);
  }

  /** Blocks away from the stream never start an event or ack task. */
  lemma {:induction false} DispatchKeptElsewhere(c: Config, s: State, input: Input)
    requires DispatchInv(s) && WellPlaced(s) && !OwnsStream(s.reader.pc)
    ensures DispatchInv(ReaderBlock(c, s, input))
  {
    if s.reader.pc.Deciding? {
      SpawnKeepsTasks(s, OnClose(s.epoch, TransportClose), true);
    } else {
      Fence.OtherBlocksKeepTasks(c, s, input);
      ReaderEpoch(c, s, input);
    }
  }

  lemma {:induction false} DispatchPreserved(c: Config, s: State, a: Action)
    requires DispatchInv(s) && Fence.TrackedInv(s) && Enabled(s, a)
    ensures DispatchInv(Apply(c, s, a))
  {
    match a
    case ReaderStep(input) =>
      if OwnsStream(s.reader.pc) {
        DispatchKeptByStream(c, s, input);
      } else {
        DispatchKeptElsewhere(c, s, input);
      }
    case ReaderDrop => AbortLeavesTerminal(s);
    case TeardownStep(i) =>
      Fence.TeardownBlockFrame(s, i);
      TeardownTasks(s, i);
    case _ =>
  }

  /** A teardown only ever turns live tasks into aborted ones. */
  lemma {:induction false} TeardownTasks(s: State, i: nat)
    requires TeardownPlaced(s, i)
    ensures var s' := TeardownBlock(s, i);
            && |s'.tasks| == |s.tasks|
            && forall id: nat :: id < |s.tasks| ==>
                 s'.tasks[id] == s.tasks[id] || s'.tasks[id] == s.tasks[id].(status := Aborted)
  {
    match s.teardowns[i]
    case AwaitingSend(g, call) =>
    case _ =>
  }

  // ----- epochs -----

  /** The close notifications among the spawned tasks, in spawn order. */
  function CloseTasks(tasks: seq<Task>): seq<(nat, CloseReason)> {
    if tasks == [] then []
    else
      CloseTasks(tasks[..|tasks| - 1])
      + match tasks[|tasks| - 1].callback { case OnClose(k, reason) => [(k, reason)] case _ => [] }
  }

  /** Each close carries the number of successful connects at the moment it was spawned. */
  ghost predicate Attributed(t: seq<Mark>) {
    forall i :: 0 <= i < |t| && t[i].Closed? ==> 1 <= t[i].epoch && t[i].epoch == Sessions(t[..i])
  }

  ghost predicate EpochInv(s: State) {
    && 1 <= s.epoch && s.epoch == Sessions(s.trace)
    && Attributed(s.trace)
    && CloseTasks(s.tasks) == ClosedMarks(s.trace)
  }

  lemma {:induction false} AttributedAfter(t: seq<Mark>, m: Mark)
    requires Attributed(t)
    requires m.Closed? ==> 1 <= m.epoch && m.epoch == Sessions(t)
    ensures Attributed(t + [m])
  {
    var t' := t + [m];
    forall i | 0 <= i < |t'| && t'[i].Closed?
      ensures 1 <= t'[i].epoch && t'[i].epoch == Sessions(t'[..i])
    {
      assert t'[..i] == t[..i];
      if i == |t| {
        assert t[..i] == t;
      }
    }
  }

  lemma {:induction false} SameCallbacksSameCloses(a: seq<Task>, b: seq<Task>)
    requires |a| == |b| && forall i :: 0 <= i < |a| ==> a[i].callback == b[i].callback
    ensures CloseTasks(a) == CloseTasks(b)
  {
    if a != [] {
      SameCallbacksSameCloses(a[..|a| - 1], b[..|b| - 1]);
    }
  }

  lemma {:induction false} SpawnAddsClose(s: State, callback: Callback, terminal: bool)
    ensures CloseTasks(SpawnDispatch(s, callback, terminal).tasks)
         == CloseTasks(s.tasks) + if callback.OnClose? then [(callback.epoch, callback.reason)] else []
  {
    assert SpawnDispatch(s, callback, terminal).tasks[..|s.tasks|] == s.tasks;
  }

  lemma {:induction false} AbortKeepsCloses(s: State, includeTerminal: bool)
    ensures CloseTasks(AbortDispatch(s, includeTerminal).tasks) == CloseTasks(s.tasks)
  {
    SameCallbacksSameCloses(AbortDispatch(s, includeTerminal).tasks, s.tasks);
  }

  /** The close tasks a reader block spawns are the close marks it leaves. */
  lemma {:induction false} ReaderCloseTasks(c: Config, s: State, input: Input)
    requires WellPlaced(s)
    ensures CloseTasks(ReaderBlock(c, s, input).tasks)
         == CloseTasks(s.tasks)
            + match s.reader.pc {
                case SettingServer(_) => [(s.epoch, IoServerDisconnect)]
                case Deciding => if s.reason.Unknown? then [(s.epoch, TransportClose)] else []
                case _ => []
              }
  {
    hide SpawnDispatch, AbortDispatch, CloseTasks;
    var s' := ReaderBlock(c, s, input);
    if OwnsStream(s.reader.pc) {
      AbortKeepsCloses(s, false);
      match s.reader.pc {
        case Stream(g) => match input { case StreamError => case Packet(_, _) => case _ => }
        case GotError(g) => SpawnAddsClose(s, OnError, true);
        case GotPacket(g, kind, ours) =>
          match kind {
            case ConnectError => SpawnAddsClose(s, OnConnectError, false);
            case Event => SpawnAddsClose(s, OnEvent, false);
            case Ack => SpawnAddsClose(s, OnAck, false);
            case _ =>
          }
        case SettingUnknown(g) => SpawnAddsClose(s.(reason := Unknown), OnConnect, true);
        case SettingServer(g) =>
          var cut := AbortDispatch(s.(reason := Server), false);
          AbortKeepsCloses(s.(reason := Server), false);
          SpawnAddsClose(Mark1(cut, DisconnectSeen), OnClose(s.epoch, IoServerDisconnect), true);
      }
    } else if s.reader.pc.Deciding? {
      SpawnAddsClose(s, OnClose(s.epoch, TransportClose), true);
    } else {
      Fence.OtherBlocksKeepTasks(c, s, input);
    }
  }

  /** The closes among a block's marks. */
  function ClosesIn(m: seq<Mark>): seq<(nat, CloseReason)> {
    if m == [] then []
    else (if m[0].Closed? then [(m[0].epoch, m[0].reason)] else []) + ClosesIn(m[1..])
  }

  lemma {:induction false} AfterOne(t: seq<Mark>, m: Mark, epoch: nat)
    requires 1 <= epoch && Sessions(t) == epoch && Attributed(t)
    requires m.Closed? ==> m.epoch == epoch
    ensures Sessions(t + [m]) == epoch + if m.Connected? then 1 else 0
    ensures Attributed(t + [m])
    ensures ClosedMarks(t + [m]) == ClosedMarks(t) + if m.Closed? then [(m.epoch, m.reason)] else []
  {
    AfterMark(t, m);
    AttributedAfter(t, m);
  }

  lemma {:induction false} AfterTwo(t: seq<Mark>, m: Mark, n: Mark, epoch: nat)
    requires 1 <= epoch && Sessions(t) == epoch && Attributed(t)
    requires !m.Connected? && !n.Connected?
    requires (m.Closed? ==> m.epoch == epoch) && (n.Closed? ==> n.epoch == epoch)
    ensures Sessions(t + [m, n]) == epoch
    ensures Attributed(t + [m, n])
    ensures ClosedMarks(t + [m, n]) == ClosedMarks(t) + (ClosesIn([m]) + ClosesIn([n]))
  {
    var next := t + [m];
    assert t + [m, n] == next + [n];
    AfterOne(t, m, epoch);
    AfterOne(next, n, epoch);
  }

  /** Marks that are neither a connect nor a close of another epoch. */
  predicate Harmless(m: seq<Mark>, epoch: nat) {
    forall x :: x in m ==> !x.Connected? && (x.Closed? ==> x.epoch == epoch)
  }

  lemma {:induction false} MarksShape(c: Config, s: State, input: Input)
    ensures var m := MarksOf(c, s, input);
            && |m| <= 2
            && (m == [Connected] || Harmless(m, s.epoch))
            && ClosesIn(m) == match s.reader.pc {
                 case SettingServer(_) => [(s.epoch, IoServerDisconnect)]
                 case Deciding => if s.reason.Unknown? then [(s.epoch, TransportClose)] else []
                 case _ => []
               }
  {
    var m := MarksOf(c, s, input);
    assert ClosesIn([]) == [];
    if s.reader.pc.SettingServer? {
      assert m[1..] == [Closed(s.epoch, IoServerDisconnect)] && m[1..][1..] == [];
    } else if s.reader.pc.Deciding? && s.reason.Unknown? {
      assert m == [Closed(s.epoch, TransportClose), Decided];
      assert m[1..] == [Decided] && m[1..][1..] == [];
    } else {
      assert m == [] || (m == [m[0]] && m[1..] == [] && !m[0].Closed?);
    }
  }

  lemma {:induction false} EpochKeptByReader(c: Config, s: State, input: Input)
    requires EpochInv(s) && WellPlaced(s)
    ensures EpochInv(ReaderBlock(c, s, input))
  {
    hide ReaderBlock, MarksOf, CloseTasks, Sessions, ClosedMarks, Attributed;
    var m := MarksOf(c, s, input);
    var s' := ReaderBlock(c, s, input);
    assert s'.trace == s.trace + m by { ReaderMarks(c, s, input); }
    assert s'.epoch == s.epoch + if Connected in m then 1 else 0 by { ReaderEpoch(c, s, input); }
    MarksShape(c, s, input);
    if |m| == 0 {
      assert s.trace + m == s.trace;
    } else if |m| == 1 {
      assert m == [m[0]] && m[0] in m;
      AfterOne(s.trace, m[0], s.epoch);
    } else {
      assert m == [m[0], m[1]] && m[0] in m && m[1] in m && m[1..] == [m[1]];
      AfterTwo(s.trace, m[0], m[1], s.epoch);
    }
    assert CloseTasks(s'.tasks) == CloseTasks(s.tasks) + ClosesIn(m) by { ReaderCloseTasks(c, s, input); }
  }

  lemma {:induction false} EpochPreserved(c: Config, s: State, a: Action)
    requires EpochInv(s) && Enabled(s, a)
    ensures EpochInv(Apply(c, s, a))
  {
    if a.ReaderStep? {
      EpochKeptByReader(c, s, a.input);
    } else {
      var s' := Apply(c, s, a);
      OthersLeaveNoMark(c, s, a);
      if a.TeardownStep? {
        TeardownTasks(s, a.i);
      }
      SameCallbacksSameCloses(s'.tasks, s.tasks);
    }
  }

  // ----- whole runs -----

  ghost predicate Inv(s: State) {
    Fence.Inv(s) && DispatchInv(s) && EpochInv(s)
  }

  lemma {:induction false} StartInv()
    ensures Inv(Start())
  {
    Fence.StartInv();
    assert [Connected][..0] == [];
  }

  lemma {:induction false} InvAlong(c: Config, s: State, run: seq<Action>)
    requires Inv(s) && Exec(c, s, run).Some?
    ensures Inv(Exec(c, s, run).value)
    decreases |run|
  {
    if run != [] {
      var s' := Apply(c, s, run[0]);
      assert Inv(s') by {
        Fence.InvPreserved(c, s, run[0]);
        DispatchPreserved(c, s, run[0]);
        EpochPreserved(c, s, run[0]);
      }
      InvAlong(c, s', run[1..]);
    }
  }

  /** The places where the reader decides about or works on a reconnect. */
  predicate DecidingOrReconnecting(pc: ReaderPc) {
    !OwnsStream(pc) && !pc.Top? && !pc.Over?
  }

  /**
   Dispatch tracking: a live task is always in the tracked list; while the reader decides
   or reconnects only terminal notifications are live; a live event or ack task belongs
   to the current session; after a teardown nothing is live.
   */
  lemma {:induction false} DispatchTracking(c: Config, run: seq<Action>)
    requires Exec(c, Start(), run).Some?
    ensures var s := Exec(c, Start(), run).value;
            && (forall id: nat :: id < |s.tasks| && s.tasks[id].status.Live? ==> id in s.tracked)
            && (DecidingOrReconnecting(s.reader.pc) ==> OnlyTerminalLive(s))
            && (forall id: nat :: id < |s.tasks| && s.tasks[id].status.Live? && !IsTerminal(s.tasks[id].callback) ==>
                  s.tasks[id].session == s.epoch)
            && (Fence.SomeDone(s) ==> forall id: nat :: id < |s.tasks| ==> !s.tasks[id].status.Live?)
  {
    StartInv();
    InvAlong(c, Start(), run);
  }

  /** Closes come in the order of their sessions, and before any later session begins. */
  ghost predicate ClosesOrdered(t: seq<Mark>) {
    && (forall i, j :: 0 <= i < j < |t| && t[i].Closed? && t[j].Closed? ==> t[i].epoch <= t[j].epoch)
    && (forall i, j :: 0 <= i < j < |t| && t[i].Closed? && t[j].Connected? ==>
          t[i].epoch < Sessions(t[..j + 1]))
  }

  lemma {:induction false} AttributedIsOrdered(t: seq<Mark>)
    requires Attributed(t)
    ensures ClosesOrdered(t)
  {
    forall i, j | 0 <= i < j < |t| && t[i].Closed? && t[j].Closed?
      ensures t[i].epoch <= t[j].epoch
    {
      SessionsGrow(t, i, j);
    }
    forall i, j | 0 <= i < j < |t| && t[i].Closed? && t[j].Connected?
      ensures t[i].epoch < Sessions(t[..j + 1])
    {
      SessionsGrow(t, i, j);
      assert t[..j + 1] == t[..j] + [t[j]];
      AfterMark(t[..j], t[j]);
    }
  }

  /**
   Epoch attribution: the epoch is the number of successful connects; the close tasks ever
   spawned are, in order, the closes of the history; each carries the number of connects
   at its own moment, which is at least one, never decreases, and stays below every later
   session, however late the task runs.
   */
  lemma {:induction false} EpochAttribution(c: Config, run: seq<Action>)
    requires Exec(c, Start(), run).Some?
    ensures var s := Exec(c, Start(), run).value;
            && s.epoch == Sessions(s.trace)
            && CloseTasks(s.tasks) == ClosedMarks(s.trace)
            && Attributed(s.trace)
            && ClosesOrdered(s.trace)
  {
    StartInv();
    InvAlong(c, Start(), run);
    AttributedIsOrdered(Exec(c, Start(), run).value.trace);
  }
}
