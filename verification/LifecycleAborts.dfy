/** What may abort a dispatch task. */
module LifecycleAborts {
  import opened Common
  import opened Lifecycle
  import opened LifecycleTrace
  import Dispatch = LifecycleSessions
  import Fence = LifecycleFence
  import Progress = LifecycleProgress

  /** A stream ended, or a DISCONNECT was handled, while session `k` was the current one. */
  ghost predicate CutIn(t: seq<Mark>, k: nat) {
    exists i :: 0 <= i < |t| && (t[i].StreamEnded? || t[i].DisconnectSeen?) && Sessions(t[..i]) == k
  }

  /** The reader has been aborted and has ended. */
  predicate ReaderCut(s: State) {
    s.reader.aborted && s.reader.pc.Over?
  }

  /** Why a task may be aborted: a terminal one only by a teardown. */
  ghost predicate MayBeCut(s: State, task: Task) {
    Fence.SomeDone(s) || (!Dispatch.IsTerminal(task.callback) && (CutIn(s.trace, task.session) || ReaderCut(s)))
  }

  ghost predicate AbortInv(s: State) {
    forall id: nat :: id < |s.tasks| && s.tasks[id].status.Aborted? ==> MayBeCut(s, s.tasks[id])
  }

  lemma {:induction false} CutStays(t: seq<Mark>, m: seq<Mark>, k: nat)
    requires CutIn(t, k)
    ensures CutIn(t + m, k)
  {
    var i :| 0 <= i < |t| && (t[i].StreamEnded? || t[i].DisconnectSeen?) && Sessions(t[..i]) == k;
    assert (t + m)[i] == t[i] && (t + m)[..i] == t[..i];
  }

  lemma {:induction false} CutNow(t: seq<Mark>, m: seq<Mark>)
    requires m != [] && (m[0].StreamEnded? || m[0].DisconnectSeen?)
    ensures CutIn(t + m, Sessions(t))
  {
    assert (t + m)[|t|] == m[0] && (t + m)[..|t|] == t;
  }

  /** How the tasks may change together with some marks: aborts of tasks that are not terminal need a mark of the cut. */
  ghost predicate CutsOnly(before: seq<Task>, after: seq<Task>, m: seq<Mark>) {
    && |before| <= |after|
    && forall id: nat :: id < |after| && after[id].status.Aborted? ==>
         && id < |before| && after[id] == before[id].(status := Aborted)
         && (before[id] == after[id] ||
             (before[id].status.Live? && !before[id].terminal && m != [] && (m[0].StreamEnded? || m[0].DisconnectSeen?)))
  }

  lemma {:induction false} SpawnCutsNothing(s: State, callback: Callback, terminal: bool, m: seq<Mark>)
    ensures CutsOnly(s.tasks, SpawnDispatch(s, callback, terminal).tasks, m)
    ensures CutsOnly(s.tasks, s.tasks, m)
  {
  }

  lemma {:induction false} AbortCuts(s: State, m: seq<Mark>)
    requires m != [] && (m[0].StreamEnded? || m[0].DisconnectSeen?)
    ensures CutsOnly(s.tasks, AbortDispatch(s, false).tasks, m)
  {
  }

  lemma {:induction false} AbortThenSpawn(s: State, s1: State, callback: Callback, m: seq<Mark>)
    requires CutsOnly(s.tasks, s1.tasks, m)
    ensures CutsOnly(s.tasks, SpawnDispatch(s1, callback, true).tasks, m)
  {
  }

  lemma {:induction false} ReaderAborts(c: Config, s: State, input: Input)
    requires WellPlaced(s)
    ensures CutsOnly(s.tasks, ReaderBlock(c, s, input).tasks, MarksOf(c, s, input))
  {
    var m := MarksOf(c, s, input);
    if OwnsStream(s.reader.pc) {
      hide SpawnDispatch, AbortDispatch, CutsOnly;
      SpawnCutsNothing(s, OnError, true, m);
      match s.reader.pc
      case Stream(g) =>
        AbortCuts(s, [StreamEnded]);
        match input { case StreamError => case Packet(_, _) => case _ => }
      case GotError(g) => AbortCuts(s, [StreamEnded]);
      case GotPacket(g, kind, ours) =>
        AbortCuts(s, [StreamEnded]);
        match kind {
          case ConnectError => SpawnCutsNothing(s, OnConnectError, false, m);
          case Event => SpawnCutsNothing(s, OnEvent, false, m);
          case Ack => SpawnCutsNothing(s, OnAck, false, m);
          case Connect =>
          case Disconnect =>
        }
      case SettingUnknown(g) => SpawnCutsNothing(s.(reason := Unknown), OnConnect, true, m);
      case SettingServer(g) =>
        var cut := Mark1(AbortDispatch(s.(reason := Server), false), DisconnectSeen);
        AbortCuts(s.(reason := Server), m);
        AbortThenSpawn(s, cut, OnClose(s.epoch, IoServerDisconnect), m);
    } else if s.reader.pc.Deciding? {
      SpawnCutsNothing(s, OnClose(s.epoch, TransportClose), true, m);
    } else {
      Fence.OtherBlocksKeepTasks(c, s, input);
      SpawnCutsNothing(s, OnError, true, m);
      hide ReaderBlock, MarksOf;
    }
  }

  lemma {:induction false} AbortsKeptByReader(c: Config, s: State, input: Input)
    requires AbortInv(s) && Dispatch.TaskInv(s) && s.epoch == Sessions(s.trace) && WellPlaced(s) && ReaderReady(s)
    ensures AbortInv(ReaderBlock(c, s, input))
  {
    hide ReaderBlock, MarksOf, Sessions;
    var s', m := ReaderBlock(c, s, input), MarksOf(c, s, input);
    ReaderMarks(c, s, input);
    ReaderAborts(c, s, input);
    forall id: nat | id < |s'.tasks| && s'.tasks[id].status.Aborted?
      ensures MayBeCut(s', s'.tasks[id])
    {
      if s.tasks[id] == s'.tasks[id] {
        assert MayBeCut(s, s.tasks[id]);
        if CutIn(s.trace, s.tasks[id].session) {
          CutStays(s.trace, m, s.tasks[id].session);
        }
      } else {
        CutNow(s.trace, m);
      }
    }
  }

  lemma {:induction false} TeardownAborts(c: Config, s: State, i: nat)
    requires Enabled(s, TeardownStep(i))
    ensures var s' := TeardownBlock(s, i);
            && |s'.tasks| == |s.tasks| && s'.reader.pc == s.reader.pc && s'.trace == s.trace
            && (s.reader.aborted ==> s'.reader.aborted)
            && (s'.tasks == s.tasks || (i < |s'.teardowns| && s'.teardowns[i].Done?))
            && (forall id: nat :: id < |s.tasks| ==>
                  s'.tasks[id] == s.tasks[id] || s'.tasks[id] == s.tasks[id].(status := Aborted))
  {
    Dispatch.TeardownTasks(s, i);
    Fence.TeardownBlockFrame(s, i);
    hide AbortDispatch;
    match s.teardowns[i]
    case AwaitingSend(g, call) =>
    case _ =>
  }

  lemma {:induction false} DoneStays(c: Config, s: State, a: Action)
    requires Enabled(s, a) && Fence.SomeDone(s)
    ensures Fence.SomeDone(Apply(c, s, a))
  {
    hide Apply, Enabled;
    var i: nat :| i < |s.teardowns| && s.teardowns[i].Done?;
    Progress.DoneStays(c, s, i, a);
  }

  lemma {:induction false} AbortsKeptByOthers(c: Config, s: State, a: Action)
    requires AbortInv(s) && Dispatch.TaskInv(s) && Enabled(s, a) && !a.ReaderStep?
    ensures AbortInv(Apply(c, s, a))
  {
    hide Sessions, CutIn;
    if Fence.SomeDone(s) {
      DoneStays(c, s, a);
    }
    match a
    case TeardownStep(i) =>
      TeardownAborts(c, s, i);
      hide TeardownBlock;
    case _ =>
  }

  ghost predicate Inv(s: State) {
    Dispatch.Inv(s) && AbortInv(s)
  }

  lemma {:induction false} StartInv()
    ensures Inv(Start())
  {
    Dispatch.StartInv();
  }

  lemma {:induction false} InvPreserved(c: Config, s: State, a: Action)
    requires Inv(s) && Enabled(s, a)
    ensures Inv(Apply(c, s, a))
  {
    assert Dispatch.Inv(Apply(c, s, a)) by {
      Fence.InvPreserved(c, s, a);
      Dispatch.DispatchPreserved(c, s, a);
      Dispatch.EpochPreserved(c, s, a);
    }
    hide ReaderBlock, TeardownBlock, Fence.Inv, AbortInv;
    match a
    case ReaderStep(input) => AbortsKeptByReader(c, s, input);
    case _ => AbortsKeptByOthers(c, s, a);
  }

  lemma {:induction false} InvAlong(c: Config, s: State, run: seq<Action>)
    requires Inv(s) && Exec(c, s, run).Some?
    ensures Inv(Exec(c, s, run).value)
    decreases |run|
  {
    hide Apply, Enabled, Inv;
    if run != [] {
      InvPreserved(c, s, run[0]);
      InvAlong(c, Apply(c, s, run[0]), run[1..]);
    }
  }

  /**
   A terminal notification is aborted only by a teardown, and is on its way until then. Any other
   task is aborted only by the end of its session: the end of the stream or a DISCONNECT in it,
   or the end of an aborted reader.
   */
  lemma {:induction false} OnlyEndsAbort(c: Config, run: seq<Action>)
    requires Exec(c, Start(), run).Some?
    ensures var s := Exec(c, Start(), run).value;
            forall id: nat :: id < |s.tasks| && s.tasks[id].status.Aborted? && !Fence.SomeDone(s) ==>
              && !Dispatch.IsTerminal(s.tasks[id].callback)
              && (CutIn(s.trace, s.tasks[id].session) || ReaderCut(s))
  {
    StartInv();
    InvAlong(c, Start(), run);
    hide Exec, CutIn;
  }
}
