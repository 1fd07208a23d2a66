/** Which callbacks are dispatched: one for every packet of the client's namespace, stream error and reported close. */
module LifecycleDispatch {
  import opened Common
  import opened Lifecycle
  import opened LifecycleRuns
  import opened LifecycleTrace
  import Closes = LifecycleCloses
  import Fence = LifecycleFence

  /** A dispatch that is due: its callback, whether it is terminal, and the session it belongs to. */
  datatype Notice = Notice(callback: Callback, terminal: bool, session: nat)

  /** The notice a packet of the client's namespace is owed in a session. */
  function NoticeOf(kind: PacketKind, session: nat): Notice {
    match kind
    case Event => Notice(OnEvent, false, session)
    case Ack => Notice(OnAck, false, session)
    case ConnectError => Notice(OnConnectError, false, session)
    case Connect => Notice(OnConnect, true, session)
    case Disconnect => Notice(OnClose(session, IoServerDisconnect), true, session)
  }

  function TaskFor(n: Notice): Task {
    Task(n.callback, n.terminal, n.session, Live)
  }

  /** The packet under the reader's hand, if it is one for a callback. */
  function HeldPacket(pc: ReaderPc): Option<PacketKind> {
    match pc
    case GotPacket(_, kind, ours) => if ours && !kind.Connect? && !kind.Disconnect? then Some(kind) else None
    case SettingUnknown(_) => Some(Connect)
    case SettingServer(_) => Some(Disconnect)
    case _ => None
  }

  /**
   Handling a packet of the client's namespace appends exactly one live task, the one owed to
   its kind, and goes back to the stream; a CONNECT and a DISCONNECT first take a block of
   their own. A packet of another namespace appends nothing. A stream error appends OnError.
   */
  lemma {:induction false} HandlingSpawns(c: Config, s: State, input: Input)
    requires WellPlaced(s) && OwnsStream(s.reader.pc) && !s.reader.pc.Stream?
    requires s.reader.pc.GotPacket? || s.reader.pc.GotError? ==> !s.reason.Manual?
    ensures var s' := ReaderBlock(c, s, input); var pc := s.reader.pc;
            && (HeldPacket(pc).Some? ==>
                  && s'.reader.pc.Stream? && |s'.tasks| == |s.tasks| + 1
                  && s'.tasks[|s.tasks|] == TaskFor(NoticeOf(HeldPacket(pc).value, s.epoch)))
            && (pc.GotError? ==>
                  && s'.reader.pc.Stream? && |s'.tasks| == |s.tasks| + 1
                  && s'.tasks[|s.tasks|] == TaskFor(Notice(OnError, true, s.epoch)))
            && (pc.GotPacket? && HeldPacket(pc).None? ==>
                  && s'.tasks == s.tasks
                  && s'.reader.pc == (if !pc.ours then Stream(pc.g)
                                      else if pc.kind.Connect? then SettingUnknown(pc.g) else SettingServer(pc.g)))
  {
    match s.reader.pc
    case GotPacket(g, kind, ours) => match kind { case Connect => case Disconnect => case _ => }
    case _ =>
  }

  // ----- over whole runs -----

  function Spawned(tasks: seq<Task>): (r: seq<Notice>)
    ensures |r| == |tasks|
  {
    seq(|tasks|, i requires 0 <= i < |tasks| => Notice(tasks[i].callback, tasks[i].terminal, tasks[i].session))
  }

  /** What an action makes due: a packet or an error that the stream yields, or a close that is decided. */
  function DueBy(s: State, a: Action): seq<Notice> {
    if !a.ReaderStep? then []
    else match s.reader.pc
      case Stream(g) =>
        if g >= |s.socks| || !s.socks[g].open then []
        else (match a.input
          case Packet(kind, ours) => if ours then [NoticeOf(kind, s.epoch)] else []
          case StreamError => [Notice(OnError, true, s.epoch)]
          case _ => [])
      case Deciding =>
        if s.reason.Unknown? then [Notice(OnClose(s.epoch, TransportClose), true, s.epoch)] else []
      case _ => []
  }

  /** Everything that came due in the first `n` actions of a run, in order. */
  function Due(c: Config, run: seq<Action>, n: nat): seq<Notice>
    requires IsRun(c, run) && n <= |run|
  {
    if n == 0 then [] else Due(c, run, n - 1) + DueBy(StateAt(c, run, n - 1), run[n - 1])
  }

  /** What the reader holds and has not dispatched yet. */
  function InHand(s: State): seq<Notice> {
    match s.reader.pc
    case GotPacket(_, kind, ours) => if ours then [NoticeOf(kind, s.epoch)] else []
    case GotError(_) => [Notice(OnError, true, s.epoch)]
    case SettingUnknown(_) => [NoticeOf(Connect, s.epoch)]
    case SettingServer(_) => [NoticeOf(Disconnect, s.epoch)]
    case _ => []
  }

  /** A reader that takes nothing more from a stream. */
  predicate IsLeaving(s: State) {
    s.reader.pc.Over? || (s.reader.pc.Deciding? && s.reason.Manual?)
  }

  /** Everything due is dispatched or in hand, or the one notice in hand was dropped on the way out. */
  ghost predicate Accounted(s: State, due: seq<Notice>) {
    || due == Spawned(s.tasks) + InHand(s)
    || (IsLeaving(s) && !Closes.Undisturbed(s) && |due| == |s.tasks| + 1 && due[..|s.tasks|] == Spawned(s.tasks))
  }

  lemma {:induction false} SpawnAppends(s: State, callback: Callback, terminal: bool)
    ensures Spawned(SpawnDispatch(s, callback, terminal).tasks)
         == Spawned(s.tasks) + [Notice(callback, terminal, s.epoch)]
  {
  }

  lemma {:induction false} AbortSpawnsNothing(s: State, includeTerminal: bool)
    ensures Spawned(AbortDispatch(s, includeTerminal).tasks) == Spawned(s.tasks)
  {
  }

  lemma {:induction false} SameNotices(a: seq<Task>, b: seq<Task>)
    requires |a| == |b|
    requires forall i :: 0 <= i < |a| ==>
               a[i].callback == b[i].callback && a[i].terminal == b[i].terminal && a[i].session == b[i].session
    ensures Spawned(a) == Spawned(b)
  {
  }

  /** How a reader block on a stream, or a decision, moves what is due. */
  lemma {:induction false} StreamAccounts(c: Config, s: State, input: Input)
    requires WellPlaced(s) && (OwnsStream(s.reader.pc) || s.reader.pc.Deciding?)
    ensures var s' := ReaderBlock(c, s, input);
            || Spawned(s'.tasks) + InHand(s') == Spawned(s.tasks) + InHand(s) + DueBy(s, ReaderStep(input))
            || (s.reason.Manual? && IsLeaving(s') && Spawned(s'.tasks) == Spawned(s.tasks)
                && |InHand(s)| == 1 && DueBy(s, ReaderStep(input)) == [])
  {
    hide SpawnDispatch, AbortDispatch, Spawned, NoticeOf;
    var nothing: seq<Notice> := [];
    assert forall a: seq<Notice> :: a + nothing == a;
    AbortSpawnsNothing(s, false);
    match s.reader.pc
    case Stream(g) => match input { case StreamError => case Packet(_, _) => case _ => }
    case GotError(g) => SpawnAppends(s, OnError, true);
    case GotPacket(g, kind, ours) => PacketAccounts(s, g, kind, ours);
    case SettingUnknown(g) =>
      SpawnAppends(s.(reason := Unknown), OnConnect, true);
      assert NoticeOf(Connect, s.epoch) == Notice(OnConnect, true, s.epoch) by { Table(s.epoch); }
    case SettingServer(g) =>
      var cut := AbortDispatch(s.(reason := Server), false);
      AbortSpawnsNothing(s.(reason := Server), false);
      SpawnAppends(Mark1(cut, DisconnectSeen), OnClose(s.epoch, IoServerDisconnect), true);
      assert NoticeOf(Disconnect, s.epoch) == Notice(OnClose(s.epoch, IoServerDisconnect), true, s.epoch) by { Table(s.epoch); }
    case Deciding => SpawnAppends(s, OnClose(s.epoch, TransportClose), true);
  }

  lemma {:induction false} Table(session: nat)
    ensures NoticeOf(Connect, session) == Notice(OnConnect, true, session)
    ensures NoticeOf(Disconnect, session) == Notice(OnClose(session, IoServerDisconnect), true, session)
    ensures NoticeOf(Event, session) == Notice(OnEvent, false, session)
    ensures NoticeOf(Ack, session) == Notice(OnAck, false, session)
    ensures NoticeOf(ConnectError, session) == Notice(OnConnectError, false, session)
  {
  }

  lemma {:induction false} PacketAccounts(s: State, g: nat, kind: PacketKind, ours: bool)
    requires s.reader.pc == GotPacket(g, kind, ours)
    ensures var s' := PacketBlock(s, g, kind, ours);
            || Spawned(s'.tasks) + InHand(s') == Spawned(s.tasks) + InHand(s)
            || (s.reason.Manual? && IsLeaving(s') && Spawned(s'.tasks) == Spawned(s.tasks) && |InHand(s)| == 1)
  {
    hide SpawnDispatch, AbortDispatch, Spawned, NoticeOf;
    Table(s.epoch);
    AbortSpawnsNothing(s, false);
    assert Spawned(s.tasks) + [] == Spawned(s.tasks);
    match kind
    case ConnectError => SpawnAppends(s, OnConnectError, false);
    case Event => SpawnAppends(s, OnEvent, false);
    case Ack => SpawnAppends(s, OnAck, false);
    case Connect =>
    case Disconnect =>
  }

  lemma {:induction false} ElsewhereAccounts(c: Config, s: State, input: Input)
    requires WellPlaced(s) && !OwnsStream(s.reader.pc) && !s.reader.pc.Deciding?
    ensures var s' := ReaderBlock(c, s, input);
            && s'.tasks == s.tasks && InHand(s) == [] == InHand(s') && DueBy(s, ReaderStep(input)) == []
  {
    Fence.OtherBlocksKeepTasks(c, s, input);
    hide SpawnDispatch, AbortDispatch, StreamBlock, PacketBlock, ErrorBlock, ConnectBlock, DisconnectBlock, DecideBlock;
  }

  lemma {:induction false} DueJoins(due: seq<Notice>, spawned: seq<Notice>, held: seq<Notice>, added: seq<Notice>, later: seq<Notice>)
    requires due == spawned + held && spawned + held + added == later
    ensures due + added == later
  {
  }

  lemma {:induction false} OneIsLost(due: seq<Notice>, spawned: seq<Notice>, held: seq<Notice>)
    requires due == spawned + held && |held| == 1
    ensures |due| == |spawned| + 1 && due[..|spawned|] == spawned
  {
  }

  lemma {:induction false} AccountedByReader(c: Config, s: State, input: Input, due: seq<Notice>)
    requires Accounted(s, due) && Closes.AccountInv(s) && WellPlaced(s)
    ensures Accounted(ReaderBlock(c, s, input), due + DueBy(s, ReaderStep(input)))
  {
    var s', added := ReaderBlock(c, s, input), DueBy(s, ReaderStep(input));
    assert !Closes.Undisturbed(s) || !s.reason.Manual? by { NeverManual(s.trace); }
    if due == Spawned(s.tasks) + InHand(s) {
      if OwnsStream(s.reader.pc) || s.reader.pc.Deciding? {
        StreamAccounts(c, s, input);
      } else {
        ElsewhereAccounts(c, s, input);
        assert InHand(s) + added == [];
      }
      hide ReaderBlock, Spawned, InHand, DueBy;
      if Spawned(s'.tasks) + InHand(s') == Spawned(s.tasks) + InHand(s) + added {
        DueJoins(due, Spawned(s.tasks), InHand(s), added, Spawned(s'.tasks) + InHand(s'));
      } else {
        OneIsLost(due, Spawned(s.tasks), InHand(s));
        assert due + added == due;
      }
    } else {
      assert due + [] == due;
      hide SpawnDispatch, AbortDispatch;
    }
  }

  lemma {:induction false} OthersSpawnNothing(c: Config, s: State, a: Action)
    requires Enabled(s, a) && !a.ReaderStep?
    ensures var s' := Apply(c, s, a);
            && Spawned(s'.tasks) == Spawned(s.tasks) && s'.epoch == s.epoch
            && (Closes.Undisturbed(s') ==> Closes.Undisturbed(s))
            && (a.ReaderDrop? ==> s'.reader.pc.Over?)
            && (!a.ReaderDrop? ==> s'.reader.pc == s.reader.pc && (IsLeaving(s) ==> IsLeaving(s')))
  {
    hide Spawned;
    var s' := Apply(c, s, a);
    assert |s'.tasks| == |s.tasks| && forall i :: 0 <= i < |s.tasks| ==>
             s'.tasks[i].callback == s.tasks[i].callback && s'.tasks[i].terminal == s.tasks[i].terminal
             && s'.tasks[i].session == s.tasks[i].session by {
      match a
      case TeardownStep(i) => match s.teardowns[i] { case AwaitingSend(g, emit) => case _ => }
      case _ =>
    }
    SameNotices(s'.tasks, s.tasks);
    hide AbortDispatch;
    match a
    case TeardownStep(i) => match s.teardowns[i] { case AwaitingSend(g, emit) => case _ => }
    case _ =>
  }

  lemma {:induction false} AccountedStep(c: Config, s: State, a: Action, due: seq<Notice>)
    requires Accounted(s, due) && Closes.AccountInv(s) && Enabled(s, a)
    ensures Accounted(Apply(c, s, a), due + DueBy(s, a))
  {
    if a.ReaderStep? {
      AccountedByReader(c, s, a.input, due);
    } else {
      assert due + [] == due;
      OthersSpawnNothing(c, s, a);
      if a.ReaderDrop? && due == Spawned(s.tasks) + InHand(s) {
        assert !Closes.Undisturbed(s);
        hide Apply, Spawned;
        if InHand(s) != [] {
          OneIsLost(due, Spawned(s.tasks), InHand(s));
        }
      }
      hide Apply, Spawned;
    }
  }

  lemma {:induction false} AccountAt(c: Config, run: seq<Action>, n: nat)
    requires IsRun(c, run) && n <= |run|
    ensures Closes.AccountInv(StateAt(c, run, n))
  {
    PrefixIsRun(c, run, n);
    Closes.StartCounts();
    Closes.CountsAlong(c, Start(), run[..n]);
  }

  lemma {:induction false} NothingYet()
    ensures Accounted(Start(), [])
  {
  }

  lemma {:induction false} AccountedAt(c: Config, run: seq<Action>, n: nat)
    requires IsRun(c, run) && n <= |run|
    ensures Accounted(StateAt(c, run, n), Due(c, run, n))
    decreases n
  {
    hide StateAt, Accounted, Apply, Enabled, DueBy, Closes.AccountInv;
    if n == 0 {
      Ends(c, run);
      NothingYet();
    } else {
      AccountedAt(c, run, n - 1);
      AccountAt(c, run, n - 1);
      NextState(c, run, n - 1);
      AccountedStep(c, StateAt(c, run, n - 1), run[n - 1], Due(c, run, n - 1));
    }
  }

  /**
   Every notice that comes due in a run is dispatched, in order, once, with the callback, the
   terminal flag and the session it is owed, and nothing else is; only the last one may still
   be in the reader's hand, or have been dropped there by a disconnect, and then the reader
   takes nothing more.
   */
  lemma {:induction false} NothingIsUndispatched(c: Config, run: seq<Action>)
    requires IsRun(c, run)
    ensures var s := Exec(c, Start(), run).value; var due := Due(c, run, |run|); var spawned := Spawned(s.tasks);
            && spawned <= due && |due| <= |spawned| + 1
            && (due == spawned + InHand(s) || (IsLeaving(s) && !Closes.Undisturbed(s)))
  {
    hide StateAt;
    AccountedAt(c, run, |run|);
    Ends(c, run);
  }
}
