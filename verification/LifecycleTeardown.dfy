/** What a teardown does on its way: the reason it sets, the packet it sends, the call it retires with, its result. */
module LifecycleTeardown {
  import opened Common
  import opened Lifecycle
  import opened LifecycleRuns
  import Closes = LifecycleCloses
  import Trace = LifecycleTrace
  import Transport = TransportOwner

  /** Action `j` of the run is a block of teardown `i`, which was at `pc`. */
  ghost predicate Took(c: Config, run: seq<Action>, j: nat, i: nat, pc: TeardownPc)
    requires IsRun(c, run)
  {
    && j < |run| && run[j] == TeardownStep(i)
    && i < |StateAt(c, run, j).teardowns| && StateAt(c, run, j).teardowns[i] == pc
  }

  /** Both flags that allow a send, on the socket installed at that moment. */
  predicate IsOpen(s: State) {
    s.installed < |s.socks| && s.socks[s.installed].connected && s.socks[s.installed].engine.connected
  }

  /** At `j` the teardown found its socket open and handed the packet to the engine, as its call `emit`. */
  ghost predicate SentAt(c: Config, run: seq<Action>, j: nat, i: nat, g: nat, emit: nat)
    requires IsRun(c, run)
  {
    && Took(c, run, j, i, SendingDisconnect)
    && var s, s' := StateAt(c, run, j), StateAt(c, run, j + 1);
    && IsOpen(s) && g == s.installed && g < |s'.socks| && emit == |s.socks[g].engine.tasks|
    && s'.socks[g].engine.tasks == s.socks[g].engine.tasks + [Transport.EmitCheck]
  }

  /** At `j` it found one of the flags cleared and sent nothing. */
  ghost predicate HeldBackAt(c: Config, run: seq<Action>, j: nat, i: nat, g: nat)
    requires IsRun(c, run)
  {
    && Took(c, run, j, i, SendingDisconnect)
    && var s, s' := StateAt(c, run, j), StateAt(c, run, j + 1);
    !IsOpen(s) && g == s.installed && s'.socks == s.socks
  }

  /** At `j` it asked the engine to disconnect, as its call `retire`. */
  ghost predicate RetiredAt(c: Config, run: seq<Action>, j: nat, i: nat, g: nat, retire: nat)
    requires IsRun(c, run)
  {
    && j < |run| && run[j] == TeardownStep(i)
    && var s, s' := StateAt(c, run, j), StateAt(c, run, j + 1);
    && g < |s.socks| && g < |s'.socks| && retire == |s.socks[g].engine.tasks|
    && s'.socks[g].engine.tasks == s.socks[g].engine.tasks + [Transport.DiscTake]
  }

  /** What the teardown has noted about its packet is what happened before `n`. */
  ghost predicate Explained(c: Config, run: seq<Action>, n: nat, i: nat, g: nat, send: SendOutcome)
    requires IsRun(c, run)
  {
    if send.NotOpen? then exists j: nat :: j < n && HeldBackAt(c, run, j, i, g)
    else exists j: nat, k: nat, emit: nat ::
           && j < k < n && SentAt(c, run, j, i, g, emit) && Took(c, run, k, i, AwaitingSend(g, emit))
           && (send.Sent? <==> CallOf(StateAt(c, run, k), g, emit) == Transport.EmitDone(true))
  }

  ghost predicate EndedWith(c: Config, run: seq<Action>, r: nat, i: nat, g: nat, retire: nat, send: SendOutcome, ok: bool)
    requires IsRun(c, run)
  {
    && Took(c, run, r, i, AwaitingRetire(g, retire, send)) && Explained(c, run, r, i, g, send)
    && (exists q: nat :: q < r && RetiredAt(c, run, q, i, g, retire))
    && (ok <==> CallOf(StateAt(c, run, r), g, retire) == Transport.DiscDone(true) && !send.SendFailed?)
  }

  /** The story behind the place a teardown has reached. */
  ghost predicate Story(c: Config, run: seq<Action>, n: nat, i: nat, pc: TeardownPc)
    requires IsRun(c, run)
  {
    match pc
    case AwaitingSend(g, emit) => exists j: nat :: j < n && SentAt(c, run, j, i, g, emit)
    case ClosingStream(g, send) => Explained(c, run, n, i, g, send)
    case RetiringEngine(g, send) => Explained(c, run, n, i, g, send)
    case AwaitingRetire(g, retire, send) =>
      Explained(c, run, n, i, g, send) && exists q: nat :: q < n && RetiredAt(c, run, q, i, g, retire)
    case Done(ok) =>
      exists r: nat, g: nat, retire: nat, send: SendOutcome :: r < n && EndedWith(c, run, r, i, g, retire, send, ok)
    case _ => true
  }

  /** Only its own blocks move a teardown. */
  lemma {:induction false} OthersLeaveIt(c: Config, s: State, a: Action, i: nat)
    requires Enabled(s, a) && a != TeardownStep(i)
    ensures |s.teardowns| <= |Apply(c, s, a).teardowns|
    ensures i < |Apply(c, s, a).teardowns| ==>
              Apply(c, s, a).teardowns[i] == if i < |s.teardowns| then s.teardowns[i] else WaitingTurn
  {
    hide ReaderBlock, AbortDispatch;
    match a
    case TeardownStep(j) => match s.teardowns[j] { case AwaitingSend(g, call) => case _ => }
    case _ =>
  }

  lemma {:induction false} StoryGrows(c: Config, run: seq<Action>, n: nat, i: nat, pc: TeardownPc)
    requires IsRun(c, run) && Story(c, run, n, i, pc)
    ensures Story(c, run, n + 1, i, pc)
  {
    hide SentAt, HeldBackAt, RetiredAt, Took, EndedWith, StateAt;
  }

  /**
   The block at `SendingDisconnect`: with both flags set it starts exactly one emit on the
   installed socket's engine and waits for it; otherwise it starts nothing and goes on.
   */
  lemma {:induction false} SendsExactly(c: Config, run: seq<Action>, j: nat, i: nat)
    requires IsRun(c, run) && Took(c, run, j, i, SendingDisconnect)
    ensures var s, s' := StateAt(c, run, j), StateAt(c, run, j + 1);
            && i < |s'.teardowns|
            && if IsOpen(s) then
                 var emit := |s.socks[s.installed].engine.tasks|;
                 SentAt(c, run, j, i, s.installed, emit) && s'.teardowns[i] == AwaitingSend(s.installed, emit)
               else HeldBackAt(c, run, j, i, s.installed) && s'.teardowns[i] == ClosingStream(s.installed, NotOpen)
  {
    NextState(c, run, j);
    hide StateAt, ReaderBlock, AbortDispatch;
  }

  lemma {:induction false} RetiresExactly(c: Config, run: seq<Action>, j: nat, i: nat, g: nat, send: SendOutcome)
    requires IsRun(c, run) && Took(c, run, j, i, RetiringEngine(g, send))
    ensures var s, s' := StateAt(c, run, j), StateAt(c, run, j + 1);
            && i < |s'.teardowns| && g < |s.socks|
            && RetiredAt(c, run, j, i, g, |s.socks[g].engine.tasks|)
            && s'.teardowns[i] == AwaitingRetire(g, |s.socks[g].engine.tasks|, send)
  {
    NextState(c, run, j);
    hide StateAt, ReaderBlock, AbortDispatch;
  }

  /** The other blocks, seen from the place they lead to. */
  lemma {:induction false} MovesOn(c: Config, s: State, i: nat)
    requires Enabled(s, TeardownStep(i))
    ensures var s' := Apply(c, s, TeardownStep(i));
            && i < |s'.teardowns|
            && match s.teardowns[i]
               case AwaitingSend(g, emit) =>
                 s'.teardowns[i] == ClosingStream(g, if CallOf(s, g, emit) == Transport.EmitDone(true) then Sent else SendFailed)
               case ClosingStream(g, send) => s'.teardowns[i] == RetiringEngine(g, send)
               case AwaitingRetire(g, retire, send) =>
                 s'.teardowns[i] == Done(CallOf(s, g, retire) == Transport.DiscDone(true) && !send.SendFailed?)
               case WaitingTurn => s'.teardowns[i] == SettingManual
               case SettingManual => s'.teardowns[i] == TakingReader
               case TakingReader => s'.teardowns[i].Joining? || s'.teardowns[i].SendingDisconnect?
               case Joining => s'.teardowns[i].SendingDisconnect?
               case _ => true
  {
    hide AbortDispatch;
    match s.teardowns[i]
    case AwaitingSend(g, emit) =>
    case _ =>
  }

  lemma {:induction false} OwnStep(c: Config, run: seq<Action>, n: nat, i: nat)
    requires IsRun(c, run) && n < |run| && run[n] == TeardownStep(i) && i < |StateAt(c, run, n).teardowns|
    requires Story(c, run, n, i, StateAt(c, run, n).teardowns[i])
    ensures i < |StateAt(c, run, n + 1).teardowns|
    ensures Story(c, run, n + 1, i, StateAt(c, run, n + 1).teardowns[i])
  {
    hide Apply, Enabled, StateAt, SentAt, HeldBackAt, RetiredAt;
    var s := StateAt(c, run, n);
    NextState(c, run, n);
    var pc := s.teardowns[i];
    assert Took(c, run, n, i, pc);
    HasTeardown(s, i);
    match pc
    case SendingDisconnect => SendsExactly(c, run, n, i);
    case RetiringEngine(g, send) =>
      RetiresExactly(c, run, n, i, g, send);
      StoryGrows(c, run, n, i, pc);
    case AwaitingSend(g, emit) => MovesOn(c, s, i);
    case ClosingStream(g, send) =>
      MovesOn(c, s, i);
      StoryGrows(c, run, n, i, pc);
    case AwaitingRetire(g, retire, send) =>
      MovesOn(c, s, i);
      var ok := CallOf(s, g, retire) == Transport.DiscDone(true) && !send.SendFailed?;
      assert EndedWith(c, run, n, i, g, retire, send, ok);
    case WaitingTurn => MovesOn(c, s, i);
    case SettingManual => MovesOn(c, s, i);
    case TakingReader => MovesOn(c, s, i);
    case Joining => MovesOn(c, s, i);
  }

  /** At every point of a run every teardown has the story of its place. */
  lemma {:induction false} StoryHolds(c: Config, run: seq<Action>, n: nat, i: nat)
    requires IsRun(c, run) && n <= |run| && i < |StateAt(c, run, n).teardowns|
    ensures Story(c, run, n, i, StateAt(c, run, n).teardowns[i])
    decreases n
  {
    hide Story, Apply, Enabled, StateAt;
    if n == 0 {
      Ends(c, run);
    } else {
      NextState(c, run, n - 1);
      var s := StateAt(c, run, n - 1);
      if run[n - 1] != TeardownStep(i) {
        OthersLeaveIt(c, s, run[n - 1], i);
        if i < |s.teardowns| {
          StoryHolds(c, run, n - 1, i);
          StoryGrows(c, run, n - 1, i, s.teardowns[i]);
        } else {
          FreshStory(c, run, n, i);
        }
      } else {
        HasTeardown(s, i);
        StoryHolds(c, run, n - 1, i);
        OwnStep(c, run, n - 1, i);
      }
    }
  }

  lemma {:induction false} FreshStory(c: Config, run: seq<Action>, n: nat, i: nat)
    requires IsRun(c, run)
    ensures Story(c, run, n, i, WaitingTurn)
  {
  }

  lemma {:induction false} HasTeardown(s: State, i: nat)
    requires Enabled(s, TeardownStep(i))
    ensures i < |s.teardowns| && !s.teardowns[i].Done?
  {
  }

  // ----- once and in order -----

  function Phase(pc: TeardownPc): nat {
    match pc
    case WaitingTurn => 0
    case SettingManual => 1
    case TakingReader => 2
    case Joining => 3
    case SendingDisconnect => 4
    case AwaitingSend(_, _) => 5
    case ClosingStream(_, _) => 6
    case RetiringEngine(_, _) => 7
    case AwaitingRetire(_, _, _) => 8
    case Done(_) => 9
  }

  lemma {:induction false} PhaseStep(c: Config, s: State, a: Action, i: nat)
    requires Enabled(s, a) && i < |s.teardowns|
    ensures i < |Apply(c, s, a).teardowns|
    ensures Phase(Apply(c, s, a).teardowns[i]) >= Phase(s.teardowns[i]) + if a == TeardownStep(i) then 1 else 0
  {
    if a == TeardownStep(i) {
      hide AbortDispatch;
      match s.teardowns[i]
      case AwaitingSend(g, emit) =>
      case _ =>
    } else {
      hide Apply;
      OthersLeaveIt(c, s, a, i);
    }
  }

  lemma {:induction false} PhaseGrows(c: Config, run: seq<Action>, m: nat, n: nat, i: nat)
    requires IsRun(c, run) && m <= n <= |run| && i < |StateAt(c, run, m).teardowns|
    ensures i < |StateAt(c, run, n).teardowns|
    ensures Phase(StateAt(c, run, n).teardowns[i])
         >= Phase(StateAt(c, run, m).teardowns[i]) + if m < n && run[m] == TeardownStep(i) then 1 else 0
    decreases n - m
  {
    hide Apply, Enabled, Phase, StateAt;
    if m < n {
      NextState(c, run, m);
      PhaseStep(c, StateAt(c, run, m), run[m], i);
      PhaseGrows(c, run, m + 1, n, i);
    }
  }

  /** A teardown passes each place once. */
  lemma {:induction false} TookOnce(c: Config, run: seq<Action>, j: nat, x: nat, i: nat, pc: TeardownPc)
    requires IsRun(c, run) && Took(c, run, j, i, pc) && Took(c, run, x, i, pc)
    ensures j == x
  {
    hide StateAt;
    if j < x {
      PhaseGrows(c, run, j, x, i);
    } else if x < j {
      PhaseGrows(c, run, x, j, i);
    }
  }

  /**
   What a completed teardown has done and what its result means. It passed `SendingDisconnect`
   exactly once, at `j`. If the socket was open then, it started one emit, and waited for it
   until `k`; if not, it sent nothing. It then asked the engine to disconnect. Its result is Ok
   exactly if that disconnect ended well and the emit, if there was one, did too.
   */
  lemma {:induction false} TeardownReport(c: Config, run: seq<Action>, i: nat, ok: bool)
    returns (j: nat, k: nat, q: nat, r: nat, g: nat, emit: nat, retire: nat)
    requires IsRun(c, run) && i < |StateAt(c, run, |run|).teardowns|
    requires StateAt(c, run, |run|).teardowns[i] == Done(ok)
    ensures j < r < |run| && q < r && RetiredAt(c, run, q, i, g, retire)
    ensures forall x: nat :: Took(c, run, x, i, SendingDisconnect) <==> x == j
    ensures if IsOpen(StateAt(c, run, j)) then
              SentAt(c, run, j, i, g, emit) && j < k < r && Took(c, run, k, i, AwaitingSend(g, emit))
            else HeldBackAt(c, run, j, i, g)
    ensures ok <==>
              && CallOf(StateAt(c, run, r), g, retire) == Transport.DiscDone(true)
              && (IsOpen(StateAt(c, run, j)) ==> CallOf(StateAt(c, run, k), g, emit) == Transport.EmitDone(true))
  {
    hide StateAt, Took;
    StoryHolds(c, run, |run|, i);
    var send: SendOutcome;
    r, g, retire, send :| r < |run| && EndedWith(c, run, r, i, g, retire, send, ok);
    TookBefore(c, run, r, i, AwaitingRetire(g, retire, send));
    q :| q < r && RetiredAt(c, run, q, i, g, retire);
    if send.NotOpen? {
      j :| j < r && HeldBackAt(c, run, j, i, g);
      k, emit := 0, 0;
    } else {
      j, k, emit :| && j < k < r && SentAt(c, run, j, i, g, emit) && Took(c, run, k, i, AwaitingSend(g, emit))
                    && (send.Sent? <==> CallOf(StateAt(c, run, k), g, emit) == Transport.EmitDone(true));
    }
    forall x: nat | Took(c, run, x, i, SendingDisconnect) ensures x == j {
      TookOnce(c, run, j, x, i, SendingDisconnect);
    }
  }

  lemma {:induction false} TookBefore(c: Config, run: seq<Action>, j: nat, i: nat, pc: TeardownPc)
    requires IsRun(c, run) && Took(c, run, j, i, pc)
    ensures j < |run|
  {
  }

  /** While a teardown waits for its packet, and when it has sent none, this is why. */
  lemma {:induction false} PacketOrClosed(c: Config, run: seq<Action>, i: nat)
    requires IsRun(c, run) && i < |StateAt(c, run, |run|).teardowns|
    ensures match StateAt(c, run, |run|).teardowns[i]
            case AwaitingSend(g, emit) => exists j: nat :: j < |run| && SentAt(c, run, j, i, g, emit)
            case ClosingStream(g, NotOpen) => exists j: nat :: j < |run| && HeldBackAt(c, run, j, i, g)
            case _ => true
  {
    hide StateAt;
    StoryHolds(c, run, |run|, i);
  }

  // ----- the reason -----

  lemma {:induction false} ManualStep(c: Config, s: State, a: Action)
    requires Enabled(s, a) && s.reason.Manual?
    ensures var s' := Apply(c, s, a);
            && s.trace <= s'.trace
            && (s'.reason.Manual? || exists x :: x in s'.trace[|s.trace|..] && Trace.IsPacket(x))
  {
    var s' := Apply(c, s, a);
    match a
    case ReaderStep(input) =>
      hide ReaderBlock;
      var m := Trace.MarksOf(c, s, input);
      Trace.ReaderMarks(c, s, input);
      Closes.ReasonFollowsMarks(c, s, input);
      assert s'.trace[|s.trace|..] == m;
      if s.reader.pc.SettingUnknown? {
        assert ConnectSeen in m;
      } else if s.reader.pc.SettingServer? {
        assert DisconnectSeen in m;
      }
    case _ =>
      Trace.OthersLeaveNoMark(c, s, a);
      OthersKeepManual(c, s, a);
      hide Apply;
  }

  lemma {:induction false} OthersKeepManual(c: Config, s: State, a: Action)
    requires Enabled(s, a) && !a.ReaderStep? && s.reason.Manual?
    ensures Apply(c, s, a).reason.Manual?
  {
    hide AbortDispatch;
    match a
    case TeardownStep(i) => match s.teardowns[i] { case AwaitingSend(g, emit) => case _ => }
    case _ =>
  }

  lemma {:induction false} ManualAlong(c: Config, run: seq<Action>, m: nat, n: nat)
    requires IsRun(c, run) && m <= n <= |run| && StateAt(c, run, m).reason.Manual?
    ensures StateAt(c, run, m).trace <= StateAt(c, run, n).trace
    ensures (forall x :: x in StateAt(c, run, n).trace[|StateAt(c, run, m).trace|..] ==> !Trace.IsPacket(x)) ==>
              StateAt(c, run, n).reason.Manual?
    decreases n - m
  {
    hide Apply, Enabled, StateAt;
    if m < n {
      var s, s', end := StateAt(c, run, m), StateAt(c, run, m + 1), StateAt(c, run, n);
      NextState(c, run, m);
      ManualStep(c, s, run[m]);
      TraceGrows(c, run, m + 1, n);
      if s'.reason.Manual? {
        ManualAlong(c, run, m + 1, n);
        assert forall x :: x in end.trace[|s'.trace|..] ==> x in end.trace[|s.trace|..];
      } else {
        assert s'.trace[|s.trace|..] <= end.trace[|s.trace|..];
        var x :| x in s'.trace[|s.trace|..] && Trace.IsPacket(x);
        assert x in end.trace[|s.trace|..];
      }
    }
  }

  lemma {:induction false} TraceGrows(c: Config, run: seq<Action>, m: nat, n: nat)
    requires IsRun(c, run) && m <= n <= |run|
    ensures StateAt(c, run, m).trace <= StateAt(c, run, n).trace
    decreases n - m
  {
    hide Apply, Enabled, StateAt;
    if m < n {
      NextState(c, run, m);
      TraceStep(c, StateAt(c, run, m), run[m]);
      TraceGrows(c, run, m + 1, n);
    }
  }

  lemma {:induction false} TraceStep(c: Config, s: State, a: Action)
    requires Enabled(s, a)
    ensures s.trace <= Apply(c, s, a).trace
  {
    match a
    case ReaderStep(input) =>
      hide ReaderBlock;
      Trace.ReaderMarks(c, s, input);
    case _ =>
      Trace.OthersLeaveNoMark(c, s, a);
      hide Apply;
  }

  /** From the block that sets it, the reason is manual until the reader handles a CONNECT or a DISCONNECT. */
  lemma {:induction false} StaysManual(c: Config, run: seq<Action>, j: nat, n: nat, i: nat)
    requires IsRun(c, run) && Took(c, run, j, i, SettingManual) && j < n <= |run|
    ensures StateAt(c, run, j + 1).trace <= StateAt(c, run, n).trace
    ensures (forall x :: x in StateAt(c, run, n).trace[|StateAt(c, run, j + 1).trace|..] ==> !Trace.IsPacket(x)) ==>
              StateAt(c, run, n).reason.Manual?
  {
    NextState(c, run, j);
    hide StateAt, ReaderBlock;
    ManualAlong(c, run, j + 1, n);
  }
}
