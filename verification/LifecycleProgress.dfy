/** No teardown can get stuck: it never needs the reader, its caller or the peer to cooperate. */
module LifecycleProgress {
  import opened Common
  import opened Lifecycle
  import opened LifecycleFence
  import Transport = TransportOwner

  /** Actions of the teardown machinery alone. */
  predicate IsCleanup(a: Action) {
    a.TeardownStep? || a.ReaderDrop? || (a.EngineStep? && a.a.Poll?)
  }

  function CallRank(pc: Transport.Pc): nat {
    match pc
    case DiscTake => 3
    case DiscLock => 2
    case DiscWriting => 1
    case _ => 0
  }

  /** How far the teardown at `i` is from being done. */
  function Rank(s: State, i: nat): nat
    requires i < |s.teardowns|
  {
    match s.teardowns[i]
    case WaitingTurn => 20
    case SettingManual => 19
    case TakingReader => 18
    case Joining => if s.reader.pc.Over? then 13 else 14
    case SendingDisconnect => 12
    case AwaitingSend(_, _) => 11
    case ClosingStream(_, _) => 10
    case RetiringEngine(_, _) => 9
    case AwaitingRetire(g, call, _) => 1 + CallRank(CallOf(s, g, call))
    case Done(_) => 0
  }

  /** The next cleanup action for the teardown that holds the operation lock. */
  function NextCleanup(s: State, i: nat): Action
    requires i < |s.teardowns|
  {
    match s.teardowns[i]
    case Joining => if s.reader.pc.Over? then TeardownStep(i) else ReaderDrop
    case AwaitingRetire(g, call, _) =>
      if Transport.IsOver(CallOf(s, g, call)) then TeardownStep(i)
      else EngineStep(g, Transport.Poll(call, Transport.Timeout))
    case _ => TeardownStep(i)
  }

  /** One cleanup action on behalf of the teardown at `i`. */
  ghost predicate Advances(c: Config, s: State, i: nat, a: Action) {
    && i < |s.teardowns| && IsCleanup(a) && Enabled(s, a)
    && var s' := Apply(c, s, a);
    && |s'.teardowns| == |s.teardowns| && Rank(s', i) < Rank(s, i)
    && (s'.operation == Some(i) || (s'.operation.None? && s'.teardowns[i].Done?))
    && forall j :: 0 <= j < |s.teardowns| && j != i ==> s'.teardowns[j] == s.teardowns[j]
  }

  lemma {:induction false} RetireAdvances(c: Config, s: State, i: nat)
    requires PlaceInv(s) && WorkInv(s) && DetachedInv(s)
    requires i < |s.teardowns| && s.teardowns[i].AwaitingRetire? && s.operation == Some(i)
    ensures Advances(c, s, i, NextCleanup(s, i))
  {
    var pc := s.teardowns[i];
    assert SocketOf(pc) == Some(s.installed);
    assert IsRetiring(CallOf(s, pc.g, pc.call));
  }

  lemma {:induction false} CleanupAdvances(c: Config, s: State, i: nat)
    requires PlaceInv(s) && OperationInv(s) && ReaderInv(s) && WorkInv(s) && DetachedInv(s)
    requires i < |s.teardowns| && !s.teardowns[i].Done?
    requires s.operation == Some(i) || (s.operation.None? && s.teardowns[i].WaitingTurn?)
    ensures Advances(c, s, i, NextCleanup(s, i))
  {
    assert SocketOf(s.teardowns[i]).Some? ==> SocketOf(s.teardowns[i]) == Some(s.installed);
    match s.teardowns[i]
    case AwaitingRetire(g, call, _) =>
      if s.operation == Some(i) {
        RetireAdvances(c, s, i);
      }
    case Joining =>
    case AwaitingSend(g, call) => assert g == s.installed;
    case ClosingStream(g, send) => assert g == s.installed;
    case RetiringEngine(g, send) => assert g == s.installed;
    case _ =>
  }

  /** A run of cleanup actions that completes the teardown at `i`. */
  lemma {:induction false} CompleteOne(c: Config, s: State, i: nat) returns (run: seq<Action>)
    requires Inv(s) && i < |s.teardowns| && !s.teardowns[i].Done?
    requires s.operation == Some(i) || (s.operation.None? && s.teardowns[i].WaitingTurn?)
    ensures forall a :: a in run ==> IsCleanup(a)
    ensures Exec(c, s, run).Some?
    ensures var s' := Exec(c, s, run).value;
            && Inv(s') && s'.operation.None? && |s'.teardowns| == |s.teardowns| && s'.teardowns[i].Done?
            && forall j :: 0 <= j < |s.teardowns| && j != i ==> s'.teardowns[j] == s.teardowns[j]
    decreases Rank(s, i)
  {
    CleanupAdvances(c, s, i);
    var a := NextCleanup(s, i);
    var s' := Apply(c, s, a);
    InvPreserved(c, s, a);
    if s'.teardowns[i].Done? {
      run := [a];
      assert Exec(c, s', []) == Some(s');
    } else {
      var rest := CompleteOne(c, s', i);
      run := [a] + rest;
      assert run[1..] == rest;
    }
  }

  function Pending(tds: seq<TeardownPc>): nat {
    if tds == [] then 0 else Pending(tds[1..]) + if tds[0].Done? then 0 else 1
  }

  lemma {:induction false} PendingSome(tds: seq<TeardownPc>)
    ensures Pending(tds) == 0 <==> forall i :: 0 <= i < |tds| ==> tds[i].Done?
  {
    if tds != [] {
      PendingSome(tds[1..]);
      if Pending(tds) == 0 {
        forall i | 0 <= i < |tds| ensures tds[i].Done? {
          assert i > 0 ==> tds[i] == tds[1..][i - 1];
        }
      } else if tds[0].Done? {
        var i :| 0 <= i < |tds[1..]| && !tds[1..][i].Done?;
        assert tds[i + 1] == tds[1..][i];
      }
    }
  }

  lemma {:induction false} PendingDrops(tds: seq<TeardownPc>, tds': seq<TeardownPc>, i: nat)
    requires |tds| == |tds'| && i < |tds| && !tds[i].Done? && tds'[i].Done?
    requires forall j :: 0 <= j < |tds| && j != i ==> tds[j] == tds'[j]
    ensures Pending(tds') == Pending(tds) - 1
  {
    if i == 0 {
      assert tds[1..] == tds'[1..];
    } else {
      PendingDrops(tds[1..], tds'[1..], i - 1);
    }
  }

  lemma {:induction false} ExecChain(c: Config, s: State, first: seq<Action>, second: seq<Action>)
    requires Exec(c, s, first).Some?
    ensures Exec(c, s, first + second) == Exec(c, Exec(c, s, first).value, second)
    decreases |first|
  {
    hide Apply, Enabled;
    if first == [] {
      assert first + second == second;
    } else {
      ExecChain(c, Apply(c, s, first[0]), first[1..], second);
      assert (first + second)[1..] == first[1..] + second;
    }
  }

  lemma {:induction false} CompleteAll(c: Config, s: State) returns (run: seq<Action>)
    requires Inv(s)
    ensures forall a :: a in run ==> IsCleanup(a)
    ensures Exec(c, s, run).Some?
    ensures forall i :: 0 <= i < |Exec(c, s, run).value.teardowns| ==> Exec(c, s, run).value.teardowns[i].Done?
    ensures |Exec(c, s, run).value.teardowns| == |s.teardowns|
    decreases Pending(s.teardowns)
  {
    PendingSome(s.teardowns);
    if Pending(s.teardowns) == 0 {
      run := [];
    } else {
      var i: nat;
      if s.operation.Some? {
        i := s.operation.value;
        assert IsActive(s.teardowns[i]);
      } else {
        i :| i < |s.teardowns| && !s.teardowns[i].Done?;
        assert !IsActive(s.teardowns[i]);
      }
      var first := CompleteOne(c, s, i);
      var s' := Exec(c, s, first).value;
      PendingDrops(s.teardowns, s'.teardowns, i);
      var second := CompleteAll(c, s');
      ExecChain(c, s, first, second);
      run := first + second;
    }
  }

  /**
   From every reachable state all pending disconnects, however many clones and callbacks
   asked for them, can be completed by cleanup actions alone: no deadlock between the
   operation lock, the join of the reader, the send lock and the detached close.
   */
  lemma {:induction false} EveryTeardownCanComplete(c: Config, before: seq<Action>)
    requires Exec(c, Start(), before).Some?
    ensures var s := Exec(c, Start(), before).value;
            exists run ::
              && (forall a :: a in run ==> IsCleanup(a))
              && Exec(c, s, run).Some?
              && |Exec(c, s, run).value.teardowns| == |s.teardowns|
              && forall i :: 0 <= i < |s.teardowns| ==> Exec(c, s, run).value.teardowns[i].Done?
  {
    StartInv();
    InvAlong(c, Start(), before);
    var run := CompleteAll(c, Exec(c, Start(), before).value);
  }

  // ----- completion under fairness -----

  /** The teardown at `i` still holds the lock and is no further from its end, or has ended. */
  predicate Keeps(s: State, s': State, i: nat) {
    && i < |s.teardowns| && i < |s'.teardowns| && Rank(s', i) <= Rank(s, i)
    && (s'.operation == Some(i) || s'.teardowns[i].Done?)
    && (Rank(s', i) == Rank(s, i) ==> s'.teardowns[i] == s.teardowns[i] && NextCleanup(s', i) == NextCleanup(s, i))
  }

  lemma {:induction false} RankKeptByReader(c: Config, s: State, i: nat, input: Input)
    requires PlaceInv(s) && OperationInv(s) && ReaderInv(s) && WorkInv(s) && DetachedInv(s)
    requires s.operation == Some(i) && Enabled(s, ReaderStep(input))
    ensures Keeps(s, ReaderBlock(c, s, input), i)
  {
    hide ReaderBlock;
    assert s.teardowns[i].AwaitingRetire? ==> HasJoined(s.teardowns[i]);
  }

  lemma {:induction false} RankKeptByEngine(s: State, i: nat, g: nat, e: Transport.Action)
    requires OperationInv(s) && WorkInv(s) && DetachedInv(s) && s.operation == Some(i)
    requires IsSocket(s, s.installed) && IsSocket(s, g) && Transport.Enabled(s.socks[g].engine, e)
    requires e.Cancel? ==> !IsDetached(s, g, e.task)
    ensures Keeps(s, SetSock(s, g, s.socks[g].(engine := Transport.Apply(s.socks[g].engine, e))), i)
  {
    var pc := s.teardowns[i];
    if pc.AwaitingRetire? {
      assert SocketOf(pc) == Some(s.installed);
      if g == pc.g {
        CallRankFalls(s.socks[g].engine, e, pc.call);
      }
    }
  }

  /** Nothing but its own polls moves a retiring call, and they move it towards its end. */
  lemma {:induction false} CallRankFalls(e: Transport.State, a: Transport.Action, call: nat)
    requires Transport.Enabled(e, a) && a != Transport.Cancel(call)
    requires call < |e.tasks| && IsRetiring(e.tasks[call])
    ensures var e' := Transport.Apply(e, a);
            && call < |e'.tasks| && IsRetiring(e'.tasks[call])
            && (e'.tasks[call] == e.tasks[call] || CallRank(e'.tasks[call]) < CallRank(e.tasks[call]))
  {
  }

  lemma {:induction false} RankKeptByTeardown(s: State, i: nat, j: nat)
    requires PlaceInv(s) && OperationInv(s) && ReaderInv(s) && WorkInv(s) && DetachedInv(s)
    requires s.operation == Some(i) && TeardownPlaced(s, j) && TeardownReady(s, j)
    ensures j == i && Rank(TeardownBlock(s, j), i) < Rank(s, i)
    ensures var s' := TeardownBlock(s, j);
            |s'.teardowns| == |s.teardowns| && (s'.operation == Some(i) || s'.teardowns[i].Done?)
  {
    assert IsActive(s.teardowns[j]);
    match s.teardowns[i]
    case AwaitingSend(g, call) =>
    case _ =>
  }

  /** No action raises the rank of the teardown that holds the lock, or changes what it needs next. */
  lemma {:induction false} RankNeverRises(c: Config, s: State, i: nat, a: Action)
    requires Inv(s) && s.operation == Some(i) && Enabled(s, a)
    ensures Keeps(s, Apply(c, s, a), i)
  {
    hide ReaderBlock, TeardownBlock, EngineInv, TrackedInv, TornDown;
    match a
    case ReaderStep(input) => RankKeptByReader(c, s, i, input);
    case TeardownStep(j) => RankKeptByTeardown(s, i, j);
    case EngineStep(g, e) => RankKeptByEngine(s, i, g, e);
    case ReaderDrop =>
    case TaskFinish(_) =>
    case CallDisconnect =>
  }

  lemma {:induction false} DoneStays(c: Config, s: State, i: nat, a: Action)
    requires i < |s.teardowns| && s.teardowns[i].Done? && Enabled(s, a)
    ensures i < |Apply(c, s, a).teardowns| && Apply(c, s, a).teardowns[i].Done?
  {
    hide ReaderBlock;
    if a.TeardownStep? {
      match s.teardowns[a.i]
      case AwaitingSend(g, call) =>
      case _ =>
    }
  }

  /** How often a run takes the clean-up action that the teardown at `i` needs at that moment. */
  function Helpful(c: Config, s: State, run: seq<Action>, i: nat): nat
    requires i < |s.teardowns|
    decreases |run|
  {
    if run == [] || !Enabled(s, run[0]) || i >= |Apply(c, s, run[0]).teardowns| then 0
    else
      (if !s.teardowns[i].Done? && run[0] == NextCleanup(s, i) then 1 else 0)
      + Helpful(c, Apply(c, s, run[0]), run[1..], i)
  }

  /**
   Completion under fairness: the teardown that holds the operation lock completes in every
   run that takes its next clean-up action often enough, whatever the reader, the server,
   other calls and other teardowns do in between. That action is always enabled and stays
   the same until the teardown has moved on, so nothing else can put it off.
   */
  lemma {:induction false} FairRunsComplete(c: Config, s: State, run: seq<Action>, i: nat)
    requires Inv(s) && i < |s.teardowns| && (s.operation == Some(i) || s.teardowns[i].Done?)
    requires Exec(c, s, run).Some? && Helpful(c, s, run, i) >= Rank(s, i)
    ensures var s' := Exec(c, s, run).value; i < |s'.teardowns| && s'.teardowns[i].Done?
    decreases |run|
  {
    hide Apply, Enabled, Inv, NextCleanup;
    if run == [] {
      RankOfDone(s, i);
    } else {
      var s' := Apply(c, s, run[0]);
      InvPreserved(c, s, run[0]);
      if s.teardowns[i].Done? {
        DoneStays(c, s, i, run[0]);
        hide Helpful;
        RankOfDone(s', i);
      } else {
        RankNeverRises(c, s, i, run[0]);
        if run[0] == NextCleanup(s, i) {
          CleanupIsHelpful(c, s, i);
        }
      }
      FairRunsComplete(c, s', run[1..], i);
    }
  }

  lemma {:induction false} RankOfDone(s: State, i: nat)
    requires i < |s.teardowns|
    ensures Rank(s, i) == 0 <==> s.teardowns[i].Done?
  {
  }

  lemma {:induction false} CleanupIsHelpful(c: Config, s: State, i: nat)
    requires Inv(s) && i < |s.teardowns| && s.operation == Some(i) && !s.teardowns[i].Done?
    ensures Enabled(s, NextCleanup(s, i))
    ensures var s' := Apply(c, s, NextCleanup(s, i)); i < |s'.teardowns| && Rank(s', i) < Rank(s, i)
  {
    CleanupAdvances(c, s, i);
    hide Apply, Enabled, NextCleanup, Rank;
  }
}
