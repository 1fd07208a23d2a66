/** When the reader reconnects, how often it tries, and what it takes to open a session. */
module LifecycleAttempts {
  import opened Common
  import opened Lifecycle
  import opened LifecycleRuns
  import opened LifecycleTrace
  import Closes = LifecycleCloses
  import Fence = LifecycleFence
  import Transport = TransportOwner

  predicate InRound(pc: ReaderPc) {
    !Closes.PreDecision(pc) && !pc.Over?
  }

  // ----- decisions -----

  /** What the configuration says about reconnecting for a reason. */
  predicate Permits(c: Config, reason: Reason) {
    (reason.Unknown? && c.reconnect) || (reason.Server? && c.reconnectOnDisconnect)
  }

  /** A decision opens a round of attempts exactly if it is permitted, and otherwise ends the reader. */
  lemma {:induction false} DecisionExactly(c: Config, s: State, input: Input)
    requires WellPlaced(s) && s.reader.pc.Deciding?
    ensures ReaderBlock(c, s, input).reader.pc == if Permits(c, s.reason) then Attempt(0) else Over
  {
    hide SpawnDispatch, AbortDispatch;
  }

  ghost predicate DecidedAt(c: Config, run: seq<Action>, j: nat)
    requires IsRun(c, run)
  {
    j < |run| && run[j].ReaderStep? && StateAt(c, run, j).reader.pc.Deciding?
  }

  /** The last decision before `n` was taken at `j`. */
  ghost predicate LastDecision(c: Config, run: seq<Action>, j: nat, n: nat)
    requires IsRun(c, run)
  {
    j < n && DecidedAt(c, run, j) && forall k: nat :: j < k < n ==> !DecidedAt(c, run, k)
  }

  /** The reader enters and leaves a round only by a decision, a success, an exhausted round or its end. */
  lemma {:induction false} RoundStep(c: Config, s: State, a: Action)
    requires Enabled(s, a) && !(a.ReaderStep? && s.reader.pc.Deciding?)
    ensures var s' := Apply(c, s, a);
            && (InRound(s'.reader.pc) ==> InRound(s.reader.pc))
            && (s'.reader.pc.Over? && !s'.reader.aborted ==> s.reader.pc.Over?)
  {
    hide SpawnDispatch, AbortDispatch;
    match a
    case ReaderStep(input) =>
      Closes.ReaderMoves(c, s, input);
      NeverOverByItself(c, s, input);
      hide ReaderBlock;
    case TeardownStep(i) => Fence.TeardownBlockFrame(s, i);
    case _ =>
  }

  lemma {:induction false} NeverOverByItself(c: Config, s: State, input: Input)
    requires WellPlaced(s) && !s.reader.pc.Deciding? && !s.reader.pc.Over?
    ensures !ReaderBlock(c, s, input).reader.pc.Over?
  {
    hide SpawnDispatch, AbortDispatch;
    match s.reader.pc
    case Stream(g) => match input { case StreamError => case Packet(_, _) => case _ => }
    case GotPacket(g, kind, ours) => match kind { case Connect => case Disconnect => case _ => }
    case _ =>
  }

  /**
   Whenever the reader works on a reconnect, its last decision was one the configuration permits;
   and it ends by itself only after one that it does not.
   */
  lemma {:induction false} ReconnectsAsDecided(c: Config, run: seq<Action>, n: nat)
    requires IsRun(c, run) && n <= |run|
    ensures InRound(StateAt(c, run, n).reader.pc) ==>
              exists j: nat :: LastDecision(c, run, j, n) && Permits(c, StateAt(c, run, j).reason)
    ensures StateAt(c, run, n).reader.pc.Over? && !StateAt(c, run, n).reader.aborted ==>
              exists j: nat :: LastDecision(c, run, j, n) && !Permits(c, StateAt(c, run, j).reason)
    decreases n
  {
    hide StateAt, Apply, Enabled, Permits, Closes.PreDecision;
    if n == 0 {
      Ends(c, run);
      AtFirst();
    } else {
      var s, s' := StateAt(c, run, n - 1), StateAt(c, run, n);
      NextState(c, run, n - 1);
      ReconnectsAsDecided(c, run, n - 1);
      if DecidedAt(c, run, n - 1) {
        ByDecision(c, s, run[n - 1]);
        assert LastDecision(c, run, n - 1, n);
      } else {
        RoundStep(c, s, run[n - 1]);
        AbortedForGood(c, s, run[n - 1]);
        if j: nat :| LastDecision(c, run, j, n - 1) && Permits(c, StateAt(c, run, j).reason) {
          assert LastDecision(c, run, j, n);
        }
        if j: nat :| LastDecision(c, run, j, n - 1) && !Permits(c, StateAt(c, run, j).reason) {
          assert LastDecision(c, run, j, n);
        }
      }
    }
  }

  lemma {:induction false} AtFirst()
    ensures !InRound(Start().reader.pc) && !Start().reader.pc.Over?
  {
  }

  lemma {:induction false} ByDecision(c: Config, s: State, a: Action)
    requires Enabled(s, a) && a.ReaderStep? && s.reader.pc.Deciding?
    ensures var pc := Apply(c, s, a).reader.pc;
            (InRound(pc) ==> Permits(c, s.reason)) && (pc.Over? ==> !Permits(c, s.reason))
  {
    DecisionExactly(c, s, a.input);
    hide ReaderBlock;
  }

  lemma {:induction false} AbortedForGood(c: Config, s: State, a: Action)
    requires Enabled(s, a)
    ensures s.reader.aborted ==> Apply(c, s, a).reader.aborted
  {
    hide ReaderBlock, AbortDispatch;
    match a
    case TeardownStep(i) => match s.teardowns[i] { case AwaitingSend(g, call) => case _ => }
    case _ =>
  }

  // ----- rounds of attempts -----

  /** The attempts that have failed since the last decision. */
  function Failures(t: seq<Mark>): nat {
    if t == [] then 0
    else match t[|t| - 1]
      case Decided => 0
      case AttemptFailed => Failures(t[..|t| - 1]) + 1
      case _ => Failures(t[..|t| - 1])
  }

  lemma {:induction false} FailuresAfter(t: seq<Mark>, m: Mark)
    ensures Failures(t + [m]) == if m.Decided? then 0 else Failures(t) + if m.AttemptFailed? then 1 else 0
  {
    assert (t + [m])[..|t|] == t;
  }

  /** Within a limit: a round that is exhausted has failed as often as allowed, and no attempt is one too many. */
  ghost predicate WithinLimit(t: seq<Mark>, limit: nat) {
    forall i :: 0 < i < |t| ==>
      && (t[i].RoundExhausted? ==> Failures(t[..i]) == limit)
      && (t[i].AttemptFailed? || t[i].Connected? ==> Failures(t[..i]) < limit)
  }

  /** How the place in a round counts the failures so far. */
  predicate CountsFailures(pc: ReaderPc, failures: nat, limit: nat) {
    match pc
    case Attempt(n) => failures == n <= limit
    case Backoff(n) => failures == n <= limit
    case ReconnectCallback(n) => failures + 1 == n <= limit
    case Creating(n) => failures + 1 == n <= limit
    case Installing(n) => failures + 1 == n <= limit
    case ConnectingEngine(n) => failures + 1 == n <= limit
    case AwaitingEngine(n, _) => failures + 1 == n <= limit
    case SendingOpen(n) => failures + 1 == n <= limit
    case AwaitingOpen(n, _) => failures + 1 == n <= limit
    case _ => true
  }

  ghost predicate LimitInv(s: State, limit: nat) {
    s.trace != [] && WithinLimit(s.trace, limit) && CountsFailures(s.reader.pc, Failures(s.trace), limit)
  }

  lemma {:induction false} WithinAfter(t: seq<Mark>, m: Mark, limit: nat)
    requires WithinLimit(t, limit)
    requires m.RoundExhausted? ==> Failures(t) == limit
    requires m.AttemptFailed? || m.Connected? ==> Failures(t) < limit
    ensures WithinLimit(t + [m], limit)
  {
    hide Failures;
    var t' := t + [m];
    forall i | 0 < i < |t'|
      ensures t'[i].RoundExhausted? ==> Failures(t'[..i]) == limit
      ensures t'[i].AttemptFailed? || t'[i].Connected? ==> Failures(t'[..i]) < limit
    {
      assert t'[..i] == t[..i];
      assert i == |t| ==> t[..i] == t;
    }
  }

  /** A block in a round: what it adds and where it leads. */
  lemma {:induction false} RoundBlock(c: Config, s: State, input: Input, failures: nat)
    requires WellPlaced(s) && InRound(s.reader.pc) && c.maxAttempts.Some?
    requires CountsFailures(s.reader.pc, failures, c.maxAttempts.value)
    ensures var m, pc' := MarksOf(c, s, input), ReaderBlock(c, s, input).reader.pc;
            && |m| <= 1
            && (m == [] ==> CountsFailures(pc', failures, c.maxAttempts.value))
            && (m != [] ==>
                  && (m[0].RoundExhausted? || m[0].AttemptFailed? || m[0].Connected?)
                  && (m[0].RoundExhausted? ==> failures == c.maxAttempts.value && pc'.Top?)
                  && (m[0].Connected? ==> failures < c.maxAttempts.value && pc'.Top?)
                  && (m[0].AttemptFailed? ==>
                        failures < c.maxAttempts.value && CountsFailures(pc', failures + 1, c.maxAttempts.value)))
  {
    hide SpawnDispatch, AbortDispatch, Transport.Apply, Transport.Fresh, MaySend, CallOf;
  }

  lemma {:induction false} LimitKeptByReader(c: Config, s: State, input: Input)
    requires c.maxAttempts.Some? && LimitInv(s, c.maxAttempts.value) && WellPlaced(s)
    ensures LimitInv(ReaderBlock(c, s, input), c.maxAttempts.value)
  {
    var t, m, s' := s.trace, MarksOf(c, s, input), ReaderBlock(c, s, input);
    var limit := c.maxAttempts.value;
    hide ReaderBlock, MarksOf, WithinLimit, Failures, CountsFailures;
    ReaderMarks(c, s, input);
    if InRound(s.reader.pc) {
      RoundBlock(c, s, input, Failures(t));
      if m == [] {
        assert t + m == t;
      } else {
        assert m == [m[0]];
        FailuresAfter(t, m[0]);
        WithinAfter(t, m[0], limit);
        CountsAtTop(s'.reader.pc, Failures(t + m), limit);
      }
    } else {
      OutsideRound(c, s, input);
      MarksOutside(t, m, limit);
      CountsAtTop(s'.reader.pc, Failures(t + m), limit);
    }
  }

  lemma {:induction false} CountsAtTop(pc: ReaderPc, failures: nat, limit: nat)
    ensures !InRound(pc) ==> CountsFailures(pc, failures, limit)
    ensures pc == Attempt(0) && failures == 0 ==> CountsFailures(pc, failures, limit)
  {
  }

  lemma {:induction false} OutsideRound(c: Config, s: State, input: Input)
    requires WellPlaced(s) && !InRound(s.reader.pc)
    ensures var m, pc' := MarksOf(c, s, input), ReaderBlock(c, s, input).reader.pc;
            && |m| <= 2 && (forall x :: x in m ==> !x.RoundExhausted? && !x.AttemptFailed? && !x.Connected?)
            && (InRound(pc') ==> pc' == Attempt(0) && m != [] && m[|m| - 1].Decided?)
  {
    hide SpawnDispatch, AbortDispatch;
    Closes.ReaderMoves(c, s, input);
    Closes.ReaderShape(c, s, input);
    if s.reader.pc.Deciding? {
      DecisionExactly(c, s, input);
      hide ReaderBlock;
    }
  }

  lemma {:induction false} MarksOutside(t: seq<Mark>, m: seq<Mark>, limit: nat)
    requires |m| <= 2 && forall x :: x in m ==> !x.RoundExhausted? && !x.AttemptFailed? && !x.Connected?
    requires WithinLimit(t, limit)
    ensures WithinLimit(t + m, limit)
    ensures m != [] && m[|m| - 1].Decided? ==> Failures(t + m) == 0
  {
    hide WithinLimit, Failures;
    if m == [] {
      assert t + m == t;
    } else if |m| == 1 {
      assert m == [m[0]] && m[0] in m;
      WithinAfter(t, m[0], limit);
      FailuresAfter(t, m[0]);
    } else {
      assert t + m == (t + [m[0]]) + [m[1]] && m[0] in m && m[1] in m;
      WithinAfter(t, m[0], limit);
      WithinAfter(t + [m[0]], m[1], limit);
      FailuresAfter(t + [m[0]], m[1]);
    }
  }

  lemma {:induction false} LimitPreserved(c: Config, s: State, a: Action)
    requires c.maxAttempts.Some? && LimitInv(s, c.maxAttempts.value) && Enabled(s, a)
    ensures LimitInv(Apply(c, s, a), c.maxAttempts.value)
  {
    hide ReaderBlock, WithinLimit, Failures, AbortDispatch;
    match a
    case ReaderStep(input) => LimitKeptByReader(c, s, input);
    case ReaderDrop => OthersLeaveNoMark(c, s, a);
    case TeardownStep(i) =>
      OthersLeaveNoMark(c, s, a);
      Fence.TeardownBlockFrame(s, i);
      hide Apply;
    case _ => OthersLeaveNoMark(c, s, a);
  }

  lemma {:induction false} LimitAtStart(limit: nat)
    ensures LimitInv(Start(), limit)
  {
  }

  lemma {:induction false} LimitAlong(c: Config, s: State, run: seq<Action>)
    requires c.maxAttempts.Some? && LimitInv(s, c.maxAttempts.value) && Exec(c, s, run).Some?
    ensures LimitInv(Exec(c, s, run).value, c.maxAttempts.value)
    decreases |run|
  {
    hide Apply, Enabled, LimitInv;
    if run != [] {
      LimitPreserved(c, s, run[0]);
      LimitAlong(c, Apply(c, s, run[0]), run[1..]);
    }
  }

  /**
   Over any run of a client with a limit: a round is given up exactly when as many attempts have
   failed since the decision that opened it as the limit allows; no attempt fails or succeeds
   beyond it. In particular a limit of zero allows no attempt.
   */
  lemma {:induction false} RoundsAreLimited(c: Config, run: seq<Action>)
    requires IsRun(c, run) && c.maxAttempts.Some?
    ensures var t := Exec(c, Start(), run).value.trace;
            forall i :: 0 < i < |t| ==>
              && (t[i].RoundExhausted? ==> Failures(t[..i]) == c.maxAttempts.value)
              && (t[i].AttemptFailed? || t[i].Connected? ==> Failures(t[..i]) < c.maxAttempts.value)
  {
    hide Exec, Failures;
    LimitAtStart(c.maxAttempts.value);
    LimitAlong(c, Start(), run);
  }

  // ----- what opens a session -----

  /** At `i` the reader asked the engine of the installed socket `g` to connect, as its call `call`. */
  ghost predicate ConnectsAt(c: Config, run: seq<Action>, i: nat, g: nat, call: nat)
    requires IsRun(c, run)
  {
    && i < |run| && run[i].ReaderStep?
    && var s, s' := StateAt(c, run, i), StateAt(c, run, i + 1);
    && g == s.installed && g < |s.socks| && g < |s'.socks| && call == |s.socks[g].engine.tasks|
    && s'.socks[g].engine.tasks == s.socks[g].engine.tasks + [Transport.ConnectPublish]
  }

  /** At `i` it found both flags of the installed socket set and sent the opening packet, as `call`. */
  ghost predicate OpensAt(c: Config, run: seq<Action>, i: nat, g: nat, call: nat)
    requires IsRun(c, run)
  {
    && i < |run| && run[i].ReaderStep?
    && var s, s' := StateAt(c, run, i), StateAt(c, run, i + 1);
    && g == s.installed && g < |s.socks| && g < |s'.socks| && call == |s.socks[g].engine.tasks|
    && s.socks[g].connected && s.socks[g].engine.connected
    && s'.socks[g].engine.tasks == s.socks[g].engine.tasks + [Transport.EmitCheck]
  }

  /** At `i` the reader went on because `call` on `g` had ended well. */
  ghost predicate EndedWellAt(c: Config, run: seq<Action>, i: nat, g: nat, call: nat)
    requires IsRun(c, run)
  {
    && i < |run| && run[i].ReaderStep?
    && StateAt(c, run, i).installed == g && CallOf(StateAt(c, run, i), g, call) == Transport.EmitDone(true)
  }

  /** The engine of `g` was connected, in these actions before `n`. */
  ghost predicate EngineUp(c: Config, run: seq<Action>, n: nat, g: nat)
    requires IsRun(c, run)
  {
    exists i: nat, j: nat, call: nat :: i < j < n && ConnectsAt(c, run, i, g, call) && EndedWellAt(c, run, j, g, call)
  }

  ghost predicate PacketSent(c: Config, run: seq<Action>, n: nat, g: nat, call: nat)
    requires IsRun(c, run)
  {
    exists k: nat :: k < n && EngineUp(c, run, k, g) && OpensAt(c, run, k, g, call)
  }

  /** Action `i` was a block of the reader at this kind of place, and ended in success. */
  ghost predicate CreatedAt(c: Config, run: seq<Action>, i: nat)
    requires IsRun(c, run)
  {
    i < |run| && run[i] == ReaderStep(Success) && StateAt(c, run, i).reader.pc.Creating?
  }

  ghost predicate AskedAt(c: Config, run: seq<Action>, i: nat)
    requires IsRun(c, run)
  {
    i < |run| && run[i].ReaderStep? && StateAt(c, run, i).reader.pc.ReconnectCallback?
  }

  /** The reconnect callback has run, and then a socket has been created, before `n`. */
  ghost predicate Created(c: Config, run: seq<Action>, n: nat)
    requires IsRun(c, run)
  {
    exists i: nat, j: nat :: i < j < n && AskedAt(c, run, i) && CreatedAt(c, run, j)
  }

  /** The story behind the place of the reader in a connect. */
  ghost predicate Story(c: Config, run: seq<Action>, n: nat, pc: ReaderPc, g: nat)
    requires IsRun(c, run)
  {
    match pc
    case Creating(_) => exists i: nat :: i < n && AskedAt(c, run, i)
    case Installing(_) => Created(c, run, n)
    case AwaitingEngine(_, call) => exists i: nat :: i < n && ConnectsAt(c, run, i, g, call)
    case SendingOpen(_) => EngineUp(c, run, n, g)
    case AwaitingOpen(_, call) => PacketSent(c, run, n, g, call)
    case _ => true
  }

  predicate InConnect(pc: ReaderPc) {
    pc.AwaitingEngine? || pc.SendingOpen? || pc.AwaitingOpen?
  }

  /** How a reader block leads into and through a connect. */
  lemma {:induction false} ConnectBlocks(c: Config, s: State, input: Input)
    requires WellPlaced(s)
    ensures var s' := ReaderBlock(c, s, input); var g := s.installed;
            && (s'.reader.pc.Creating? ==> s.reader.pc.ReconnectCallback?)
            && (s'.reader.pc.Installing? ==> s.reader.pc.Creating? && input.Success?)
            && (InConnect(s'.reader.pc) ==>
              && s'.installed == g && g < |s'.socks|
              && match s'.reader.pc
                 case AwaitingEngine(_, call) =>
                   && s.reader.pc.ConnectingEngine? && call == |s.socks[g].engine.tasks|
                   && s'.socks[g].engine.tasks == s.socks[g].engine.tasks + [Transport.ConnectPublish]
                 case SendingOpen(_) =>
                   s.reader.pc.AwaitingEngine? && CallOf(s, g, s.reader.pc.call) == Transport.EmitDone(true)
                 case AwaitingOpen(_, call) =>
                   && s.reader.pc.SendingOpen? && call == |s.socks[g].engine.tasks|
                   && s.socks[g].connected && s.socks[g].engine.connected
                   && s'.socks[g].engine.tasks == s.socks[g].engine.tasks + [Transport.EmitCheck]
                 case _ => true)
  {
    hide SpawnDispatch, AbortDispatch, CallOf;
    if s.reader.pc.ConnectingEngine? || s.reader.pc.AwaitingEngine? || s.reader.pc.SendingOpen? {
    } else {
      hide Transport.Apply, Transport.Fresh, MaySend;
      match s.reader.pc
      case Stream(g) => match input { case StreamError => case Packet(_, _) => case _ => }
      case GotPacket(g, kind, ours) => match kind { case Connect => case Disconnect => case _ => }
      case Deciding => match s.reason { case Unknown => case Manual => case Server => }
      case _ =>
    }
  }

  lemma {:induction false} StoryGrows(c: Config, run: seq<Action>, n: nat, pc: ReaderPc, g: nat)
    requires IsRun(c, run) && Story(c, run, n, pc, g)
    ensures Story(c, run, n + 1, pc, g)
  {
    hide ConnectsAt, OpensAt, EndedWellAt, CreatedAt, AskedAt, StateAt;
  }

  lemma {:induction false} StoryByReader(c: Config, run: seq<Action>, n: nat)
    requires IsRun(c, run) && n < |run| && run[n].ReaderStep?
    requires Story(c, run, n, StateAt(c, run, n).reader.pc, StateAt(c, run, n).installed)
    ensures Story(c, run, n + 1, StateAt(c, run, n + 1).reader.pc, StateAt(c, run, n + 1).installed)
  {
    hide StateAt, ReaderBlock, CallOf;
    var s, s' := StateAt(c, run, n), StateAt(c, run, n + 1);
    NextState(c, run, n);
    ConnectBlocks(c, s, run[n].input);
    var g := s.installed;
    match s'.reader.pc
    case Creating(_) => assert AskedAt(c, run, n);
    case Installing(_) => assert CreatedAt(c, run, n);
    case AwaitingEngine(_, call) => assert ConnectsAt(c, run, n, g, call);
    case SendingOpen(_) =>
      assert EndedWellAt(c, run, n, g, s.reader.pc.call);
    case AwaitingOpen(_, call) =>
      assert OpensAt(c, run, n, g, call);
    case _ =>
  }

  lemma {:induction false} OthersLeaveReader(c: Config, s: State, a: Action)
    requires Enabled(s, a) && !a.ReaderStep?
    ensures var s' := Apply(c, s, a);
            s'.installed == s.installed && (s'.reader.pc == s.reader.pc || s'.reader.pc.Over?)
  {
    hide AbortDispatch;
    match a
    case TeardownStep(i) => Fence.TeardownBlockFrame(s, i);
    case _ =>
  }

  lemma {:induction false} StoryHolds(c: Config, run: seq<Action>, n: nat)
    requires IsRun(c, run) && n <= |run|
    ensures Story(c, run, n, StateAt(c, run, n).reader.pc, StateAt(c, run, n).installed)
    decreases n
  {
    hide StateAt, Apply, Enabled, EngineUp, PacketSent, Created, ConnectsAt, AskedAt;
    if n == 0 {
      Ends(c, run);
    } else {
      StoryHolds(c, run, n - 1);
      if run[n - 1].ReaderStep? {
        StoryByReader(c, run, n - 1);
      } else {
        var s := StateAt(c, run, n - 1);
        NextState(c, run, n - 1);
        OthersLeaveReader(c, s, run[n - 1]);
        StoryGrows(c, run, n - 1, s.reader.pc, s.installed);
      }
    }
  }

  /** A socket is put in place only after the reconnect callback has run and a new socket was created. */
  lemma {:induction false} InstallsOnlyCreated(c: Config, run: seq<Action>, n: nat)
    requires IsRun(c, run) && n < |run|
    requires StateAt(c, run, n + 1).installed != StateAt(c, run, n).installed
    ensures Created(c, run, n)
  {
    hide StateAt, ReaderBlock, Created;
    StoryHolds(c, run, n);
    NextState(c, run, n);
    if run[n].ReaderStep? {
      OnlyInstalling(c, StateAt(c, run, n), run[n].input);
    } else {
      OthersLeaveReader(c, StateAt(c, run, n), run[n]);
    }
  }

  lemma {:induction false} OnlyInstalling(c: Config, s: State, input: Input)
    requires WellPlaced(s) && ReaderBlock(c, s, input).installed != s.installed
    ensures s.reader.pc.Installing?
  {
    hide SpawnDispatch, AbortDispatch, Transport.Apply, Transport.Fresh, MaySend, CallOf;
    match s.reader.pc
    case Stream(g) => match input { case StreamError => case Packet(_, _) => case _ => }
    case GotPacket(g, kind, ours) => match kind { case Connect => case Disconnect => case _ => }
    case Deciding => match s.reason { case Unknown => case Manual => case Server => }
    case _ =>
  }

  /**
   A session begins, and the epoch rises, by an action exactly if that action finds the opening
   packet sent: on the installed socket a connect was called and ended well, then, with both
   flags set, the packet was handed to its engine, and that call has ended well too.
   */
  lemma {:induction false} SessionReport(c: Config, run: seq<Action>, n: nat)
    requires IsRun(c, run) && n < |run|
    ensures var s, s' := StateAt(c, run, n), StateAt(c, run, n + 1);
            && (s'.epoch == s.epoch || s'.epoch == s.epoch + 1)
            && (s'.epoch == s.epoch + 1 ==>
                  exists call :: PacketSent(c, run, n, s.installed, call) && EndedWellAt(c, run, n, s.installed, call))
            && (run[n].ReaderStep? && s.reader.pc.AwaitingOpen? && EndedWellAt(c, run, n, s.installed, s.reader.pc.call) ==>
                  s'.epoch == s.epoch + 1)
  {
    hide StateAt, ReaderBlock, PacketSent;
    var s := StateAt(c, run, n);
    StoryHolds(c, run, n);
    NextState(c, run, n);
    if run[n].ReaderStep? {
      ReaderEpoch(c, s, run[n].input);
      if Connected in MarksOf(c, s, run[n].input) {
        OnlyWhenSent(c, s, run[n].input);
        assert EndedWellAt(c, run, n, s.installed, s.reader.pc.call);
      }
    } else {
      OthersLeaveNoMark(c, s, run[n]);
    }
  }

  lemma {:induction false} OnlyWhenSent(c: Config, s: State, input: Input)
    requires Connected in MarksOf(c, s, input)
    ensures s.reader.pc.AwaitingOpen? && CallOf(s, s.installed, s.reader.pc.call) == Transport.EmitDone(true)
  {
    hide CallOf;
  }
}
