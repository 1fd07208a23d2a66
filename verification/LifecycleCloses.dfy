/** How many close notifications a session gets. */
module LifecycleCloses {
  import opened Common
  import opened Lifecycle
  import opened LifecycleTrace
  import Fence = LifecycleFence
  import Progress = LifecycleProgress
  import Dispatch = LifecycleSessions

  /** Nobody has called `disconnect` so far. */
  predicate Undisturbed(s: State) {
    s.teardowns == []
  }

  // ----- accounting, whatever the server does -----

  ghost predicate ServerClosesMatch(t: seq<Mark>) {
    forall k: nat :: Closes(t, k, IoServerDisconnect) == Disconnects(t, k)
  }

  ghost predicate TransportClosesMatch(t: seq<Mark>) {
    forall k: nat :: Closes(t, k, TransportClose) == UnknownDecisions(t, k)
  }

  ghost predicate AccountInv(s: State) {
    && s.epoch == Sessions(s.trace)
    && ServerClosesMatch(s.trace)
    && (Undisturbed(s) ==>
          && s.slot && !s.reader.aborted
          && s.reason == LastReason(s.trace)
          && TransportClosesMatch(s.trace))
  }

  /** A mark that is neither a close nor a reason for one. */
  predicate IsNeutral(m: Mark) {
    !m.Closed? && !m.DisconnectSeen? && !m.Decided?
  }

  lemma {:induction false} NeutralKeepsMatch(t: seq<Mark>, m: Mark)
    requires IsNeutral(m)
    ensures ServerClosesMatch(t) ==> ServerClosesMatch(t + [m])
    ensures TransportClosesMatch(t) ==> TransportClosesMatch(t + [m])
  {
    forall k: nat
      ensures Disconnects(t + [m], k) == Disconnects(t, k)
      ensures UnknownDecisions(t + [m], k) == UnknownDecisions(t, k)
      ensures forall r :: Closes(t + [m], k, r) == Closes(t, k, r)
    {
      CountsAfterMark(t, m, k);
    }
  }

  /** The two marks of a DISCONNECT packet. */
  lemma {:induction false} ServerCloseKeepsMatch(t: seq<Mark>)
    ensures var t' := t + [DisconnectSeen, Closed(Sessions(t), IoServerDisconnect)];
            && (ServerClosesMatch(t) ==> ServerClosesMatch(t'))
            && (TransportClosesMatch(t) ==> TransportClosesMatch(t'))
  {
    var closed := Closed(Sessions(t), IoServerDisconnect);
    var mid := t + [DisconnectSeen];
    assert t + [DisconnectSeen, closed] == mid + [closed];
    forall k: nat
      ensures Disconnects(mid + [closed], k) == Disconnects(t, k) + if Sessions(t) == k then 1 else 0
      ensures UnknownDecisions(mid + [closed], k) == UnknownDecisions(t, k)
      ensures Closes(mid + [closed], k, TransportClose) == Closes(t, k, TransportClose)
      ensures Closes(mid + [closed], k, IoServerDisconnect)
           == Closes(t, k, IoServerDisconnect) + if Sessions(t) == k then 1 else 0
    {
      CountsAfterMark(t, DisconnectSeen, k);
      CountsAfterMark(mid, closed, k);
    }
  }

  /** The marks of a decision, with the close exactly if the reason is unknown. */
  lemma {:induction false} DecisionKeepsMatch(t: seq<Mark>, notify: bool)
    ensures var t' := t + (if notify then [Closed(Sessions(t), TransportClose)] else []) + [Decided];
            && (ServerClosesMatch(t) ==> ServerClosesMatch(t'))
            && (TransportClosesMatch(t) && notify == LastReason(t).Unknown? ==> TransportClosesMatch(t'))
  {
    var closed := Closed(Sessions(t), TransportClose);
    var mid := t + if notify then [closed] else [];
    if notify {
      AfterMark(t, closed);
    } else {
      assert mid == t;
    }
    forall k: nat
      ensures Disconnects(mid + [Decided], k) == Disconnects(t, k)
      ensures UnknownDecisions(mid + [Decided], k)
           == UnknownDecisions(t, k) + if Sessions(t) == k && LastReason(t).Unknown? then 1 else 0
      ensures Closes(mid + [Decided], k, IoServerDisconnect) == Closes(t, k, IoServerDisconnect)
      ensures Closes(mid + [Decided], k, TransportClose)
           == Closes(t, k, TransportClose) + if notify && Sessions(t) == k then 1 else 0
    {
      CountsAfterMark(mid, Decided, k);
      if notify {
        CountsAfterMark(t, closed, k);
      }
    }
  }

  /** The reason changes only together with its mark, or in a teardown. */
  lemma {:induction false} ReasonFollowsMarks(c: Config, s: State, input: Input)
    requires WellPlaced(s)
    ensures ReaderBlock(c, s, input).reason
         == ReasonAfter(s.reader.pc, s.reason)
  {
    match s.reader.pc
    case Stream(g) => match input { case StreamError => case Packet(_, _) => case _ => }
    case GotPacket(g, kind, ours) => match kind { case Connect => case Disconnect => case _ => }
    case Deciding => match s.reason { case Unknown => case Manual => case Server => }
    case _ =>
  }

  /** The ways a reader block can add to the history. */
  predicate Shape(pc: ReaderPc, reason: Reason, epoch: nat, m: seq<Mark>) {
    match pc
    case SettingServer(_) => m == [DisconnectSeen, Closed(epoch, IoServerDisconnect)]
    case Deciding => m == (if reason.Unknown? then [Closed(epoch, TransportClose)] else []) + [Decided]
    case SettingUnknown(_) => m == [ConnectSeen]
    case _ => m == [] || (|m| == 1 && IsNeutral(m[0]) && !m[0].ConnectSeen?)
  }

  lemma {:induction false} ReaderShape(c: Config, s: State, input: Input)
    ensures Shape(s.reader.pc, s.reason, s.epoch, MarksOf(c, s, input))
  {
  }

  lemma {:induction false} DecisionKeepsRest(t: seq<Mark>, m: seq<Mark>, epoch: nat)
    requires m == [Decided] || m == [Closed(epoch, TransportClose), Decided]
    ensures Sessions(t + m) == Sessions(t) && LastReason(t + m) == LastReason(t)
  {
    if |m| == 2 {
      assert t + m == t + [m[0]] + [m[1]];
      AfterMark(t, m[0]);
      AfterMark(t + [m[0]], m[1]);
    } else {
      AfterMark(t, Decided);
    }
  }

  lemma {:induction false} ServerCloseKeepsRest(t: seq<Mark>, epoch: nat)
    ensures var t' := t + [DisconnectSeen, Closed(epoch, IoServerDisconnect)];
            Sessions(t') == Sessions(t) && LastReason(t') == Server
  {
    var closed := Closed(epoch, IoServerDisconnect);
    assert t + [DisconnectSeen, closed] == t + [DisconnectSeen] + [closed];
    AfterMark(t, DisconnectSeen);
    AfterMark(t + [DisconnectSeen], closed);
  }

  /** The reason after a block, as a function of the block. */
  function ReasonAfter(pc: ReaderPc, reason: Reason): Reason {
    match pc
    case SettingUnknown(_) => Unknown
    case SettingServer(_) => Server
    case _ => reason
  }

  lemma {:induction false} AccountAfterMarks(t: seq<Mark>, m: seq<Mark>, pc: ReaderPc, reason: Reason)
    requires Shape(pc, reason, Sessions(t), m)
    ensures Sessions(t + m) == Sessions(t) + if m == [Connected] then 1 else 0
    ensures ServerClosesMatch(t) ==> ServerClosesMatch(t + m)
    ensures reason == LastReason(t) && TransportClosesMatch(t) ==>
              TransportClosesMatch(t + m) && ReasonAfter(pc, reason) == LastReason(t + m)
  {
    hide Closes, Disconnects, UnknownDecisions, Sessions, LastReason;
    match pc
    case SettingServer(_) =>
      ServerCloseKeepsMatch(t);
      ServerCloseKeepsRest(t, Sessions(t));
    case Deciding =>
      DecisionKeepsMatch(t, reason.Unknown?);
      var notice: seq<Mark> := if reason.Unknown? then [Closed(Sessions(t), TransportClose)] else [];
      assert t + m == t + notice + [Decided];
      assert !reason.Unknown? ==> m == [Decided];
      DecisionKeepsRest(t, m, Sessions(t));
    case SettingUnknown(_) =>
      AfterMark(t, ConnectSeen);
      NeutralKeepsMatch(t, ConnectSeen);
    case _ =>
      if m == [] {
        assert t + m == t;
      } else {
        assert m == [m[0]];
        AfterMark(t, m[0]);
        NeutralKeepsMatch(t, m[0]);
      }
  }

  lemma {:induction false} AccountKeptByReader(c: Config, s: State, input: Input)
    requires AccountInv(s) && WellPlaced(s)
    ensures AccountInv(ReaderBlock(c, s, input))
  {
    hide ReaderBlock, MarksOf, ServerClosesMatch, TransportClosesMatch, Sessions, LastReason;
    var t, m, s' := s.trace, MarksOf(c, s, input), ReaderBlock(c, s, input);
    ReaderShape(c, s, input);
    AccountAfterMarks(t, m, s.reader.pc, s.reason);
    assert s'.trace == t + m by { ReaderMarks(c, s, input); }
    assert s'.epoch == s.epoch + if m == [Connected] then 1 else 0 by {
      ReaderEpoch(c, s, input);
      assert Connected in m <==> m == [Connected];
    }
    assert s'.teardowns == s.teardowns && s'.slot == s.slot && s'.reader.aborted == s.reader.aborted;
    assert s'.reason == ReasonAfter(s.reader.pc, s.reason) by { ReasonFollowsMarks(c, s, input); }
  }

  /** Only the reader and the teardowns touch what the accounting looks at. */
  lemma {:induction false} OthersKeepReason(c: Config, s: State, a: Action)
    requires Enabled(s, a) && !a.ReaderStep? && s.slot && !s.reader.aborted
    ensures var s' := Apply(c, s, a);
            Undisturbed(s') ==> Undisturbed(s) && s'.reason == s.reason && s'.slot && s'.reader == s.reader
  {
  }

  lemma {:induction false} AccountPreserved(c: Config, s: State, a: Action)
    requires AccountInv(s) && Enabled(s, a)
    ensures AccountInv(Apply(c, s, a))
  {
    if a.ReaderStep? {
      AccountKeptByReader(c, s, a.input);
    } else {
      OthersLeaveNoMark(c, s, a);
      var s' := Apply(c, s, a);
      if Undisturbed(s') {
        assert Undisturbed(s);
        OthersKeepReason(c, s, a);
      }
    }
  }

  // ----- decisions and rounds -----

  /** The reader has not yet decided about the current session, or again works on its stream. */
  predicate PreDecision(pc: ReaderPc) {
    pc.Top? || pc.Deciding? || OwnsStream(pc)
  }

  /** A session is decided about once, and once more after each exhausted round. */
  ghost predicate RoundsMatch(t: seq<Mark>, pc: ReaderPc) {
    forall k: nat :: Decisions(t, k) == Exhausted(t, k) + if Ended(t, pc, k) then 1 else 0
  }

  /** The stream of session `k` has ended and its last decision has been taken. */
  predicate Ended(t: seq<Mark>, pc: ReaderPc, k: nat) {
    1 <= k <= Sessions(t) && (k == Sessions(t) ==> !PreDecision(pc))
  }

  /** Only after an exhausted round can packets follow a decision. */
  ghost predicate LateMatch(t: seq<Mark>) {
    forall k: nat :: Exhausted(t, k) == 0 ==> Late(t, k) == 0
  }

  ghost predicate RoundInv(s: State) {
    Undisturbed(s) ==> Sessions(s.trace) >= 1 && RoundsMatch(s.trace, s.reader.pc) && LateMatch(s.trace)
  }

  /** A reader block moves between the regions of its program only with the matching mark. */
  predicate Moves(pc: ReaderPc, pc': ReaderPc, m: seq<Mark>) {
    if pc.Deciding? then m != [] && m[|m| - 1] == Decided && !PreDecision(pc')
    else if pc.SettingUnknown? || pc.SettingServer? then PreDecision(pc')
    else if m == [Connected] || m == [RoundExhausted] then !PreDecision(pc) && PreDecision(pc')
    else PreDecision(pc') == PreDecision(pc)
  }

  lemma {:induction false} StreamMoves(c: Config, s: State, input: Input)
    requires WellPlaced(s) && OwnsStream(s.reader.pc)
    ensures Moves(s.reader.pc, ReaderBlock(c, s, input).reader.pc, MarksOf(c, s, input))
  {
    hide SpawnDispatch, AbortDispatch;
    match s.reader.pc
    case Stream(g) => match input { case StreamError => case Packet(_, _) => case _ => }
    case GotPacket(g, kind, ours) => match kind { case Connect => case Disconnect => case _ => }
    case _ =>
  }

  lemma {:induction false} ReaderMoves(c: Config, s: State, input: Input)
    requires WellPlaced(s)
    ensures Moves(s.reader.pc, ReaderBlock(c, s, input).reader.pc, MarksOf(c, s, input))
  {
    hide SpawnDispatch, AbortDispatch;
    if OwnsStream(s.reader.pc) {
      StreamMoves(c, s, input);
    } else if s.reader.pc.Deciding? {
      assert MarksOf(c, s, input)[|MarksOf(c, s, input)| - 1] == Decided;
    }
  }

  /** One more mark, seen from the rounds. */
  lemma {:induction false} RoundsAfterOne(t: seq<Mark>, m: Mark, pc: ReaderPc, pc': ReaderPc)
    requires Sessions(t) >= 1 && RoundsMatch(t, pc) && LateMatch(t)
    requires if m.Decided? then PreDecision(pc) && !PreDecision(pc')
             else if m.Connected? || m.RoundExhausted? then !PreDecision(pc) && PreDecision(pc')
             else PreDecision(pc') == PreDecision(pc) && (IsPacket(m) ==> PreDecision(pc))
    ensures Sessions(t + [m]) >= 1 && RoundsMatch(t + [m], pc') && LateMatch(t + [m])
  {
    hide Decisions, Exhausted, Late, Sessions, Inherited, LastReason;
    var t' := t + [m];
    AfterMark(t, m);
    forall k: nat
      ensures Decisions(t', k) == Exhausted(t', k) + if Ended(t', pc', k) then 1 else 0
      ensures Exhausted(t', k) == 0 ==> Late(t', k) == 0
    {
      RoundsAfterMark(t, m, k);
      assert Decisions(t, k) == Exhausted(t, k) + if Ended(t, pc, k) then 1 else 0;
      assert Exhausted(t, k) == 0 ==> Late(t, k) == 0;
    }
  }

  lemma {:induction false} RoundsAfterMarks(t: seq<Mark>, m: seq<Mark>, pc: ReaderPc, pc': ReaderPc, reason: Reason)
    requires Sessions(t) >= 1 && RoundsMatch(t, pc) && LateMatch(t)
    requires Shape(pc, reason, Sessions(t), m) && Moves(pc, pc', m)
    ensures Sessions(t + m) >= 1 && RoundsMatch(t + m, pc') && LateMatch(t + m)
  {
    hide RoundsMatch, LateMatch, Sessions;
    if m == [] {
      assert t + m == t;
      SameRegion(t, pc, pc');
    } else if |m| == 1 {
      assert m == [m[0]];
      RoundsAfterOne(t, m[0], pc, pc');
    } else {
      assert t + m == (t + [m[0]]) + [m[1]];
      RoundsAfterOne(t, m[0], pc, pc);
      RoundsAfterOne(t + [m[0]], m[1], pc, pc');
    }
  }

  lemma {:induction false} SameRegion(t: seq<Mark>, pc: ReaderPc, pc': ReaderPc)
    requires RoundsMatch(t, pc) && PreDecision(pc) == PreDecision(pc')
    ensures RoundsMatch(t, pc')
  {
    hide Decisions, Exhausted, Sessions;
    forall k: nat ensures Decisions(t, k) == Exhausted(t, k) + if Ended(t, pc', k) then 1 else 0 {
      assert Ended(t, pc', k) == Ended(t, pc, k);
    }
  }

  lemma {:induction false} RoundsKeptByReader(c: Config, s: State, input: Input)
    requires RoundInv(s) && s.epoch == Sessions(s.trace) && WellPlaced(s)
    ensures RoundInv(ReaderBlock(c, s, input))
  {
    hide ReaderBlock, MarksOf, RoundsMatch, LateMatch, Sessions, Shape, Moves;
    var t, m, s' := s.trace, MarksOf(c, s, input), ReaderBlock(c, s, input);
    assert s'.trace == t + m by { ReaderMarks(c, s, input); }
    ReaderShape(c, s, input);
    ReaderMoves(c, s, input);
    if Undisturbed(s) {
      RoundsAfterMarks(t, m, s.reader.pc, s'.reader.pc, s.reason);
    }
  }

  lemma {:induction false} RoundsPreserved(c: Config, s: State, a: Action)
    requires RoundInv(s) && AccountInv(s) && Enabled(s, a)
    ensures RoundInv(Apply(c, s, a))
  {
    hide ReaderBlock, RoundsMatch, LateMatch, Sessions;
    if a.ReaderStep? {
      RoundsKeptByReader(c, s, a.input);
    } else {
      OthersLeaveNoMark(c, s, a);
      var s' := Apply(c, s, a);
      if Undisturbed(s') {
        assert Undisturbed(s);
        OthersKeepReason(c, s, a);
      }
    }
  }

  // ----- what the configuration rules out -----

  /** Without a limit of attempts no round runs out, whatever else happens. */
  lemma {:induction false} NoLimitNeverExhausts(c: Config, s: State, run: seq<Action>)
    requires c.maxAttempts.None? && RoundExhausted !in s.trace && Exec(c, s, run).Some?
    ensures RoundExhausted !in Exec(c, s, run).value.trace
    decreases |run|
  {
    if run != [] {
      var s' := Apply(c, s, run[0]);
      assert RoundExhausted !in s'.trace by {
        if run[0].ReaderStep? {
          ReaderMarks(c, s, run[0].input);
        } else {
          OthersLeaveNoMark(c, s, run[0]);
        }
      }
      hide Apply, Enabled;
      NoLimitNeverExhausts(c, s', run[1..]);
    }
  }

  /** A client that does not reconnect after a DISCONNECT begins every session with the reason unknown. */
  ghost predicate FreshStarts(s: State) {
    Undisturbed(s) ==>
      && (forall k: nat :: Inherited(s.trace, k).Unknown?)
      && (!PreDecision(s.reader.pc) && !s.reader.pc.Over? ==> s.reason.Unknown?)
  }

  lemma {:induction false} ReasonInRounds(c: Config, s: State, input: Input)
    requires WellPlaced(s) && !c.reconnectOnDisconnect && s.reason != Manual
    requires !PreDecision(s.reader.pc) && !s.reader.pc.Over? ==> s.reason.Unknown?
    ensures var s' := ReaderBlock(c, s, input);
            !PreDecision(s'.reader.pc) && !s'.reader.pc.Over? ==> s'.reason.Unknown?
    ensures Connected in MarksOf(c, s, input) ==> s.reason.Unknown? && MarksOf(c, s, input) == [Connected]
  {
    hide SpawnDispatch, AbortDispatch;
    ReasonFollowsMarks(c, s, input);
    ReaderMoves(c, s, input);
  }

  lemma {:induction false} InheritedAfter(t: seq<Mark>, m: seq<Mark>)
    requires |m| <= 2 && (Connected in m ==> LastReason(t).Unknown? && m == [Connected])
    requires forall k: nat :: Inherited(t, k).Unknown?
    ensures forall k: nat :: Inherited(t + m, k).Unknown?
  {
    hide Inherited, LastReason, Sessions;
    forall k: nat ensures Inherited(t + m, k).Unknown? {
      if m == [] {
        assert t + m == t;
      } else if |m| == 1 {
        assert m == [m[0]] && m[0] in m;
        RoundsAfterMark(t, m[0], k);
      } else {
        assert m[0] in m && m[1] in m && t + m == (t + [m[0]]) + [m[1]];
        RoundsAfterMark(t, m[0], k);
        RoundsAfterMark(t + [m[0]], m[1], k);
      }
    }
  }

  lemma {:induction false} FreshStartsPreserved(c: Config, s: State, a: Action)
    requires FreshStarts(s) && AccountInv(s) && !c.reconnectOnDisconnect && Enabled(s, a)
    ensures FreshStarts(Apply(c, s, a))
  {
    hide ReaderBlock, Inherited, LastReason, Sessions, MarksOf, ServerClosesMatch, TransportClosesMatch;
    if a.ReaderStep? {
      var m, s' := MarksOf(c, s, a.input), ReaderBlock(c, s, a.input);
      assert s'.trace == s.trace + m by { ReaderMarks(c, s, a.input); }
      if Undisturbed(s) {
        NeverManual(s.trace);
        ReasonInRounds(c, s, a.input);
        ReaderShape(c, s, a.input);
        InheritedAfter(s.trace, m);
      }
    } else {
      OthersLeaveNoMark(c, s, a);
      var s' := Apply(c, s, a);
      if Undisturbed(s') {
        assert Undisturbed(s);
        OthersKeepReason(c, s, a);
      }
    }
  }

  // ----- whole runs -----

  lemma {:induction false} StartCounts()
    ensures AccountInv(Start()) && RoundInv(Start()) && FreshStarts(Start())
  {
    var t: seq<Mark> := [Connected];
    assert [] + [Connected] == t;
    AfterMark([], Connected);
    forall k: nat
      ensures Disconnects(t, k) == 0 && UnknownDecisions(t, k) == 0 && forall r :: Closes(t, k, r) == 0
      ensures Decisions(t, k) == Exhausted(t, k) == Late(t, k) == 0 && Inherited(t, k).Unknown?
    {
      CountsAfterMark([], Connected, k);
      RoundsAfterMark([], Connected, k);
    }
  }

  lemma {:induction false} CountsAlong(c: Config, s: State, run: seq<Action>)
    requires AccountInv(s) && RoundInv(s) && Exec(c, s, run).Some?
    ensures AccountInv(Exec(c, s, run).value) && RoundInv(Exec(c, s, run).value)
    ensures !c.reconnectOnDisconnect && FreshStarts(s) ==> FreshStarts(Exec(c, s, run).value)
    decreases |run|
  {
    hide Apply, Enabled, AccountInv, RoundInv, FreshStarts;
    if run != [] {
      var s' := Apply(c, s, run[0]);
      AccountPreserved(c, s, run[0]);
      RoundsPreserved(c, s, run[0]);
      if !c.reconnectOnDisconnect && FreshStarts(s) {
        FreshStartsPreserved(c, s, run[0]);
      }
      CountsAlong(c, s', run[1..]);
    }
  }

  /** How many close tasks with this epoch and reason have been spawned. */
  function CloseCount(s: State, k: nat, reason: CloseReason): nat {
    multiset(Dispatch.CloseTasks(s.tasks))[(k, reason)]
  }

  lemma {:induction false} ClosesAreTasks(t: seq<Mark>, k: nat, reason: CloseReason)
    ensures multiset(ClosedMarks(t))[(k, reason)] == Closes(t, k, reason)
  {
    if t != [] {
      var n := |t| - 1;
      ClosesAreTasks(t[..n], k, reason);
      var added: seq<(nat, CloseReason)> := match t[n] { case Closed(e, r) => [(e, r)] case _ => [] };
      assert multiset(ClosedMarks(t[..n]) + added) == multiset(ClosedMarks(t[..n])) + multiset(added);
    }
  }

  lemma {:induction false} CloseCounts(c: Config, run: seq<Action>, k: nat, reason: CloseReason)
    requires Exec(c, Start(), run).Some?
    ensures var s := Exec(c, Start(), run).value; CloseCount(s, k, reason) == Closes(s.trace, k, reason)
  {
    Dispatch.EpochAttribution(c, run);
    ClosesAreTasks(Exec(c, Start(), run).value.trace, k, reason);
  }

  /**
   Close accounting, whatever the server sends and whatever the attempt limit: session `k`
   gets one server-disconnect notification for each DISCONNECT handled in it, and, while
   nobody disconnects, one transport-close notification for each reconnect decision that
   finds no DISCONNECT more recent than the last CONNECT.
   */
  lemma {:induction false} CloseAccounting(c: Config, run: seq<Action>, k: nat)
    requires Exec(c, Start(), run).Some?
    ensures var s := Exec(c, Start(), run).value;
            && CloseCount(s, k, IoServerDisconnect) == Disconnects(s.trace, k)
            && (Undisturbed(s) ==> CloseCount(s, k, TransportClose) == UnknownDecisions(s.trace, k))
  {
    StartCounts();
    CountsAlong(c, Start(), run);
    CloseCounts(c, run, k, IoServerDisconnect);
    CloseCounts(c, run, k, TransportClose);
  }

  /** All close notifications of session `k`. */
  function AllCloses(s: State, k: nat): nat {
    CloseCount(s, k, TransportClose) + CloseCount(s, k, IoServerDisconnect)
  }

  /** The stream of session `k` has ended, and the reader has decided what to do about it. */
  predicate HasEnded(s: State, k: nat) {
    1 <= k <= s.epoch && (k == s.epoch ==> !PreDecision(s.reader.pc))
  }

  /**
   The exact number of closes of every session, in every run without a manual disconnect,
   whatever the server sends and whatever the configuration: one for the end of its stream,
   one for each DISCONNECT handled in it and one for each round exhausted after it, less the
   reconnect decisions that found the server's reason and so notified nobody.
   */
  lemma {:induction false} CloseLaw(c: Config, run: seq<Action>, k: nat)
    requires Exec(c, Start(), run).Some? && Undisturbed(Exec(c, Start(), run).value)
    ensures var s := Exec(c, Start(), run).value;
            AllCloses(s, k) + ServerDecisions(s.trace, k)
            == Disconnects(s.trace, k) + Exhausted(s.trace, k) + (if HasEnded(s, k) then 1 else 0)
  {
    var s := Exec(c, Start(), run).value;
    assert RoundsMatch(s.trace, s.reader.pc) && s.epoch == Sessions(s.trace) by {
      StartCounts();
      CountsAlong(c, Start(), run);
    }
    hide Exec, CloseCount, Sessions, Decisions, Exhausted, Disconnects, UnknownDecisions, ServerDecisions, PreDecision;
    CloseAccounting(c, run, k);
    DecisionsByReason(s.trace, k);
    assert Decisions(s.trace, k) == Exhausted(s.trace, k) + if Ended(s.trace, s.reader.pc, k) then 1 else 0;
  }

  /**
   For a session whose packets are over when its stream first ends: if the last word was
   the server's, its closes are its DISCONNECTs; if not, it also gets one close for the end
   of its stream and one more for each round exhausted after it.
   */
  lemma {:induction false} SettledCloses(c: Config, run: seq<Action>, k: nat)
    requires Exec(c, Start(), run).Some? && Undisturbed(Exec(c, Start(), run).value)
    requires HasEnded(Exec(c, Start(), run).value, k) && Late(Exec(c, Start(), run).value.trace, k) == 0
    ensures var s := Exec(c, Start(), run).value;
            AllCloses(s, k)
            == Disconnects(s.trace, k) + (if ReasonIn(s.trace, k).Server? then 0 else 1 + Exhausted(s.trace, k))
  {
    var s := Exec(c, Start(), run).value;
    hide Exec, CloseCount, Decisions, Exhausted, Disconnects, UnknownDecisions, ServerDecisions, PreDecision;
    CloseLaw(c, run, k);
    CloseAccounting(c, run, k);
    DecisionsByReason(s.trace, k);
    DecisionsAgree(s.trace, k);
  }

  /** One CONNECT and then at most one DISCONNECT, as far as the session got. */
  predicate Orderly(ps: seq<Mark>) {
    ps == [] || ps == [ConnectSeen] || ps == [ConnectSeen, DisconnectSeen]
  }

  lemma {:induction false} CutsOfOrderly(ps: seq<Mark>)
    requires Orderly(ps)
    ensures Cuts(ps) == (if |ps| == 2 then 1 else 0) && (|ps| == 1 ==> ps[0].ConnectSeen?)
    ensures |ps| == 2 ==> ps[1].DisconnectSeen?
  {
    assert ps != [] ==> ps[..|ps| - 1] == [] || ps[..|ps| - 1] == [ConnectSeen];
    assert [ConnectSeen][..0] == [];
  }

  /** The session ended before its CONNECT, and the one before it had been ended by the server. */
  predicate Stale(t: seq<Mark>, k: nat) {
    Packets(t, k) == [] && Inherited(t, k).Server?
  }

  /**
   Exactly one close for an ended session of an orderly server, with the server's reason
   exactly if its DISCONNECT was handled, unless the session is stale: then there is none.
   Exhausted rounds are ruled out by having no limit (NoLimitNeverExhausts).
   */
  lemma {:induction false} ExactlyOneClose(c: Config, run: seq<Action>, k: nat)
    requires Exec(c, Start(), run).Some? && Undisturbed(Exec(c, Start(), run).value)
    requires HasEnded(Exec(c, Start(), run).value, k) && Exhausted(Exec(c, Start(), run).value.trace, k) == 0
    requires Orderly(Packets(Exec(c, Start(), run).value.trace, k))
    ensures var s := Exec(c, Start(), run).value;
            && AllCloses(s, k) == (if Stale(s.trace, k) then 0 else 1)
            && (CloseCount(s, k, IoServerDisconnect) == 1 <==> Disconnects(s.trace, k) == 1)
  {
    var s := Exec(c, Start(), run).value;
    var ps := Packets(s.trace, k);
    assert LateMatch(s.trace) && s.epoch == Sessions(s.trace) by {
      StartCounts();
      CountsAlong(c, Start(), run);
    }
    hide Exec, CloseCount, Sessions, Packets, Inherited, ReasonIn, Exhausted, Late, Disconnects, PreDecision;
    SettledCloses(c, run, k);
    CloseAccounting(c, run, k);
    ReasonOfPackets(s.trace, k);
    DisconnectsAreCuts(s.trace, k);
    CutsOfOrderly(ps);
  }

  /**
   What a caller can settle beforehand: with no limit of attempts and no reconnect after a
   DISCONNECT, every ended session of an orderly server gets exactly one close.
   */
  lemma {:induction false} AlwaysOneClose(c: Config, run: seq<Action>, k: nat)
    requires Exec(c, Start(), run).Some? && Undisturbed(Exec(c, Start(), run).value)
    requires c.maxAttempts.None? && !c.reconnectOnDisconnect
    requires HasEnded(Exec(c, Start(), run).value, k)
    requires Orderly(Packets(Exec(c, Start(), run).value.trace, k))
    ensures AllCloses(Exec(c, Start(), run).value, k) == 1
  {
    var s := Exec(c, Start(), run).value;
    assert !Stale(s.trace, k) by {
      StartCounts();
      CountsAlong(c, Start(), run);
      assert Inherited(s.trace, k).Unknown?;
    }
    assert RoundExhausted !in Start().trace;
    hide Exec, Stale, HasEnded, AllCloses, CloseCount;
    NoLimitNeverExhausts(c, Start(), run);
    NoneExhausted(s.trace, k);
    ExactlyOneClose(c, run, k);
  }
}
