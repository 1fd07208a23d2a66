/** Safety of the transport owner over all interleavings. */
module TransportOwnerProofs {
  import opened Common
  import opened TransportOwner

  ghost predicate OwnershipInv(s: State) {
    && (s.connected ==> s.present)
    && s.present == !s.closing
    && Takes(s.log) == CloseCallbacks(s.log) == (if s.present then 0 else 1)
  }

  /** The send lock is held by exactly the task that is writing. */
  ghost predicate LockInv(s: State) {
    && (s.sendLock.Some? ==> s.sendLock.value < |s.tasks|)
    && (forall t: nat :: t < |s.tasks| ==> (IsWriting(s.tasks[t]) <==> s.sendLock == Some(t)))
  }

  ghost predicate HistoryInv(s: State) {
    && AllEndedBut(s.log, s.sendLock)
    && WritesNeverOverlap(s.log)
    && NoEmitWriteAfterTake(s.log)
  }

  /** At most one disconnect waits for the lock, and only after the take. */
  ghost predicate Waiting(s: State) {
    && (forall t: nat :: t < |s.tasks| && s.tasks[t].DiscLock? ==> !s.present && CloseFrames(s.log) == 0)
    && (forall t: nat, u: nat :: t < u < |s.tasks| && s.tasks[t].DiscLock? ==> !s.tasks[u].DiscLock?)
    && (forall t: nat :: t < |s.tasks| && (s.tasks[t].DiscWriting? || s.tasks[t].DiscDone?) ==> !s.present)
  }

  /** Only the one disconnect that took the transport can still owe a Close frame. */
  ghost predicate CloseFrameInv(s: State) {
    CloseFrames(s.log) <= Takes(s.log) && Waiting(s)
  }

  /** Where a disconnect that took the transport can be, and what it has written by then. */
  predicate TakerAt(log: seq<Event>, t: nat, pc: Pc) {
    && (pc.DiscLock? || pc.DiscWriting? || pc.DiscDone? || pc.Cancelled?)
    && (pc.DiscWriting? || pc == DiscDone(true) ==> WriteBegin(t, true) in log)
  }

  /** Only a disconnect that took the transport writes a Close frame, and it ends well only with one. */
  ghost predicate TakerInv(s: State) {
    && (forall t: nat :: Take(t) in s.log ==> t < |s.tasks| && TakerAt(s.log, t, s.tasks[t]))
    && (forall t: nat :: t < |s.tasks| && (s.tasks[t].DiscLock? || s.tasks[t].DiscWriting?) ==> Take(t) in s.log)
    && (forall t: nat :: WriteBegin(t, true) in s.log ==> Take(t) in s.log)
  }

  ghost predicate Inv(s: State) {
    OwnershipInv(s) && LockInv(s) && HistoryInv(s) && CloseFrameInv(s) && TakerInv(s)
  }

  lemma {:induction false} CountsAfter(log: seq<Event>, e: Event)
    ensures Takes(log + [e]) == Takes(log) + if e.Take? then 1 else 0
    ensures CloseCallbacks(log + [e]) == CloseCallbacks(log) + if e.OnClose? then 1 else 0
    ensures CloseFrames(log + [e]) == CloseFrames(log) + if e.WriteBegin? && e.closeFrame then 1 else 0
  {
    assert (log + [e])[..|log|] == log;
  }

  /** How many events one action adds to the history, and what they are. */
  function Added(s: State, a: Action): seq<Event>
    requires Enabled(s, a)
  {
    match a
    case Spawn(_) => []
    case HandleClose => [PeerClosed]
    case Cancel(t) => if s.sendLock == Some(t) then [WriteEnd(t)] else []
    case Poll(t, choice) =>
      match s.tasks[t]
      case EmitSelect => if s.closing then [] else [WriteBegin(t, false)]
      case EmitWriting => [WriteEnd(t)]
      case DiscTake => if s.present then [Take(t), OnClose(t)] else []
      case DiscLock => if s.sendLock.None? then [WriteBegin(t, true)] else []
      case DiscWriting => [WriteEnd(t)]
      case _ => []
  }

  lemma {:induction false} LogGrows(s: State, a: Action)
    requires Enabled(s, a)
    ensures Apply(s, a).log == s.log + Added(s, a)
  {
  }

  lemma {:induction false} CountsOfAdded(s: State, a: Action)
    requires Enabled(s, a)
    ensures var l := Apply(s, a).log; var took := a.Poll? && s.tasks[a.task].DiscTake? && s.present;
            && Takes(l) == Takes(s.log) + (if took then 1 else 0)
            && CloseCallbacks(l) == CloseCallbacks(s.log) + (if took then 1 else 0)
            && CloseFrames(l) == CloseFrames(s.log)
               + if a.Poll? && s.tasks[a.task].DiscLock? && s.sendLock.None? then 1 else 0
  {
    LogGrows(s, a);
    var added := Added(s, a);
    if |added| == 1 {
      CountsAfter(s.log, added[0]);
    } else if |added| == 2 {
      CountsAfter(s.log, added[0]);
      CountsAfter(s.log + [added[0]], added[1]);
      assert s.log + added == s.log + [added[0]] + [added[1]];
    } else {
      assert s.log + added == s.log;
    }
  }

  lemma {:induction false} TakeIsCounted(log: seq<Event>, i: nat)
    requires i < |log| && log[i].Take?
    ensures Takes(log) >= 1
  {
    if i < |log| - 1 {
      TakeIsCounted(log[..|log| - 1], i);
    }
  }

  lemma {:induction false} OwnershipPreserved(s: State, a: Action)
    requires OwnershipInv(s) && Enabled(s, a)
    ensures OwnershipInv(Apply(s, a))
  {
    hide CloseFrames, Takes, CloseCallbacks;
    CountsOfAdded(s, a);
  }

  /** How one poll moves its task and the lock. */
  predicate LockMoves(s: State, s': State, t: nat) {
    && t < |s.tasks| == |s'.tasks| && s'.tasks == s.tasks[t := s'.tasks[t]]
    && if IsWriting(s'.tasks[t]) then s'.sendLock == Some(t) && s.sendLock.None?
       else s'.sendLock == if IsWriting(s.tasks[t]) then None else s.sendLock
  }

  lemma {:induction false} PollMovesLock(s: State, t: nat, choice: Choice)
    requires Enabled(s, Poll(t, choice))
    ensures LockMoves(s, PollTask(s, t, choice), t)
  {
  }

  lemma {:induction false} LockKept(s: State, s': State, t: nat)
    requires LockInv(s) && LockMoves(s, s', t)
    ensures LockInv(s')
  {
    assert IsWriting(s.tasks[t]) <==> s.sendLock == Some(t);
  }

  lemma {:induction false} LockPreserved(s: State, a: Action)
    requires LockInv(s) && Enabled(s, a)
    ensures LockInv(Apply(s, a))
  {
    hide PollTask;
    if a.Poll? {
      PollMovesLock(s, a.task, a.choice);
      LockKept(s, PollTask(s, a.task, a.choice), a.task);
    }
  }

  lemma {:induction false} WaitingKeptByPoll(s: State, t: nat, choice: Choice)
    requires OwnershipInv(s) && Waiting(s) && CloseFrames(s.log) <= Takes(s.log) && Enabled(s, Poll(t, choice))
    requires CloseFrames(PollTask(s, t, choice).log)
          == CloseFrames(s.log) + if s.tasks[t].DiscLock? && s.sendLock.None? then 1 else 0
    ensures Waiting(PollTask(s, t, choice))
  {
    hide CloseFrames, Takes, CloseCallbacks;
    var s' := PollTask(s, t, choice);
    assert s'.tasks == s.tasks[t := s'.tasks[t]] && s'.present == (s.present && !s.tasks[t].DiscTake?);
    assert s'.tasks[t].DiscLock? ==> s.tasks[t].DiscTake? && s.present;
    assert s'.tasks[t].DiscWriting? || s'.tasks[t].DiscDone? ==> !s'.present;
    hide PollTask;
  }

  lemma {:induction false} CloseFramePreserved(s: State, a: Action)
    requires OwnershipInv(s) && CloseFrameInv(s) && Enabled(s, a)
    ensures CloseFrameInv(Apply(s, a))
  {
    hide CloseFrames, Takes, CloseCallbacks;
    CountsOfAdded(s, a);
    match a
    case Spawn(_) =>
    case HandleClose =>
    case Cancel(t) => hide PollTask;
    case Poll(t, choice) =>
      hide PollTask;
      WaitingKeptByPoll(s, t, choice);
  }

  /** Adding events that are not begins, with the guard as it is afterwards. */
  lemma {:induction false} EndedAfterQuiet(log: seq<Event>, added: seq<Event>, busy: Option<nat>, busy': Option<nat>)
    requires AllEndedBut(log, busy) && WritesNeverOverlap(log)
    requires forall i :: 0 <= i < |added| ==> !added[i].WriteBegin?
    requires busy' == busy || (busy'.None? && busy.Some? && |added| > 0 && added[0] == WriteEnd(busy.value))
    ensures AllEndedBut(log + added, busy') && WritesNeverOverlap(log + added)
  {
    var l := log + added;
    forall i | 0 <= i < |l| && l[i].WriteBegin? && busy' != Some(l[i].task)
      ensures exists k :: i < k < |l| && l[k] == WriteEnd(l[i].task)
    {
      assert l[i] == log[i];
      if busy == Some(l[i].task) {
        assert l[|log|] == WriteEnd(l[i].task);
      } else {
        var k :| i < k < |log| && log[k] == WriteEnd(log[i].task);
        assert l[k] == log[k];
      }
    }
    forall i, j | 0 <= i < j < |l| && l[i].WriteBegin? && l[j].WriteBegin?
      ensures exists k :: i < k < j && l[k] == WriteEnd(l[i].task)
    {
      assert l[i] == log[i] && l[j] == log[j];
      var k :| i < k < j && log[k] == WriteEnd(log[i].task);
      assert l[k] == log[k];
    }
  }

  /** A write may begin once all the earlier ones have ended. */
  lemma {:induction false} EndedAfterBegin(log: seq<Event>, t: nat, closeFrame: bool)
    requires AllEndedBut(log, None) && WritesNeverOverlap(log)
    ensures AllEndedBut(log + [WriteBegin(t, closeFrame)], Some(t))
    ensures WritesNeverOverlap(log + [WriteBegin(t, closeFrame)])
  {
    var l := log + [WriteBegin(t, closeFrame)];
    forall i | 0 <= i < |log| && l[i].WriteBegin?
      ensures exists k :: i < k < |log| && l[k] == WriteEnd(l[i].task)
    {
      assert l[i] == log[i];
      var k :| i < k < |log| && log[k] == WriteEnd(log[i].task);
      assert l[k] == log[k];
    }
    forall i, j | 0 <= i < j < |l| && l[i].WriteBegin? && l[j].WriteBegin?
      ensures exists k :: i < k < j && l[k] == WriteEnd(l[i].task)
    {
      if j < |log| {
        assert l[i] == log[i] && l[j] == log[j];
        var k :| i < k < j && log[k] == WriteEnd(log[i].task);
        assert l[k] == log[k];
      }
    }
  }

  lemma {:induction false} HistoryPreserved(s: State, a: Action)
    requires OwnershipInv(s) && LockInv(s) && HistoryInv(s) && Enabled(s, a)
    ensures HistoryInv(Apply(s, a))
  {
    var s' := Apply(s, a);
    var added := Added(s, a);
    LogGrows(s, a);
    forall i | 0 <= i < |s.log| && s.log[i].Take?
      ensures s.closing
    {
      TakeIsCounted(s.log, i);
    }
    if |added| == 1 && added[0].WriteBegin? {
      EndedAfterBegin(s.log, added[0].task, added[0].closeFrame);
    } else {
      EndedAfterQuiet(s.log, added, s.sendLock, s'.sendLock);
    }
  }

  /** What one poll does, seen from the task that is polled. */
  predicate TakerMoves(log: seq<Event>, added: seq<Event>, t: nat, pc: Pc, pc': Pc) {
    if pc.DiscTake? then
      (added == [Take(t), OnClose(t)] && pc'.DiscLock?) || (added == [] && pc'.DiscDone?)
    else if pc.DiscLock? then
      (added == [WriteBegin(t, true)] && pc'.DiscWriting?) || (added == [] && pc' == DiscDone(false))
    else if pc.DiscWriting? then added == [WriteEnd(t)] && pc'.DiscDone?
    else
      && (added == [] || added == [WriteBegin(t, false)] || added == [WriteEnd(t)])
      && !pc.DiscDone? && !pc.Cancelled? && !pc'.DiscLock? && !pc'.DiscWriting?
  }

  lemma {:induction false} PollMovesTaker(s: State, t: nat, choice: Choice)
    requires Enabled(s, Poll(t, choice))
    ensures var s' := PollTask(s, t, choice);
            && |s'.tasks| == |s.tasks| && s'.tasks == s.tasks[t := s'.tasks[t]]
            && TakerMoves(s.log, Added(s, Poll(t, choice)), t, s.tasks[t], s'.tasks[t])
  {
  }

  lemma {:induction false} TakerKeptByPoll(s: State, s': State, t: nat, added: seq<Event>)
    requires TakerInv(s) && t < |s.tasks| == |s'.tasks| && s'.tasks == s.tasks[t := s'.tasks[t]]
    requires s'.log == s.log + added && TakerMoves(s.log, added, t, s.tasks[t], s'.tasks[t])
    ensures TakerInv(s')
  {
    assert forall e :: e in s'.log <==> e in s.log || e in added;
    assert forall u: nat :: Take(u) in added ==> u == t && s.tasks[t].DiscTake?;
    assert forall u: nat :: WriteBegin(u, true) in added ==> u == t && s.tasks[t].DiscLock?;
    assert added == [Take(t), OnClose(t)] ==> Take(t) in added;
    assert added == [WriteBegin(t, true)] ==> WriteBegin(t, true) in added;
  }

  lemma {:induction false} OneMore(log: seq<Event>, e: Event)
    ensures forall x :: x in log + [e] <==> x in log || x == e
  {
  }

  lemma {:induction false} TakerKeptByCancel(s: State, t: nat)
    requires TakerInv(s) && Enabled(s, Cancel(t))
    ensures TakerInv(Apply(s, Cancel(t)))
  {
    OneMore(s.log, WriteEnd(t));
    var s' := Apply(s, Cancel(t));
    assert s'.tasks == s.tasks[t := Cancelled] && (s'.log == s.log || s'.log == s.log + [WriteEnd(t)]);
    hide Apply, Enabled;
  }

  lemma {:induction false} TakerPreserved(s: State, a: Action)
    requires TakerInv(s) && Enabled(s, a)
    ensures TakerInv(Apply(s, a))
  {
    match a
    case Spawn(_) => hide PollTask;
    case HandleClose =>
      OneMore(s.log, PeerClosed);
      hide PollTask;
    case Cancel(t) =>
      TakerKeptByCancel(s, t);
      hide Apply, TakerInv;
    case Poll(t, choice) =>
      LogGrows(s, a);
      PollMovesTaker(s, t, choice);
      hide PollTask, TakerInv;
      TakerKeptByPoll(s, PollTask(s, t, choice), t, Added(s, a));
  }

  lemma {:induction false} CloseIsCounted(log: seq<Event>, i: nat)
    requires i < |log| && log[i].WriteBegin? && log[i].closeFrame
    ensures CloseFrames(log) >= 1
  {
    if i < |log| - 1 {
      CloseIsCounted(log[..|log| - 1], i);
    }
  }

  lemma {:induction false} InvPreserved(s: State, a: Action)
    requires Inv(s) && Enabled(s, a)
    ensures Inv(Apply(s, a))
  {
    hide Apply, Enabled, OwnershipInv, LockInv, HistoryInv, CloseFrameInv, TakerInv;
    TakerPreserved(s, a);
    OwnershipPreserved(s, a);
    LockPreserved(s, a);
    HistoryPreserved(s, a);
    CloseFramePreserved(s, a);
  }

  lemma {:induction false} InvAlong(s: State, run: seq<Action>)
    requires Inv(s) && Exec(s, run).Some?
    ensures Inv(Exec(s, run).value)
    decreases |run|
  {
    if run != [] {
      InvPreserved(s, run[0]);
      InvAlong(Apply(s, run[0]), run[1..]);
    }
  }

  /** A disconnect that has run its first block. */
  predicate PastTake(pc: Pc) {
    pc.DiscLock? || pc.DiscWriting? || pc.DiscDone?
  }

  /** A taker that ended well wrote the one Close frame there is, and finished writing it. */
  ghost predicate TakerSentClose(s: State, t: nat) {
    CloseFrames(s.log) == 1 && WriteBegin(t, true) in s.log && WriteEnd(t) in s.log
  }

  lemma {:induction false} TakerSends(s: State, t: nat)
    requires Inv(s) && Take(t) in s.log && t < |s.tasks| && s.tasks[t] == DiscDone(true)
    ensures TakerSentClose(s, t)
  {
    hide CloseFrames, Takes, CloseCallbacks;
    var i :| 0 <= i < |s.log| && s.log[i] == WriteBegin(t, true);
    CloseIsCounted(s.log, i);
    assert CloseFrames(s.log) <= Takes(s.log) <= 1;
    assert s.sendLock != Some(t) by {
      assert !IsWriting(s.tasks[t]);
    }
    assert AllEndedBut(s.log, s.sendLock);
    var k :| i < k < |s.log| && s.log[k] == WriteEnd(t);
  }

  /**
   Transport ownership over every interleaving of emits, connects, disconnects, peer
   closes and cancellations. The transport is taken once; a disconnect that took it and
   ends well has sent the one Close frame; no other call ever sends one.
   */
  lemma {:induction false} TransportOwnership(run: seq<Action>)
    requires Exec(Fresh(), run).Some?
    ensures var s := Exec(Fresh(), run).value;
            && (s.connected ==> s.present)
            && Takes(s.log) == CloseCallbacks(s.log) == (if s.present then 0 else 1)
            && ((exists t :: 0 <= t < |s.tasks| && PastTake(s.tasks[t])) ==> Takes(s.log) == 1)
            && CloseFrames(s.log) <= 1
            && (forall t: nat :: Take(t) in s.log && t < |s.tasks| && s.tasks[t] == DiscDone(true) ==> TakerSentClose(s, t))
            && (forall t: nat :: WriteBegin(t, true) in s.log ==> Take(t) in s.log)
            && WritesNeverOverlap(s.log)
            && NoEmitWriteAfterTake(s.log)
  {
    InvAlong(Fresh(), run);
    var s := Exec(Fresh(), run).value;
    hide Exec, CloseFrames, Takes, CloseCallbacks, TakerSentClose, HistoryInv, LockInv;
    forall t: nat | Take(t) in s.log && t < |s.tasks| && s.tasks[t] == DiscDone(true) ensures TakerSentClose(s, t) {
      TakerSends(s, t);
    }
    assert WritesNeverOverlap(s.log) && NoEmitWriteAfterTake(s.log) by {
      HistoryHolds(s);
    }
  }

  lemma {:induction false} HistoryHolds(s: State)
    requires HistoryInv(s)
    ensures WritesNeverOverlap(s.log) && NoEmitWriteAfterTake(s.log)
  {
  }

  // ----- retirement is permanent -----

  lemma {:induction false} RetiredStep(s: State, a: Action)
    requires OwnershipInv(s) && s.closing && Enabled(s, a)
    ensures var s' := Apply(s, a);
            && s'.closing && !s'.present && !s'.connected
            && |s.tasks| <= |s'.tasks|
            && forall t :: 0 <= t < |s'.tasks| && s'.tasks[t] == EmitDone(true) ==>
                 t < |s.tasks| && s.tasks[t] == EmitDone(true)
  {
  }

  /**
   Once the transport is taken it is never present or connected again, and no emit or
   connect that had not finished by then, or that starts later, succeeds.
   */
  lemma {:induction false} RetirementIsPermanent(s: State, run: seq<Action>)
    requires OwnershipInv(s) && s.closing && Exec(s, run).Some?
    ensures var s' := Exec(s, run).value;
            && OwnershipInv(s') && s'.closing && !s'.present && !s'.connected
            && |s.tasks| <= |s'.tasks|
            && forall t :: 0 <= t < |s'.tasks| && s'.tasks[t] == EmitDone(true) ==>
                 t < |s.tasks| && s.tasks[t] == EmitDone(true)
    decreases |run|
  {
    if run != [] {
      OwnershipPreserved(s, run[0]);
      RetiredStep(s, run[0]);
      RetirementIsPermanent(Apply(s, run[0]), run[1..]);
    }
  }
}
