/** How the calls on a transport owner end, over all interleavings. */
module TransportOutcomes {
  import opened Common
  import opened TransportOwner
  import Proofs = TransportOwnerProofs

  predicate IsRun(s: State, run: seq<Action>) {
    Exec(s, run).Some?
  }

  lemma {:induction false} ExecChain(s: State, first: seq<Action>, second: seq<Action>)
    requires Exec(s, first).Some?
    ensures Exec(s, first + second) == Exec(Exec(s, first).value, second)
    decreases |first|
  {
    hide Apply, Enabled;
    if first == [] {
      assert first + second == second;
    } else {
      ExecChain(Apply(s, first[0]), first[1..], second);
      assert (first + second)[1..] == first[1..] + second;
    }
  }

  lemma {:induction false} PrefixIsRun(s: State, run: seq<Action>, n: nat)
    requires IsRun(s, run) && n <= |run|
    ensures IsRun(s, run[..n])
    decreases n
  {
    hide Apply, Enabled;
    if n > 0 {
      PrefixIsRun(Apply(s, run[0]), run[1..], n - 1);
      assert run[..n][1..] == run[1..][..n - 1];
    }
  }

  /** The state before action `n`, or the last one. */
  function StateAt(s: State, run: seq<Action>, n: nat): State
    requires IsRun(s, run) && n <= |run|
  {
    PrefixIsRun(s, run, n);
    Exec(s, run[..n]).value
  }

  lemma {:induction false} Ends(s: State, run: seq<Action>)
    requires IsRun(s, run)
    ensures StateAt(s, run, 0) == s && StateAt(s, run, |run|) == Exec(s, run).value
  {
    assert run[..|run|] == run;
  }

  lemma {:induction false} OneAction(s: State, a: Action)
    ensures Exec(s, [a]) == if Enabled(s, a) then Some(Apply(s, a)) else None
  {
    hide Apply, Enabled;
    assert [a][1..] == [];
    if Enabled(s, a) {
      assert Exec(Apply(s, a), []) == Some(Apply(s, a));
    }
  }

  lemma {:induction false} NextState(s: State, run: seq<Action>, n: nat)
    requires IsRun(s, run) && n < |run|
    ensures Enabled(StateAt(s, run, n), run[n])
    ensures StateAt(s, run, n + 1) == Apply(StateAt(s, run, n), run[n])
  {
    hide Apply, Enabled;
    PrefixIsRun(s, run, n);
    PrefixIsRun(s, run, n + 1);
    assert run[..n + 1] == run[..n] + [run[n]] && [run[n]][1..] == [];
    ExecChain(s, run[..n], [run[n]]);
    OneAction(StateAt(s, run, n), run[n]);
  }

  // ----- when a call ends well -----

  /** This action ends an emit or connect well: the last write of the call succeeds and nobody is closing. */
  predicate EmitsWell(s: State, a: Action, t: nat) {
    a == Poll(t, Success) && t < |s.tasks| && s.tasks[t].EmitWriting? && !s.closing
  }

  /** This action ends a disconnect well: it finds the transport gone, or its Close frame is written. */
  predicate DisconnectsWell(s: State, a: Action, t: nat) {
    && a.Poll? && a.task == t && t < |s.tasks|
    && ((s.tasks[t].DiscTake? && !s.present) || (s.tasks[t].DiscWriting? && a.choice.Success?))
  }

  lemma {:induction false} OutcomeOfPoll(s: State, t: nat, choice: Choice)
    requires Enabled(s, Poll(t, choice))
    ensures var s' := PollTask(s, t, choice);
            && |s'.tasks| == |s.tasks| && s'.tasks == s.tasks[t := s'.tasks[t]]
            && (s'.tasks[t] == EmitDone(true) <==> EmitsWell(s, Poll(t, choice), t))
            && (s'.tasks[t] == DiscDone(true) <==> DisconnectsWell(s, Poll(t, choice), t))
            && !IsOver(s.tasks[t])
  {
  }

  /** What an action does to a call that has ended well, or does so now. */
  lemma {:induction false} OutcomeStep(s: State, a: Action, t: nat)
    requires Enabled(s, a)
    ensures var s' := Apply(s, a);
            && |s.tasks| <= |s'.tasks|
            && (t < |s'.tasks| ==>
                  (s'.tasks[t] == EmitDone(true) <==>
                    EmitsWell(s, a, t) || (t < |s.tasks| && s.tasks[t] == EmitDone(true))))
            && (t < |s'.tasks| ==>
                  (s'.tasks[t] == DiscDone(true) <==>
                    DisconnectsWell(s, a, t) || (t < |s.tasks| && s.tasks[t] == DiscDone(true))))
  {
    hide PollTask;
    if a.Poll? {
      OutcomeOfPoll(s, a.task, a.choice);
    }
  }

  /**
   Over every interleaving, a call of emit or connect has ended well exactly if some action of
   the run was the success of its write while nobody was closing; a disconnect, exactly if it
   found the transport gone or its Close frame was written with success.
   */
  lemma {:induction false} OutcomesExactly(run: seq<Action>, n: nat, t: nat)
    requires IsRun(Fresh(), run) && n <= |run| && t < |StateAt(Fresh(), run, n).tasks|
    ensures StateAt(Fresh(), run, n).tasks[t] == EmitDone(true) <==>
              exists j: nat :: j < n && EmitsWell(StateAt(Fresh(), run, j), run[j], t)
    ensures StateAt(Fresh(), run, n).tasks[t] == DiscDone(true) <==>
              exists j: nat :: j < n && DisconnectsWell(StateAt(Fresh(), run, j), run[j], t)
    decreases n
  {
    hide StateAt, Apply, Enabled, EmitsWell, DisconnectsWell;
    if n == 0 {
      Ends(Fresh(), run);
    } else {
      var s := StateAt(Fresh(), run, n - 1);
      NextState(Fresh(), run, n - 1);
      OutcomeStep(s, run[n - 1], t);
      if t < |s.tasks| {
        OutcomesExactly(run, n - 1, t);
      } else {
        NotYetCalled(run, n - 1, t);
      }
    }
  }

  lemma {:induction false} NotYetCalled(run: seq<Action>, n: nat, t: nat)
    requires IsRun(Fresh(), run) && n <= |run| && t >= |StateAt(Fresh(), run, n).tasks|
    ensures forall j: nat :: j < n ==> !EmitsWell(StateAt(Fresh(), run, j), run[j], t)
    ensures forall j: nat :: j < n ==> !DisconnectsWell(StateAt(Fresh(), run, j), run[j], t)
    decreases n
  {
    hide StateAt, Apply;
    if n > 0 {
      NextState(Fresh(), run, n - 1);
      OutcomeStep(StateAt(Fresh(), run, n - 1), run[n - 1], t);
      NotYetCalled(run, n - 1, t);
    }
  }

  // ----- after a close from the peer -----

  /** Places behind the check of the connected flag. */
  predicate PastCheck(pc: Pc) {
    pc.EmitClone? || pc.EmitSelect? || pc.EmitWriting? || pc == EmitDone(true)
  }

  /** The action publishes the connected flag anew. */
  predicate Publishes(s: State, a: Action) {
    a.Poll? && a.task < |s.tasks| && s.tasks[a.task].ConnectPublish? && s.present
  }

  lemma {:induction false} RefusedStep(s: State, a: Action, t: nat)
    requires Enabled(s, a) && !s.connected && !Publishes(s, a)
    requires t < |s.tasks| ==> !PastCheck(s.tasks[t])
    ensures var s' := Apply(s, a);
            && !s'.connected && (t < |s'.tasks| ==> !PastCheck(s'.tasks[t]))
            && |s.log| <= |s'.log| && s'.log[..|s.log|] == s.log
            && WriteBegin(t, false) !in s'.log[|s.log|..]
  {
    Proofs.LogGrows(s, a);
    assert Apply(s, a).log[|s.log|..] == Proofs.Added(s, a);
  }

  lemma {:induction false} RefusedAlong(s: State, run: seq<Action>, t: nat)
    requires IsRun(s, run) && !s.connected && (t < |s.tasks| ==> !PastCheck(s.tasks[t]))
    requires forall j: nat :: j < |run| ==> !Publishes(StateAt(s, run, j), run[j])
    ensures var s' := Exec(s, run).value;
            && !s'.connected && (t < |s'.tasks| ==> !PastCheck(s'.tasks[t]))
            && |s.log| <= |s'.log| && s'.log[..|s.log|] == s.log
            && WriteBegin(t, false) !in s'.log[|s.log|..]
    decreases |run|
  {
    hide Apply, Enabled, Publishes, PastCheck;
    if run == [] {
      assert s.log[|s.log|..] == [];
    } else {
      var s1 := Apply(s, run[0]);
      assert run[..0] == [] && StateAt(s, run, 0) == s;
      RefusedStep(s, run[0], t);
      forall j: nat | j < |run[1..]| ensures !Publishes(StateAt(s1, run[1..], j), run[1..][j]) {
        assert run[..j + 1][1..] == run[1..][..j];
        assert StateAt(s, run, j + 1) == StateAt(s1, run[1..], j);
      }
      RefusedAlong(s1, run[1..], t);
      var s' := Exec(s, run).value;
      assert s'.log[|s.log|..] == s1.log[|s.log|..] + s'.log[|s1.log|..];
    }
  }

  /**
   After a close from the peer, and until a connect publishes the flag anew, every emit that
   had not passed its check, and every one called later, writes nothing and does not end well.
   */
  lemma {:induction false} PeerCloseRefusesEmits(s: State, run: seq<Action>, t: nat)
    requires IsRun(Apply(s, HandleClose), run) && (t < |s.tasks| ==> !PastCheck(s.tasks[t]))
    requires forall j: nat :: j < |run| ==> !Publishes(StateAt(Apply(s, HandleClose), run, j), run[j])
    ensures var s' := Exec(Apply(s, HandleClose), run).value;
            && (t < |s'.tasks| ==> s'.tasks[t] != EmitDone(true) && !s'.tasks[t].EmitWriting?)
            && s.log + [PeerClosed] <= s'.log
            && WriteBegin(t, false) !in s'.log[|s.log| + 1..]
  {
    hide Exec;
    RefusedAlong(Apply(s, HandleClose), run, t);
  }

  /** The close itself takes nothing back and stops nobody who is writing. */
  lemma {:induction false} PeerCloseKeepsTheRest(s: State)
    ensures Enabled(s, HandleClose)
    ensures var s' := Apply(s, HandleClose);
            && s'.present == s.present && s'.closing == s.closing && s'.sendLock == s.sendLock && s'.tasks == s.tasks
  {
  }

  // ----- what a call does when nobody interferes -----

  /** The transport is there, nobody is closing it and nobody is writing. */
  predicate IsFree(s: State) {
    s.present && !s.closing && s.sendLock.None?
  }

  lemma {:induction false} First(s: State, a: Action, s': State, rest: seq<Action>)
    requires Enabled(s, a) && s' == Apply(s, a)
    ensures Exec(s, [a] + rest) == Exec(s', rest)
  {
    hide Apply, Enabled;
    assert ([a] + rest)[1..] == rest;
  }

  lemma {:induction false} NoneLeft(s: State)
    ensures Exec(s, []) == Some(s)
  {
  }

  /** An emit at its check on a connected free owner writes once and ends as its write does. */
  lemma {:induction false} EmitGoesThrough(s: State, t: nat, choice: Choice)
    requires IsFree(s) && s.connected && t < |s.tasks| && s.tasks[t].EmitCheck?
    ensures var p := Poll(t, choice);
            Exec(s, [p, p, p, p])
            == Some(s.(tasks := s.tasks[t := EmitDone(choice.Success?)], log := s.log + [WriteBegin(t, false), WriteEnd(t)]))
  {
    var a := Poll(t, choice);
    var s1 := s.(tasks := s.tasks[t := EmitClone]);
    var s2 := s.(tasks := s.tasks[t := EmitSelect]);
    var s3 := s.(tasks := s.tasks[t := EmitWriting], sendLock := Some(t), log := s.log + [WriteBegin(t, false)]);
    var s4 := s.(tasks := s.tasks[t := EmitDone(choice.Success?)], log := s.log + [WriteBegin(t, false), WriteEnd(t)]);
    assert Apply(s, a) == s1;
    assert Apply(s1, a) == s2;
    assert Apply(s2, a) == s3;
    assert Apply(s3, a) == s4 by {
      assert s4.log == s3.log + [WriteEnd(t)];
    }
    First(s, a, s1, [a, a, a]);
    First(s1, a, s2, [a, a]);
    First(s2, a, s3, [a]);
    First(s3, a, s4, []);
    NoneLeft(s4);
    hide Exec, Apply, Enabled;
    assert [a] + [] == [a] && [a] + [a] == [a, a] && [a] + [a, a] == [a, a, a] && [a] + [a, a, a] == [a, a, a, a];
  }

  /** A call of emit on a connected free owner. */
  lemma {:induction false} LoneEmit(s: State, choice: Choice)
    requires IsFree(s) && s.connected
    ensures var t := |s.tasks|; var p := Poll(t, choice);
            Exec(s, [Spawn(EmitCheck)] + [p, p, p, p])
            == Some(s.(tasks := s.tasks + [EmitDone(choice.Success?)],
                       log := s.log + [WriteBegin(t, false), WriteEnd(t)]))
  {
    var t, a := |s.tasks|, Poll(|s.tasks|, choice);
    var s1 := s.(tasks := s.tasks + [EmitCheck]);
    First(s, Spawn(EmitCheck), s1, [a, a, a, a]);
    EmitGoesThrough(s1, t, choice);
    assert s1.tasks[t := EmitDone(choice.Success?)] == s.tasks + [EmitDone(choice.Success?)];
  }

  /** A call of connect on a free owner publishes the flag, then writes one pong and ends as that write does. */
  lemma {:induction false} LoneConnect(s: State, choice: Choice)
    requires IsFree(s)
    ensures var t := |s.tasks|; var p := Poll(t, choice);
            Exec(s, [Spawn(ConnectPublish)] + ([p] + ([p] + [p, p, p, p])))
            == Some(s.(connected := true, tasks := s.tasks + [EmitDone(choice.Success?)],
                       log := s.log + [WriteBegin(t, false), WriteEnd(t)]))
  {
    var t, a := |s.tasks|, Poll(|s.tasks|, choice);
    var s1 := s.(tasks := s.tasks + [ConnectPublish]);
    var s2 := s.(tasks := s.tasks + [ConnectPong], connected := true);
    var s3 := s.(tasks := s.tasks + [EmitCheck], connected := true);
    assert Apply(s1, a) == s2 && Apply(s2, a) == s3;
    First(s, Spawn(ConnectPublish), s1, [a] + ([a] + [a, a, a, a]));
    First(s1, a, s2, [a] + [a, a, a, a]);
    First(s2, a, s3, [a, a, a, a]);
    EmitGoesThrough(s3, t, choice);
    assert s3.tasks[t := EmitDone(choice.Success?)] == s.tasks + [EmitDone(choice.Success?)];
  }

  /** A disconnect on a free owner retires it, writes one Close frame and ends as that write does. */
  lemma {:induction false} LoneDisconnect(s: State, choice: Choice)
    requires IsFree(s)
    ensures var t := |s.tasks|; var p := Poll(t, choice);
            Exec(s, [Spawn(DiscTake), p, p, p])
            == Some(s.(present := false, connected := false, closing := true,
                       tasks := s.tasks + [DiscDone(choice.Success?)],
                       log := s.log + [Take(t), OnClose(t), WriteBegin(t, true), WriteEnd(t)]))
  {
    var t, a := |s.tasks|, Poll(|s.tasks|, choice);
    var gone := s.(present := false, connected := false, closing := true);
    var s1 := s.(tasks := s.tasks + [DiscTake]);
    var s2 := gone.(tasks := s.tasks + [DiscLock], log := s.log + [Take(t), OnClose(t)]);
    var s3 := gone.(tasks := s.tasks + [DiscWriting], sendLock := Some(t),
                    log := s.log + [Take(t), OnClose(t), WriteBegin(t, true)]);
    var s4 := gone.(tasks := s.tasks + [DiscDone(choice.Success?)],
                    log := s.log + [Take(t), OnClose(t), WriteBegin(t, true), WriteEnd(t)]);
    assert Apply(s, Spawn(DiscTake)) == s1;
    assert Apply(s1, a) == s2 by {
      assert s.log + [Take(t)] + [OnClose(t)] == s2.log;
    }
    assert Apply(s2, a) == s3 by {
      assert s2.log + [WriteBegin(t, true)] == s3.log;
    }
    assert Apply(s3, a) == s4 by {
      assert s3.log + [WriteEnd(t)] == s4.log;
    }
    First(s, Spawn(DiscTake), s1, [a, a, a]);
    First(s1, a, s2, [a, a]);
    First(s2, a, s3, [a]);
    First(s3, a, s4, []);
    NoneLeft(s4);
    hide Exec, Apply, Enabled;
    assert [a] + [] == [a] && [a] + [a] == [a, a] && [a] + [a, a] == [a, a, a];
    assert [Spawn(DiscTake)] + [a, a, a] == [Spawn(DiscTake), a, a, a];
  }

  /** An emit that finds the flag cleared, the transport gone or the owner closing is refused on the spot; so is a connect. */
  lemma {:induction false} RefusedOnTheSpot(s: State, t: nat, choice: Choice)
    requires t < |s.tasks|
    requires || (s.tasks[t].EmitCheck? && !s.connected) || (s.tasks[t].EmitClone? && !s.present)
             || (s.tasks[t].EmitSelect? && s.closing) || (s.tasks[t].ConnectPublish? && !s.present)
    ensures Enabled(s, Poll(t, choice))
    ensures Apply(s, Poll(t, choice)) == s.(tasks := s.tasks[t := EmitDone(false)])
  {
  }

  /** A disconnect that finds the transport gone ends well at once, and one that times out on the lock does not. */
  lemma {:induction false} LateDisconnect(s: State, t: nat, choice: Choice)
    requires t < |s.tasks| && !s.present
    ensures s.tasks[t].DiscTake? ==>
              && Enabled(s, Poll(t, choice))
              && Apply(s, Poll(t, choice))
                 == s.(connected := false, closing := true, tasks := s.tasks[t := DiscDone(true)])
    ensures s.tasks[t].DiscLock? && s.sendLock.Some? ==>
              && Enabled(s, Poll(t, Timeout))
              && Apply(s, Poll(t, Timeout)) == s.(tasks := s.tasks[t := DiscDone(false)])
  {
  }
}
