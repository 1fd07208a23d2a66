/** The states a run of the client leads through. */
module LifecycleRuns {
  import opened Common
  import opened Lifecycle
  import Fence = LifecycleFence
  import Progress = LifecycleProgress

  /** A run from the start of a client that takes only enabled actions. */
  predicate IsRun(c: Config, run: seq<Action>) {
    Exec(c, Start(), run).Some?
  }

  lemma {:induction false} PrefixIsRun(c: Config, run: seq<Action>, n: nat)
    requires IsRun(c, run) && n <= |run|
    ensures IsRun(c, run[..n])
  {
    RunsTo(c, Start(), run, n);
  }

  lemma {:induction false} RunsTo(c: Config, s: State, run: seq<Action>, n: nat)
    requires Exec(c, s, run).Some? && n <= |run|
    ensures Exec(c, s, run[..n]).Some?
    decreases n
  {
    hide Apply, Enabled;
    if n > 0 {
      RunsTo(c, Apply(c, s, run[0]), run[1..], n - 1);
      assert run[..n][1..] == run[1..][..n - 1];
    }
  }

  /** The state before action `n`, or the last one. */
  function StateAt(c: Config, run: seq<Action>, n: nat): State
    requires IsRun(c, run) && n <= |run|
  {
    PrefixIsRun(c, run, n);
    Exec(c, Start(), run[..n]).value
  }

  lemma {:induction false} Ends(c: Config, run: seq<Action>)
    requires IsRun(c, run)
    ensures StateAt(c, run, 0) == Start() && StateAt(c, run, |run|) == Exec(c, Start(), run).value
  {
    assert run[..|run|] == run;
  }

  /** One action leads from each state to the next. */
  lemma {:induction false} NextState(c: Config, run: seq<Action>, n: nat)
    requires IsRun(c, run) && n < |run|
    ensures Enabled(StateAt(c, run, n), run[n])
    ensures StateAt(c, run, n + 1) == Apply(c, StateAt(c, run, n), run[n])
  {
    hide Apply, Enabled;
    PrefixIsRun(c, run, n);
    PrefixIsRun(c, run, n + 1);
    assert run[..n + 1] == run[..n] + [run[n]] && [run[n]][1..] == [];
    Progress.ExecChain(c, Start(), run[..n], [run[n]]);
    OneAction(c, StateAt(c, run, n), run[n]);
  }

  lemma {:induction false} OneAction(c: Config, s: State, a: Action)
    ensures Exec(c, s, [a]) == if Enabled(s, a) then Some(Apply(c, s, a)) else None
  {
    hide Apply, Enabled;
    assert [a][1..] == [];
    if Enabled(s, a) {
      assert Exec(c, Apply(c, s, a), []) == Some(Apply(c, s, a));
    }
  }

  /** The invariants of the fence hold at every point of a run. */
  lemma {:induction false} InvAt(c: Config, run: seq<Action>, n: nat)
    requires IsRun(c, run) && n <= |run|
    ensures Fence.Inv(StateAt(c, run, n))
  {
    hide Fence.Inv;
    PrefixIsRun(c, run, n);
    Fence.StartInv();
    Fence.InvAlong(c, Start(), run[..n]);
  }
}
