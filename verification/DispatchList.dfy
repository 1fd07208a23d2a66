/**
 The list of dispatch handles as the client keeps it: a vector that `spawn_dispatch`
 prunes and extends and `abort_dispatch` drains. Both loops are proved to do what the
 one-block functions of module Lifecycle say, which the lifecycle proofs rely on.
 */
module DispatchList {
  import opened Common
  import opened Lifecycle

  type Handle = (nat, bool)

  /** A client state seen only through its tasks. */
  function Seen(epoch: nat, tasks: seq<Task>, tracked: set<nat>): State {
    Start().(epoch := epoch, tasks := tasks, tracked := tracked)
  }

  /** The handles that are not finished, in order. */
  function Unfinished(handles: seq<Handle>, tasks: seq<Task>): (kept: seq<Handle>)
    requires forall i :: 0 <= i < |handles| ==> handles[i].0 < |tasks|
  {
    if handles == [] then []
    else
      (if tasks[handles[0].0].status.Finished? then [] else [handles[0]]) + Unfinished(handles[1..], tasks)
  }

  /** The handles an abort leaves in the list, in order. */
  function Kept(handles: seq<Handle>, includeTerminal: bool): (kept: seq<Handle>) {
    if handles == [] then []
    else (if includeTerminal || !handles[0].1 then [] else [handles[0]]) + Kept(handles[1..], includeTerminal)
  }

  /** What aborting one drained handle does. */
  function AbortOne(tasks: seq<Task>, handle: Handle, includeTerminal: bool): (r: seq<Task>)
    requires handle.0 < |tasks|
    ensures |r| == |tasks|
  {
    if (includeTerminal || !handle.1) && tasks[handle.0].status.Live?
    then tasks[handle.0 := tasks[handle.0].(status := Aborted)] else tasks
  }

  /** The tasks after aborting the given handles one after the other. */
  function AbortEach(tasks: seq<Task>, handles: seq<Handle>, includeTerminal: bool): (r: seq<Task>)
    requires forall i :: 0 <= i < |handles| ==> handles[i].0 < |tasks|
    ensures |r| == |tasks|
  {
    if handles == [] then tasks
    else
      var n := |handles| - 1;
      AbortOne(AbortEach(tasks, handles[..n], includeTerminal), handles[n], includeTerminal)
  }

  ghost function Ids(handles: seq<Handle>): (ids: set<nat>) {
    set h | h in handles :: h.0
  }

  ghost predicate Matches(handles: seq<Handle>, tasks: seq<Task>) {
    forall i :: 0 <= i < |handles| ==> handles[i].0 < |tasks| && tasks[handles[i].0].terminal == handles[i].1
  }

  lemma {:induction false} UnfinishedMembers(handles: seq<Handle>, tasks: seq<Task>, h: Handle)
    requires Matches(handles, tasks)
    ensures h in Unfinished(handles, tasks) <==> h in handles && !tasks[h.0].status.Finished?
  {
    if handles != [] {
      UnfinishedMembers(handles[1..], tasks, h);
      assert h in handles <==> h == handles[0] || h in handles[1..];
    }
  }

  lemma {:induction false} KeptMembers(handles: seq<Handle>, includeTerminal: bool, h: Handle)
    ensures h in Kept(handles, includeTerminal) <==> h in handles && !includeTerminal && h.1
  {
    if handles != [] {
      KeptMembers(handles[1..], includeTerminal, h);
      assert h in handles <==> h == handles[0] || h in handles[1..];
    }
  }

  lemma {:induction false} AbortedAt(tasks: seq<Task>, handles: seq<Handle>, includeTerminal: bool, id: nat)
    requires Matches(handles, tasks) && id < |tasks|
    ensures AbortEach(tasks, handles, includeTerminal)[id]
         == if tasks[id].status.Live? && id in Ids(handles) && (includeTerminal || !tasks[id].terminal)
            then tasks[id].(status := Aborted) else tasks[id]
  {
    if handles != [] {
      var n := |handles| - 1;
      var last := handles[n];
      assert last in handles && forall h :: h in handles <==> h in handles[..n] || h == last;
      AbortedAt(tasks, handles[..n], includeTerminal, id);
      assert id in Ids(handles) <==> id in Ids(handles[..n]) || id == last.0;
    }
  }

  /** Aborting handle by handle is the one-block abort of the lifecycle. */
  lemma {:induction false} AbortRefines(tasks: seq<Task>, handles: seq<Handle>, includeTerminal: bool)
    requires Matches(handles, tasks)
    ensures var s := Lifecycle.AbortDispatch(Seen(0, tasks, Ids(handles)), includeTerminal);
            && AbortEach(tasks, handles, includeTerminal) == s.tasks
            && Ids(Kept(handles, includeTerminal)) == s.tracked
            && Matches(Kept(handles, includeTerminal), s.tasks)
  {
    var s := Lifecycle.AbortDispatch(Seen(0, tasks, Ids(handles)), includeTerminal);
    forall id | 0 <= id < |tasks|
      ensures AbortEach(tasks, handles, includeTerminal)[id] == s.tasks[id]
    {
      AbortedAt(tasks, handles, includeTerminal, id);
    }
    var kept := Kept(handles, includeTerminal);
    forall h: Handle
      ensures h in kept <==> h in handles && !includeTerminal && h.1
    {
      KeptMembers(handles, includeTerminal, h);
    }
    forall x
      ensures x in Ids(kept) <==> x in s.tracked
    {
      if x in s.tracked {
        var h :| h in handles && h.0 == x;
        assert h in kept;
      }
    }
  }

  /** Pruning and pushing is the one-block spawn of the lifecycle. */
  lemma {:induction false} SpawnRefines(tasks: seq<Task>, handles: seq<Handle>, epoch: nat, callback: Callback, terminal: bool)
    requires Matches(handles, tasks)
    ensures var s := Lifecycle.SpawnDispatch(Seen(epoch, tasks, Ids(handles)), callback, terminal);
            && Ids(Unfinished(handles, tasks) + [(|tasks|, terminal)]) == s.tracked
            && Matches(Unfinished(handles, tasks) + [(|tasks|, terminal)], s.tasks)
  {
    var s := Lifecycle.SpawnDispatch(Seen(epoch, tasks, Ids(handles)), callback, terminal);
    var added: Handle := (|tasks|, terminal);
    var kept := Unfinished(handles, tasks);
    var all := kept + [added];
    forall h: Handle
      ensures h in kept <==> h in handles && !tasks[h.0].status.Finished?
    {
      UnfinishedMembers(handles, tasks, h);
    }
    assert all[|kept|] == added;
    forall x
      ensures x in Ids(all) <==> x in s.tracked
    {
      if x in Ids(all) {
        var h :| h in all && h.0 == x;
        assert h in kept || h == added;
      }
      if x in s.tracked && x != |tasks| {
        var h :| h in handles && h.0 == x;
        assert h in kept && h in all;
      }
      assert added in all;
    }
  }

  /** The handles stand in the order in which their tasks were spawned. */
  ghost predicate InOrder(handles: seq<Handle>) {
    forall i, j :: 0 <= i < j < |handles| ==> handles[i].0 < handles[j].0
  }

  /** Dropping a handle in front of others keeps them in order, and behind whatever was before them. */
  lemma {:induction false} AheadInOrder(h: Handle, handles: seq<Handle>)
    requires InOrder(handles) && forall x :: x in handles ==> h.0 < x.0
    ensures InOrder([h] + handles)
  {
    assert forall i :: 0 <= i < |handles| ==> handles[i] in handles;
  }

  lemma {:induction false} UnfinishedInOrder(handles: seq<Handle>, tasks: seq<Task>)
    requires Matches(handles, tasks) && InOrder(handles)
    ensures InOrder(Unfinished(handles, tasks))
  {
    if handles != [] {
      var rest := Unfinished(handles[1..], tasks);
      UnfinishedInOrder(handles[1..], tasks);
      forall x | x in rest ensures handles[0].0 < x.0 {
        UnfinishedMembers(handles[1..], tasks, x);
        var i :| 0 <= i < |handles[1..]| && handles[1..][i] == x;
        assert handles[i + 1] == x;
      }
      AheadInOrder(handles[0], rest);
      assert [] + rest == rest;
    }
  }

  /** A new task comes behind all the others. */
  lemma {:induction false} SpawnedInOrder(handles: seq<Handle>, tasks: seq<Task>, terminal: bool)
    requires Matches(handles, tasks) && InOrder(handles)
    ensures InOrder(Unfinished(handles, tasks) + [(|tasks|, terminal)])
  {
    var kept := Unfinished(handles, tasks);
    UnfinishedInOrder(handles, tasks);
    forall i | 0 <= i < |kept| ensures kept[i].0 < |tasks| {
      UnfinishedMembers(handles, tasks, kept[i]);
    }
  }

  lemma {:induction false} KeptInOrder(handles: seq<Handle>, includeTerminal: bool)
    requires InOrder(handles)
    ensures InOrder(Kept(handles, includeTerminal))
  {
    if handles != [] {
      var rest := Kept(handles[1..], includeTerminal);
      KeptInOrder(handles[1..], includeTerminal);
      forall x | x in rest ensures handles[0].0 < x.0 {
        KeptMembers(handles[1..], includeTerminal, x);
        var i :| 0 <= i < |handles[1..]| && handles[1..][i] == x;
        assert handles[i + 1] == x;
      }
      AheadInOrder(handles[0], rest);
      assert [] + rest == rest;
    }
  }

  lemma {:induction false} TailHandles(handles: seq<Handle>, tasks: seq<Task>, i: nat)
    requires Matches(handles, tasks) && i <= |handles|
    ensures Matches(handles[i..], tasks) && Matches(handles[..i], tasks)
    ensures i < |handles| ==> handles[i..][1..] == handles[i + 1..] && handles[..i + 1][..i] == handles[..i]
  {
  }

  /** The `retain` over the handles. */
  method Retain(handles: seq<Handle>, tasks: seq<Task>) returns (kept: seq<Handle>)
    requires Matches(handles, tasks)
    ensures kept == Unfinished(handles, tasks)
  {
    kept := [];
    var i := 0;
    while i < |handles|
      invariant 0 <= i <= |handles|
      invariant Matches(handles[i..], tasks)
      invariant kept + Unfinished(handles[i..], tasks) == Unfinished(handles, tasks)
    {
      TailHandles(handles, tasks, i);
      TailHandles(handles, tasks, i + 1);
      if !tasks[handles[i].0].status.Finished? {
        kept := kept + [handles[i]];
      }
      i := i + 1;
    }
  }

  lemma {:induction false} AbortEachStep(tasks: seq<Task>, handles: seq<Handle>, includeTerminal: bool, i: nat)
    requires Matches(handles, tasks) && i < |handles|
    ensures Matches(handles[..i], tasks) && Matches(handles[..i + 1], tasks)
    ensures AbortEach(tasks, handles[..i + 1], includeTerminal)
         == AbortOne(AbortEach(tasks, handles[..i], includeTerminal), handles[i], includeTerminal)
  {
    assert handles[..i + 1][..i] == handles[..i];
  }

  lemma {:induction false} KeptStep(handles: seq<Handle>, includeTerminal: bool, i: nat)
    requires i < |handles|
    ensures Kept(handles[i..], includeTerminal)
         == (if includeTerminal || !handles[i].1 then [] else [handles[i]]) + Kept(handles[i + 1..], includeTerminal)
  {
    assert handles[i..][1..] == handles[i + 1..];
  }

  /** The drain of the handles: what is aborted and what remains. */
  method Drain(handles: seq<Handle>, tasks: seq<Task>, includeTerminal: bool)
    returns (aborted: seq<Task>, remaining: seq<Handle>)
    requires Matches(handles, tasks)
    ensures aborted == AbortEach(tasks, handles, includeTerminal)
    ensures remaining == Kept(handles, includeTerminal)
  {
    assert Kept(handles[..0], includeTerminal) == [] && handles[0..] == handles;
    assert AbortEach(tasks, handles[..0], includeTerminal) == tasks && Kept([], includeTerminal) == [];
    hide AbortEach, Kept;
    aborted, remaining := tasks, [];
    var i := 0;
    while i < |handles|
      invariant 0 <= i <= |handles|
      invariant Matches(handles[..i], tasks)
      invariant aborted == AbortEach(tasks, handles[..i], includeTerminal)
      invariant remaining + Kept(handles[i..], includeTerminal) == Kept(handles, includeTerminal)
    {
      AbortEachStep(tasks, handles, includeTerminal, i);
      KeptStep(handles, includeTerminal, i);
      ghost var rest := Kept(handles[i + 1..], includeTerminal);
      var (id, terminal) := handles[i];
      if includeTerminal || !terminal {
        aborted := AbortOne(aborted, (id, terminal), includeTerminal);
        assert [] + rest == rest;
      } else {
        assert remaining + ([(id, terminal)] + rest) == remaining + [(id, terminal)] + rest;
        remaining := remaining + [(id, terminal)];
      }
      i := i + 1;
    }
    assert handles[..i] == handles && handles[i..] == [];
  }

  class DispatchTasks {
    var tasks: seq<Task>
    var handles: seq<Handle>

    ghost predicate Valid()
      reads this
    {
      Matches(handles, tasks) && InOrder(handles)
    }

    constructor ()
      ensures Valid() && tasks == [] && handles == []
    {
      tasks, handles := [], [];
    }

    method SpawnDispatch(epoch: nat, callback: Callback, terminal: bool)
      requires Valid()
      modifies this
      ensures Valid()
      ensures handles == Unfinished(old(handles), old(tasks)) + [(|old(tasks)|, terminal)]
      ensures var s := Lifecycle.SpawnDispatch(Seen(epoch, old(tasks), Ids(old(handles))), callback, terminal);
              tasks == s.tasks && Ids(handles) == s.tracked
    {
      SpawnRefines(tasks, handles, epoch, callback, terminal);
      SpawnedInOrder(handles, tasks, terminal);
      var kept := Retain(handles, tasks);
      handles := kept + [(|tasks|, terminal)];
      tasks := tasks + [Task(callback, terminal, epoch, Live)];
    }

    method AbortDispatch(includeTerminal: bool)
      requires Valid()
      modifies this
      ensures Valid()
      ensures handles == Kept(old(handles), includeTerminal)
      ensures var s := Lifecycle.AbortDispatch(Seen(0, old(tasks), Ids(old(handles))), includeTerminal);
              tasks == s.tasks && Ids(handles) == s.tracked
    {
      AbortRefines(tasks, handles, includeTerminal);
      KeptInOrder(handles, includeTerminal);
      tasks, handles := Drain(handles, tasks, includeTerminal);
    }
  }
}
