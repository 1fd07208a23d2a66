/**
 The transport owner as the object its calls share: one method for each function of the
 source, which runs the block that a task of that function is about to run.
 */
module TransportBlocks {
  import opened Common
  import opened TransportOwner

  predicate InEmit(pc: Pc) {
    pc.EmitCheck? || pc.EmitClone? || pc.EmitSelect? || pc.EmitWriting?
  }

  predicate InConnect(pc: Pc) {
    pc.ConnectPublish? || pc.ConnectPong?
  }

  predicate InDisconnect(pc: Pc) {
    pc.DiscTake? || pc.DiscLock? || pc.DiscWriting?
  }

  class Socket {
    var present: bool
    var connected: bool
    var closing: bool
    var sendLock: Option<nat>
    var tasks: seq<Pc>
    ghost var log: seq<Event>

    constructor ()
      ensures Value() == Fresh()
    {
      present, connected, closing, sendLock, tasks, log := true, false, false, None, [], [];
    }

    ghost function Value(): State
      reads this
    {
      State(present, connected, closing, sendLock, tasks, log)
    }

    /** A call of `emit`, `connect` or `disconnect` begins. */
    method Call(entry: Pc) returns (t: nat)
      requires IsEntry(entry)
      modifies this
      ensures Value() == Apply(old(Value()), Spawn(entry)) && t == old(|tasks|)
    {
      t := |tasks|;
      tasks := tasks + [entry];
    }

    method Lock(t: nat, closeFrame: bool)
      requires t < |tasks| && sendLock.None?
      modifies this
      ensures Value() == BeginWrite(old(Value()), t, closeFrame)
    {
      sendLock := Some(t);
      log := log + [WriteBegin(t, closeFrame)];
      tasks := tasks[t := if closeFrame then DiscWriting else EmitWriting];
    }

    method Unlock(t: nat, pc: Pc)
      requires t < |tasks|
      modifies this
      ensures Value() == EndWrite(old(Value()), t, pc)
    {
      log := log + [WriteEnd(t)];
      sendLock := None;
      tasks := tasks[t := pc];
    }

    method Emit(t: nat, choice: Choice)
      requires t < |tasks| && InEmit(tasks[t])
      requires TransportOwner.Enabled(Value(), Poll(t, choice))
      modifies this
      ensures Value() == Apply(old(Value()), Poll(t, choice))
    {
      match tasks[t]
      case EmitCheck =>
        if !connected {
          tasks := tasks[t := EmitDone(false)];
        } else {
          tasks := tasks[t := EmitClone];
        }
      case EmitClone =>
        if !present {
          tasks := tasks[t := EmitDone(false)];
        } else {
          tasks := tasks[t := EmitSelect];
        }
      case EmitSelect =>
        if closing {
          tasks := tasks[t := EmitDone(false)];
        } else {
          Lock(t, false);
        }
      case EmitWriting =>
        Unlock(t, EmitDone(!closing && choice.Success?));
    }

    method Connect(t: nat, choice: Choice)
      requires t < |tasks| && InConnect(tasks[t])
      modifies this
      ensures Value() == Apply(old(Value()), Poll(t, choice))
    {
      if tasks[t].ConnectPublish? {
        if !present {
          tasks := tasks[t := EmitDone(false)];
          return;
        }
        connected := true;
        tasks := tasks[t := ConnectPong];
      } else {
        tasks := tasks[t := EmitCheck];
      }
    }

    method Disconnect(t: nat, choice: Choice)
      requires t < |tasks| && InDisconnect(tasks[t])
      requires TransportOwner.Enabled(Value(), Poll(t, choice))
      modifies this
      ensures Value() == Apply(old(Value()), Poll(t, choice))
    {
      match tasks[t]
      case DiscTake =>
        connected := false;
        closing := true;
        if !present {
          tasks := tasks[t := DiscDone(true)];
          return;
        }
        present := false;
        log := log + [Take(t)];
        log := log + [OnClose(t)];
        tasks := tasks[t := DiscLock];
      case DiscLock =>
        if sendLock.Some? {
          tasks := tasks[t := DiscDone(false)];
        } else {
          Lock(t, true);
        }
      case DiscWriting =>
        Unlock(t, DiscDone(choice.Success?));
    }

    method HandleClose()
      modifies this`connected, this`log
      ensures Value() == Apply(old(Value()), TransportOwner.HandleClose)
    {
      connected := false;
      log := log + [PeerClosed];
    }

    /** The future of a call is dropped: a lock it holds is released. */
    method Drop(t: nat)
      requires t < |tasks| && !IsOver(tasks[t])
      modifies this
      ensures Value() == Apply(old(Value()), Cancel(t))
    {
      if sendLock == Some(t) {
        Unlock(t, Cancelled);
      } else {
        tasks := tasks[t := Cancelled];
      }
    }
  }
}
