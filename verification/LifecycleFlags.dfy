/** The flags of the client's sockets over whole runs, and what opens a session. */
module LifecycleFlags {
  import opened Common
  import opened Lifecycle
  import opened LifecycleRuns
  import Fence = LifecycleFence
  import Trace = LifecycleTrace
  import Transport = TransportOwner

  /** Whether an action sets the flag of socket `g`, clears it, or leaves it alone. */
  function SwitchOf(s: State, a: Action, g: nat): Option<bool> {
    match a
    case ReaderStep(input) =>
      (match s.reader.pc
       case Stream(h) =>
         if h != g || g >= |s.socks| || !s.socks[g].open || !input.Packet? then None
         else (match input.kind
               case Connect => Some(true)
               case Disconnect => Some(false)
               case ConnectError => Some(false)
               case _ => None)
       case AwaitingEngine(_, call) =>
         if s.installed == g && CallOf(s, g, call) == Transport.EmitDone(true) then Some(true) else None
       case _ => None)
    case TeardownStep(i) =>
      if i >= |s.teardowns| then None
      else (match s.teardowns[i]
            case ClosingStream(h, _) => if h == g then Some(false) else None
            case AwaitingRetire(h, _, _) => if h == g then Some(false) else None
            case _ => None)
    case _ => None
  }

  lemma {:induction false} FlagKeptByStream(s: State, h: nat, input: Input, g: nat)
    requires s.reader.pc == Stream(h) && IsSocket(s, h) && g < |s.socks|
    ensures StreamBlock(s, h, input).socks[g].connected
         == match SwitchOf(s, ReaderStep(input), g) { case Some(on) => on case None => s.socks[g].connected }
  {
    hide AbortDispatch;
    match input
    case Packet(kind, _) => match kind { case Event => case Ack => case _ => }
    case _ =>
  }

  lemma {:induction false} FlagKeptByReader(c: Config, s: State, input: Input, g: nat)
    requires WellPlaced(s) && g < |s.socks|
    ensures g < |ReaderBlock(c, s, input).socks|
    ensures ReaderBlock(c, s, input).socks[g].connected
         == match SwitchOf(s, ReaderStep(input), g) { case Some(on) => on case None => s.socks[g].connected }
  {
    hide SpawnDispatch, AbortDispatch, Transport.Apply, Transport.Fresh;
    if s.reader.pc.Stream? {
      hide StreamBlock;
      FlagKeptByStream(s, s.reader.pc.g, input, g);
    } else {
      hide CallOf, MaySend;
      match s.reader.pc
      case GotPacket(h, kind, ours) => match kind { case Connect => case Disconnect => case _ => }
      case Deciding => match s.reason { case Unknown => case Manual => case Server => }
      case _ =>
    }
  }

  lemma {:induction false} FlagKeptByTeardown(c: Config, s: State, i: nat, g: nat)
    requires Enabled(s, TeardownStep(i)) && g < |s.socks|
    ensures g < |TeardownBlock(s, i).socks|
    ensures TeardownBlock(s, i).socks[g].connected
         == match SwitchOf(s, TeardownStep(i), g) { case Some(on) => on case None => s.socks[g].connected }
  {
    hide AbortDispatch, Transport.Apply;
    match s.teardowns[i]
    case AwaitingSend(h, call) =>
    case _ =>
  }

  lemma {:induction false} FlagStep(c: Config, s: State, a: Action, g: nat)
    requires Enabled(s, a) && g < |s.socks|
    ensures g < |Apply(c, s, a).socks|
    ensures Apply(c, s, a).socks[g].connected
         == match SwitchOf(s, a, g) { case Some(on) => on case None => s.socks[g].connected }
  {
    hide ReaderBlock, TeardownBlock, AbortDispatch, Transport.Apply;
    match a
    case ReaderStep(input) => FlagKeptByReader(c, s, input, g);
    case TeardownStep(i) => FlagKeptByTeardown(c, s, i, g);
    case _ =>
  }

  /** Nothing switches the flag of `g` between two points of a run. */
  ghost predicate Unswitched(c: Config, run: seq<Action>, g: nat, from: nat, until: nat)
    requires IsRun(c, run) && until <= |run|
  {
    forall k: nat :: from <= k < until ==> SwitchOf(StateAt(c, run, k), run[k], g).None?
  }

  lemma {:induction false} FlagStays(c: Config, run: seq<Action>, g: nat, from: nat, until: nat)
    requires IsRun(c, run) && from <= until <= |run| && g < |StateAt(c, run, from).socks|
    requires Unswitched(c, run, g, from, until)
    ensures g < |StateAt(c, run, until).socks|
    ensures StateAt(c, run, until).socks[g].connected == StateAt(c, run, from).socks[g].connected
    decreases until
  {
    hide StateAt, Apply, Enabled, SwitchOf;
    if from < until {
      FlagStays(c, run, g, from, until - 1);
      NextState(c, run, until - 1);
      FlagStep(c, StateAt(c, run, until - 1), run[until - 1], g);
    }
  }

  /**
   The flag of a socket is what the last action that switches it says: a CONNECT read from its
   stream, whatever its namespace, or its engine's connect ending well sets it; a DISCONNECT or
   CONNECT_ERROR read from it, or a teardown of it, clears it.
   */
  lemma {:induction false} LastSwitchDecides(c: Config, run: seq<Action>, g: nat, j: nat, n: nat)
    requires IsRun(c, run) && j < n <= |run| && g < |StateAt(c, run, j).socks|
    requires SwitchOf(StateAt(c, run, j), run[j], g).Some? && Unswitched(c, run, g, j + 1, n)
    ensures g < |StateAt(c, run, n).socks|
    ensures StateAt(c, run, n).socks[g].connected == SwitchOf(StateAt(c, run, j), run[j], g).value
  {
    hide StateAt, Apply, Enabled, SwitchOf;
    NextState(c, run, j);
    FlagStep(c, StateAt(c, run, j), run[j], g);
    FlagStays(c, run, g, j + 1, n);
  }

  /** A new socket starts with its flag cleared and a fresh engine. */
  lemma {:induction false} StartsCleared(c: Config, s: State, a: Action, g: nat)
    requires Enabled(s, a) && |s.socks| <= g < |Apply(c, s, a).socks|
    ensures a.ReaderStep? && s.reader.pc.Installing?
    ensures Apply(c, s, a).socks[g] == Sock(Transport.Fresh(), false, true)
  {
    hide SpawnDispatch, AbortDispatch, Transport.Apply, Transport.Fresh, MaySend, CallOf, ReaderBlock;
    match a
    case ReaderStep(input) => NewByReader(c, s, input, g);
    case TeardownStep(i) => Fence.TeardownBlockFrame(s, i);
    case _ =>
  }

  lemma {:induction false} NewByReader(c: Config, s: State, input: Input, g: nat)
    requires WellPlaced(s) && |s.socks| <= g < |ReaderBlock(c, s, input).socks|
    ensures s.reader.pc.Installing? && ReaderBlock(c, s, input).socks[g] == Sock(Transport.Fresh(), false, true)
  {
    hide SpawnDispatch, AbortDispatch, Transport.Apply, Transport.Fresh, MaySend, CallOf;
    match s.reader.pc
    case Stream(h) => match input { case StreamError => case Packet(_, _) => case _ => }
    case GotPacket(h, kind, ours) => match kind { case Connect => case Disconnect => case _ => }
    case Deciding => match s.reason { case Unknown => case Manual => case Server => }
    case _ =>
  }

  // ----- installed sockets and their streams -----

  /** The installed socket is the newest one. */
  lemma {:induction false} NewestStep(c: Config, s: State, a: Action)
    requires Enabled(s, a) && s.installed + 1 == |s.socks|
    ensures Apply(c, s, a).installed + 1 == |Apply(c, s, a).socks|
    ensures |s.socks| <= |Apply(c, s, a).socks| <= |s.socks| + 1
  {
    hide TeardownBlock, SpawnDispatch, AbortDispatch, Transport.Apply;
    match a
    case ReaderStep(input) => NewestAfterReader(c, s, input);
    case TeardownStep(i) => Fence.TeardownBlockFrame(s, i);
    case _ =>
  }

  lemma {:induction false} NewestAfterReader(c: Config, s: State, input: Input)
    requires WellPlaced(s) && s.installed + 1 == |s.socks|
    ensures var s' := ReaderBlock(c, s, input);
            && s'.installed + 1 == |s'.socks|
            && |s'.socks| == |s.socks| + if s.reader.pc.Installing? then 1 else 0
  {
    hide SpawnDispatch, AbortDispatch, Transport.Apply, Transport.Fresh, MaySend, CallOf;
    match s.reader.pc
    case Stream(g) => match input { case StreamError => case Packet(_, _) => case _ => }
    case GotPacket(g, kind, ours) => match kind { case Connect => case Disconnect => case _ => }
    case Deciding => match s.reason { case Unknown => case Manual => case Server => }
    case _ =>
  }

  /** The action swaps the stream of `g` for an empty one. */
  predicate ClosesStream(s: State, a: Action, g: nat) {
    a.TeardownStep? && a.i < |s.teardowns| && s.teardowns[a.i].ClosingStream? && s.teardowns[a.i].g == g
  }

  lemma {:induction false} OpenStep(c: Config, s: State, a: Action, g: nat)
    requires Enabled(s, a) && g < |Apply(c, s, a).socks|
    ensures Apply(c, s, a).socks[g].open <==> !ClosesStream(s, a, g) && (g < |s.socks| ==> s.socks[g].open)
  {
    hide SpawnDispatch, AbortDispatch, Transport.Apply, ReaderBlock;
    match a
    case ReaderStep(input) => OpenKeptByReader(c, s, input, g);
    case TeardownStep(i) => match s.teardowns[i] { case AwaitingSend(h, call) => case _ => }
    case _ =>
  }

  lemma {:induction false} OpenKeptByReader(c: Config, s: State, input: Input, g: nat)
    requires WellPlaced(s) && g < |ReaderBlock(c, s, input).socks|
    ensures ReaderBlock(c, s, input).socks[g].open <==> (g < |s.socks| ==> s.socks[g].open)
  {
    hide SpawnDispatch, AbortDispatch, Transport.Apply, Transport.Fresh, MaySend, CallOf;
    match s.reader.pc
    case Stream(h) => match input { case StreamError => case Packet(_, _) => case _ => }
    case GotPacket(h, kind, ours) => match kind { case Connect => case Disconnect => case _ => }
    case Deciding => match s.reason { case Unknown => case Manual => case Server => }
    case _ =>
  }

  /** The installed socket is always the newest, and a stream is open until a teardown closes it. */
  lemma {:induction false} OpenUntilTornDown(c: Config, run: seq<Action>, n: nat)
    requires IsRun(c, run) && n <= |run|
    ensures StateAt(c, run, n).installed + 1 == |StateAt(c, run, n).socks|
    ensures forall g: nat :: g < |StateAt(c, run, n).socks| ==>
              (StateAt(c, run, n).socks[g].open <==> forall j: nat :: j < n ==> !ClosesStream(StateAt(c, run, j), run[j], g))
    decreases n
  {
    hide StateAt, Apply, Enabled, ClosesStream;
    if n == 0 {
      Ends(c, run);
    } else {
      var s, s' := StateAt(c, run, n - 1), StateAt(c, run, n);
      NextState(c, run, n - 1);
      OpenUntilTornDown(c, run, n - 1);
      NewestStep(c, s, run[n - 1]);
      forall g: nat | g < |s'.socks|
        ensures s'.socks[g].open <==> forall j: nat :: j < n ==> !ClosesStream(StateAt(c, run, j), run[j], g)
      {
        OpenStep(c, s, run[n - 1], g);
        if g >= |s.socks| {
          forall j: nat | j < n ensures !ClosesStream(StateAt(c, run, j), run[j], g) {
            NotYetThere(c, run, j, n - 1, g);
          }
        }
      }
    }
  }

  lemma {:induction false} NotYetThere(c: Config, run: seq<Action>, j: nat, n: nat, g: nat)
    requires IsRun(c, run) && j <= n < |run| && g >= |StateAt(c, run, n).socks|
    ensures g >= |StateAt(c, run, j).socks| && !ClosesStream(StateAt(c, run, j), run[j], g)
    decreases n
  {
    hide StateAt, Apply;
    if j < n {
      NextState(c, run, n - 1);
      SocksGrow(c, StateAt(c, run, n - 1), run[n - 1]);
      NotYetThere(c, run, j, n - 1, g);
    }
    NextState(c, run, j);
  }

  lemma {:induction false} SocksGrow(c: Config, s: State, a: Action)
    requires Enabled(s, a)
    ensures |s.socks| <= |Apply(c, s, a).socks|
  {
    hide ReaderBlock, AbortDispatch;
    match a
    case TeardownStep(i) => Fence.TeardownBlockFrame(s, i);
    case _ =>
  }
}
