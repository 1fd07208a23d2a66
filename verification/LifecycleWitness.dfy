/** Runs in which a session gets no close notification, or more than one. */
module LifecycleWitness {
  import opened Common
  import opened Lifecycle
  import opened LifecycleTrace
  import opened LifecycleCloses
  import Progress = LifecycleProgress
  import Transport = TransportOwner

  predicate Leads(c: Config, s: State, run: seq<Action>, s': State) {
    Exec(c, s, run) == Some(s')
  }

  lemma {:induction false} Then(c: Config, s: State, first: seq<Action>, mid: State, second: seq<Action>, end: State)
    requires Leads(c, s, first, mid) && Leads(c, mid, second, end)
    ensures Leads(c, s, first + second, end)
  {
    hide Exec;
    Progress.ExecChain(c, s, first, second);
  }

  lemma {:induction false} Step(c: Config, s: State, a: Action)
    requires Enabled(s, a)
    ensures Leads(c, s, [a], Apply(c, s, a))
  {
    hide Apply, Enabled;
    assert [a][1..] == [];
    assert Exec(c, Apply(c, s, a), []) == Some(Apply(c, s, a));
  }

  const NEXT: Action := ReaderStep(Success)

  /** One reader block, named by where it leads. */
  lemma {:induction false} ReaderLeads(c: Config, s: State, input: Input, s': State)
    requires WellPlaced(s) && ReaderReady(s) && s' == ReaderBlock(c, s, input)
    ensures Leads(c, s, [ReaderStep(input)], s')
  {
    hide ReaderBlock, ReaderReady, WellPlaced;
    Step(c, s, ReaderStep(input));
  }

  lemma {:induction false} RunOf(c: Config, run: seq<Action>, s: State)
    requires Leads(c, Start(), run, s)
    ensures Exec(c, Start(), run) == Some(s)
  {
    hide Exec;
  }

  // ----- exhausted rounds -----

  /** Session one is the last, nobody has disconnected, and the reason is unknown. */
  predicate Idle(s: State) {
    Undisturbed(s) && s.reason.Unknown? && s.epoch == 1 && s.installed < |s.socks|
  }

  /** One attempt that fails, within the limit. */
  lemma {:induction false} AttemptFails(c: Config, s: State, n: nat) returns (run: seq<Action>, s': State)
    requires Idle(s) && s.reader.pc == Attempt(n) && c.maxAttempts.Some? && n < c.maxAttempts.value
    ensures Leads(c, s, run, s') && s' == At(Mark1(s, AttemptFailed), Attempt(n + 1))
  {
    hide StreamBlock, PacketBlock, ErrorBlock, ConnectBlock, DisconnectBlock, DecideBlock;
    hide InstallBlock, EngineResultBlock, SendOpenBlock, OpenResultBlock;
    var s1 := At(s, ReconnectCallback(n + 1));
    var s2 := At(s, Creating(n + 1));
    var s3 := At(Mark1(s, AttemptFailed), Backoff(n + 1));
    s' := At(s3, Attempt(n + 1));
    ReaderLeads(c, s, Success, s1);
    ReaderLeads(c, s1, Success, s2);
    ReaderLeads(c, s2, Failure, s3);
    ReaderLeads(c, s3, Success, s');
    hide Leads, ReaderBlock;
    Then(c, s, [NEXT], s1, [NEXT], s2);
    Then(c, s, [NEXT] + [NEXT], s2, [ReaderStep(Failure)], s3);
    run := [NEXT] + [NEXT] + [ReaderStep(Failure)] + [NEXT];
    Then(c, s, [NEXT] + [NEXT] + [ReaderStep(Failure)], s3, [NEXT], s');
  }

  /** From the head of a round, failing attempts lead back to the outer loop. */
  lemma {:induction false} RoundFails(c: Config, s: State, n: nat) returns (run: seq<Action>, s': State)
    requires Idle(s) && s.reader.pc == Attempt(n) && c.maxAttempts.Some? && n <= c.maxAttempts.value
    ensures Leads(c, s, run, s') && Idle(s') && s'.reader.pc.Top?
    ensures Closes(s'.trace, 1, TransportClose) == Closes(s.trace, 1, TransportClose)
    decreases c.maxAttempts.value - n
  {
    hide Leads, Closes;
    if n == c.maxAttempts.value {
      run, s' := [NEXT], At(Mark1(s, RoundExhausted), Top);
      ReaderLeads(c, s, Success, s');
      CountsAfterMark(s.trace, RoundExhausted, 1);
    } else {
      hide ReaderBlock;
      var first, s1 := AttemptFails(c, s, n);
      CountsAfterMark(s.trace, AttemptFailed, 1);
      var rest;
      rest, s' := RoundFails(c, s1, n + 1);
      run := first + rest;
      Then(c, s, first, s1, rest, s');
    }
  }

  /** The stream ends, and what the decision does with its reason. */
  lemma {:induction false} StreamEnds(c: Config, s: State) returns (run: seq<Action>, s': State)
    requires Undisturbed(s) && s.reader.pc.Top? && s.installed < |s.socks| && !s.reason.Manual?
    ensures Leads(c, s, run, s') && Undisturbed(s') && s'.reason == s.reason && s'.epoch == s.epoch
    ensures s'.installed == s.installed && s'.socks == s.socks
    ensures s'.trace == s.trace + (if s.reason.Unknown? then [StreamEnded, Closed(s.epoch, TransportClose), Decided]
                                   else [StreamEnded, Decided])
    ensures s'.reader.pc == if (if s.reason.Unknown? then c.reconnect else c.reconnectOnDisconnect)
                            then Attempt(0) else Over
  {
    hide SpawnDispatch, AbortDispatch;
    var s1 := At(s, Stream(s.installed));
    var s2 := EndStream(s1);
    s' := DecideBlock(c, s2);
    ReaderLeads(c, s, Success, s1);
    ReaderLeads(c, s1, EndOfStream, s2);
    ReaderLeads(c, s2, Success, s');
    run := [NEXT] + [ReaderStep(EndOfStream)] + [NEXT];
    hide Leads;
    Then(c, s, [NEXT], s1, [ReaderStep(EndOfStream)], s2);
    Then(c, s, [NEXT] + [ReaderStep(EndOfStream)], s2, [NEXT], s');
  }

  lemma {:induction false} EndIsCounted(t: seq<Mark>)
    ensures Closes(t + [StreamEnded, Closed(1, TransportClose), Decided], 1, TransportClose)
         == Closes(t, 1, TransportClose) + 1
  {
    var closed := Closed(1, TransportClose);
    assert t + [StreamEnded, closed, Decided] == t + [StreamEnded] + [closed] + [Decided];
    CountsAfterMark(t, StreamEnded, 1);
    CountsAfterMark(t + [StreamEnded], closed, 1);
    CountsAfterMark(t + [StreamEnded] + [closed], Decided, 1);
  }

  lemma {:induction false} AfterRounds(c: Config, n: nat) returns (run: seq<Action>, s: State)
    requires c.reconnect && c.maxAttempts.Some?
    ensures Leads(c, Start(), run, s) && Idle(s) && s.reader.pc == Attempt(0)
    ensures Closes(s.trace, 1, TransportClose) == n + 1
    decreases n
  {
    var before: seq<Action>, top: State;
    if n == 0 {
      before, top := [], Start();
      assert Leads(c, Start(), [], Start());
      CountsAfterMark([], Connected, 1);
      assert [] + [Connected] == top.trace;
    } else {
      var first, s1 := AfterRounds(c, n - 1);
      var round;
      round, top := RoundFails(c, s1, 0);
      before := first + round;
      Then(c, Start(), first, s1, round, top);
    }
    hide Leads, Closes;
    var ends;
    ends, s := StreamEnds(c, top);
    EndIsCounted(top.trace);
    run := before + ends;
    Then(c, Start(), before, top, ends, s);
  }

  /**
   With any limit of attempts, a session can be closed any number of times: each exhausted
   round re-enters the outer loop on the dead stream, which is reported once more.
   */
  lemma {:induction false} EveryRoundClosesAgain(c: Config, n: nat)
    requires c.reconnect && c.maxAttempts.Some?
    ensures exists run ::
              && Exec(c, Start(), run).Some? && Undisturbed(Exec(c, Start(), run).value)
              && CloseCount(Exec(c, Start(), run).value, 1, TransportClose) == n + 1
  {
    var run, s := AfterRounds(c, n);
    hide Exec, Closes, CloseCount;
    CloseCounts(c, run, 1, TransportClose);
    assert Exec(c, Start(), run) == Some(s);
  }

  // ----- a session that nobody reports -----

  function EngineRun(g: nat, call: nat, n: nat): seq<Action> {
    if n == 0 then [] else [EngineStep(g, Transport.Poll(call, Transport.Success))] + EngineRun(g, call, n - 1)
  }

  function Polls(call: nat, n: nat): seq<Transport.Action> {
    if n == 0 then [] else [Transport.Poll(call, Transport.Success)] + Polls(call, n - 1)
  }

  /** Polling a call of one socket moves that socket's owner only. */
  lemma {:induction false} EngineLeads(c: Config, s: State, g: nat, call: nat, n: nat)
    requires g < |s.socks| && Transport.Exec(s.socks[g].engine, Polls(call, n)).Some?
    ensures var e := Transport.Exec(s.socks[g].engine, Polls(call, n)).value;
            Leads(c, s, EngineRun(g, call, n), SetSock(s, g, s.socks[g].(engine := e)))
    decreases n
  {
    var engine := s.socks[g].engine;
    if n == 0 {
      assert s.socks[g := s.socks[g].(engine := engine)] == s.socks;
    } else {
      var a := Transport.Poll(call, Transport.Success);
      assert Polls(call, n)[1..] == Polls(call, n - 1);
      var s1 := SetSock(s, g, s.socks[g].(engine := Transport.Apply(engine, a)));
      hide Transport.Apply, Transport.Enabled;
      Step(c, s, EngineStep(g, a));
      EngineLeads(c, s1, g, call, n - 1);
      var e := Transport.Exec(s1.socks[g].engine, Polls(call, n - 1)).value;
      assert SetSock(s1, g, s1.socks[g].(engine := e)) == SetSock(s, g, s.socks[g].(engine := e));
      Then(c, s, [EngineStep(g, a)], s1, EngineRun(g, call, n - 1), SetSock(s, g, s.socks[g].(engine := e)));
    }
  }

  lemma {:induction false} PollOnce(e: Transport.State, call: nat, e': Transport.State, n: nat)
    requires var a := Transport.Poll(call, Transport.Success);
             Transport.Enabled(e, a) && e' == Transport.Apply(e, a)
    ensures Transport.Exec(e, Polls(call, n + 1)) == Transport.Exec(e', Polls(call, n))
  {
    assert Polls(call, n + 1)[1..] == Polls(call, n);
  }

  /** An emit on an open, idle owner is sent. */
  lemma {:induction false} EmitIsSent(e: Transport.State, call: nat)
    requires call < |e.tasks| && e.tasks[call].EmitCheck?
    requires e.present && e.connected && !e.closing && e.sendLock.None?
    ensures var r := Transport.Exec(e, Polls(call, 4));
            && r.Some? && r.value.tasks == e.tasks[call := Transport.EmitDone(true)]
            && r.value == e.(tasks := r.value.tasks, log := r.value.log)
  {
    var e1 := Transport.Goto(e, call, Transport.EmitClone);
    var e2 := Transport.Goto(e, call, Transport.EmitSelect);
    var e3 := Transport.BeginWrite(e2, call, false);
    var e4 := Transport.EndWrite(e3, call, Transport.EmitDone(true));
    assert e1.tasks[call := Transport.EmitSelect] == e2.tasks;
    PollOnce(e, call, e1, 3);
    PollOnce(e1, call, e2, 2);
    PollOnce(e2, call, e3, 1);
    PollOnce(e3, call, e4, 0);
    assert Transport.Exec(e4, Polls(call, 0)) == Some(e4);
    assert e4.tasks == e.tasks[call := Transport.EmitDone(true)];
  }

  /** Connecting a new owner ends with its first pong sent. */
  lemma {:induction false} ConnectIsSent(e: Transport.State)
    requires e == Transport.Fresh().(tasks := [Transport.ConnectPublish])
    ensures var r := Transport.Exec(e, Polls(0, 6));
            && r.Some? && r.value.tasks == [Transport.EmitDone(true)]
            && r.value == e.(connected := true, tasks := r.value.tasks, log := r.value.log)
  {
    var e1 := e.(connected := true, tasks := [Transport.ConnectPong]);
    var e2 := e.(connected := true, tasks := [Transport.EmitCheck]);
    PollOnce(e, 0, e1, 5);
    PollOnce(e1, 0, e2, 4);
    hide Transport.Exec;
    EmitIsSent(e2, 0);
  }

  /** A first session that the server connects and then ends. */
  lemma {:induction false} ServerEndsSession(c: Config) returns (run: seq<Action>, s: State)
    requires c.reconnectOnDisconnect
    ensures Leads(c, Start(), run, s) && Undisturbed(s) && s.reason.Server? && s.epoch == 1
    ensures s.reader.pc == Attempt(0) && s.installed == 0 && |s.socks| == 1
    ensures s.trace == [Connected, ConnectSeen, DisconnectSeen, Closed(1, IoServerDisconnect), StreamEnded, Decided]
  {
    hide SpawnDispatch, AbortDispatch;
    var s0 := Start();
    var s1 := At(s0, Stream(0));
    var s2 := YieldPacket(s1, 0, Connect, true);
    var s3 := At(s2, SettingUnknown(0));
    var s4 := ConnectBlock(s3, 0);
    ReaderLeads(c, s0, Success, s1);
    ReaderLeads(c, s1, Packet(Connect, true), s2);
    ReaderLeads(c, s2, Success, s3);
    ReaderLeads(c, s3, Success, s4);
    var s5 := YieldPacket(s4, 0, Disconnect, true);
    var s6 := At(s5, SettingServer(0));
    var s7 := DisconnectBlock(s6, 0);
    ReaderLeads(c, s4, Packet(Disconnect, true), s5);
    ReaderLeads(c, s5, Success, s6);
    ReaderLeads(c, s6, Success, s7);
    assert s7.trace == [Connected, ConnectSeen, DisconnectSeen, Closed(1, IoServerDisconnect)];
    var s8 := EndStream(s7);
    s := DecideBlock(c, s8);
    ReaderLeads(c, s7, EndOfStream, s8);
    ReaderLeads(c, s8, Success, s);
    hide Leads;
    var first := [NEXT] + [ReaderStep(Packet(Connect, true))] + [NEXT] + [NEXT];
    Then(c, s0, [NEXT], s1, [ReaderStep(Packet(Connect, true))], s2);
    Then(c, s0, [NEXT] + [ReaderStep(Packet(Connect, true))], s2, [NEXT], s3);
    Then(c, s0, [NEXT] + [ReaderStep(Packet(Connect, true))] + [NEXT], s3, [NEXT], s4);
    Then(c, s0, first, s4, [ReaderStep(Packet(Disconnect, true))], s5);
    Then(c, s0, first + [ReaderStep(Packet(Disconnect, true))], s5, [NEXT], s6);
    Then(c, s0, first + [ReaderStep(Packet(Disconnect, true))] + [NEXT], s6, [NEXT], s7);
    run := first + [ReaderStep(Packet(Disconnect, true))] + [NEXT] + [NEXT];
    Then(c, s0, run, s7, [ReaderStep(EndOfStream)], s8);
    Then(c, s0, run + [ReaderStep(EndOfStream)], s8, [NEXT], s);
    run := run + [ReaderStep(EndOfStream)] + [NEXT];
  }

  lemma {:induction false} AttemptCreates(c: Config, s: State) returns (run: seq<Action>)
    requires c.maxAttempts.None? && s.reader.pc == Attempt(0) && s.installed < |s.socks|
    ensures Leads(c, s, run, At(s, Installing(0)))
  {
    hide StreamBlock, PacketBlock, ErrorBlock, ConnectBlock, DisconnectBlock, DecideBlock;
    hide InstallBlock, StartCall, EngineResultBlock, SendOpenBlock, OpenResultBlock;
    var s1 := At(s, ReconnectCallback(0));
    var s2 := At(s, Creating(0));
    ReaderLeads(c, s, Success, s1);
    ReaderLeads(c, s1, Success, s2);
    ReaderLeads(c, s2, Success, At(s, Installing(0)));
    hide Leads, ReaderBlock;
    Then(c, s, [NEXT], s1, [NEXT], s2);
    run := [NEXT] + [NEXT] + [NEXT];
    Then(c, s, [NEXT] + [NEXT], s2, [NEXT], At(s, Installing(0)));
  }

  lemma {:induction false} SocketInstalls(c: Config, s: State) returns (s': State)
    requires s.reader.pc == Installing(0) && s.installed < |s.socks|
    ensures Leads(c, s, [NEXT] + [NEXT], s')
    ensures s' == s.(reader := s.reader.(pc := AwaitingEngine(0, 0)), socks := s'.socks, installed := |s.socks|)
    ensures |s'.socks| == |s.socks| + 1
    ensures s'.socks[|s.socks|].engine == Transport.Fresh().(tasks := [Transport.ConnectPublish])
  {
    hide StreamBlock, PacketBlock, ErrorBlock, ConnectBlock, DisconnectBlock, DecideBlock;
    hide AttemptBlock, EngineResultBlock, SendOpenBlock, OpenResultBlock;
    var s1 := InstallBlock(s, 0);
    s' := At(StartCall(s1, |s.socks|, Transport.ConnectPublish), AwaitingEngine(0, 0));
    ReaderLeads(c, s, Success, s1);
    ReaderLeads(c, s1, Success, s');
    hide Leads, ReaderBlock;
    Then(c, s, [NEXT], s1, [NEXT], s');
  }

  /** An attempt whose transport works begins the next session. */
  lemma {:induction false} AttemptSucceeds(c: Config, s: State) returns (run: seq<Action>, s': State)
    requires c.maxAttempts.None? && Undisturbed(s) && s.reader.pc == Attempt(0) && s.installed < |s.socks|
    ensures Leads(c, s, run, s') && Undisturbed(s') && s'.reader.pc.Top? && s'.reason == s.reason
    ensures s'.epoch == s.epoch + 1 && s'.installed < |s'.socks| && s'.trace == s.trace + [Connected]
  {
    hide Leads, Transport.Exec;
    var g := |s.socks|;
    var before := AttemptCreates(c, s);
    var s5 := SocketInstalls(c, At(s, Installing(0)));
    var first := before + ([NEXT] + [NEXT]);
    Then(c, s, before, At(s, Installing(0)), [NEXT] + [NEXT], s5);
    var e5 := s5.socks[g].engine;
    ConnectIsSent(e5);
    EngineLeads(c, s5, g, 0, 6);
    var s6 := SetSock(s5, g, s5.socks[g].(engine := Transport.Exec(e5, Polls(0, 6)).value));
    var more;
    more, s' := OpenIsSent(c, s6);
    Then(c, s, first, s5, EngineRun(g, 0, 6), s6);
    run := first + EngineRun(g, 0, 6) + more;
    Then(c, s, first + EngineRun(g, 0, 6), s6, more, s');
  }

  lemma {:induction false} OpenBegins(c: Config, s: State) returns (s': State)
    requires s.reader.pc == AwaitingEngine(0, 0) && s.installed < |s.socks|
    requires var e := s.socks[s.installed].engine; e.tasks == [Transport.EmitDone(true)] && e.connected
    ensures Leads(c, s, [NEXT] + [NEXT], s')
    ensures s' == s.(reader := s.reader.(pc := AwaitingOpen(0, 1)), socks := s'.socks) && |s'.socks| == |s.socks|
    ensures var e := s.socks[s.installed].engine;
            s'.socks[s.installed].engine == e.(tasks := [Transport.EmitDone(true), Transport.EmitCheck])
  {
    hide StreamBlock, PacketBlock, ErrorBlock, ConnectBlock, DisconnectBlock, DecideBlock;
    hide AttemptBlock, InstallBlock, OpenResultBlock;
    var g := s.installed;
    var s1 := At(SetSock(s, g, s.socks[g].(connected := true)), SendingOpen(0));
    s' := At(StartCall(s1, g, Transport.EmitCheck), AwaitingOpen(0, 1));
    ReaderLeads(c, s, Success, s1);
    ReaderLeads(c, s1, Success, s');
    hide Leads, ReaderBlock;
    Then(c, s, [NEXT], s1, [NEXT], s');
  }

  lemma {:induction false} OpenEnds(c: Config, s: State)
    requires s.reader.pc == AwaitingOpen(0, 1) && s.installed < |s.socks|
    requires s.socks[s.installed].engine.tasks == [Transport.EmitDone(true), Transport.EmitDone(true)]
    ensures Leads(c, s, [NEXT], At(Mark1(s.(epoch := s.epoch + 1), Connected), Top))
  {
    hide StreamBlock, PacketBlock, ErrorBlock, ConnectBlock, DisconnectBlock, DecideBlock;
    hide AttemptBlock, InstallBlock, EngineResultBlock, SendOpenBlock, StartCall;
    ReaderLeads(c, s, Success, At(Mark1(s.(epoch := s.epoch + 1), Connected), Top));
  }

  /** A connected engine lets the opening packet through. */
  lemma {:induction false} OpenIsSent(c: Config, s: State) returns (run: seq<Action>, s': State)
    requires Undisturbed(s) && s.reader.pc == AwaitingEngine(0, 0) && s.installed < |s.socks|
    requires var e := s.socks[s.installed].engine;
             e.tasks == [Transport.EmitDone(true)] && e.present && e.connected && !e.closing && e.sendLock.None?
    ensures Leads(c, s, run, s') && Undisturbed(s') && s'.reader.pc.Top? && s'.reason == s.reason
    ensures s'.epoch == s.epoch + 1 && s'.installed < |s'.socks| && s'.trace == s.trace + [Connected]
  {
    hide Leads, Transport.Exec, EngineRun;
    var g := s.installed;
    var s2 := OpenBegins(c, s);
    var e2 := s2.socks[g].engine;
    EmitIsSent(e2, 1);
    EngineLeads(c, s2, g, 1, 4);
    var s3 := SetSock(s2, g, s2.socks[g].(engine := Transport.Exec(e2, Polls(1, 4)).value));
    OpenEnds(c, s3);
    s' := At(Mark1(s3.(epoch := s3.epoch + 1), Connected), Top);
    Then(c, s, [NEXT] + [NEXT], s2, EngineRun(g, 1, 4), s3);
    run := [NEXT] + [NEXT] + EngineRun(g, 1, 4) + [NEXT];
    Then(c, s, [NEXT] + [NEXT] + EngineRun(g, 1, 4), s3, [NEXT], s');
  }

  const SERVED: seq<Mark> :=
    [Connected] + [ConnectSeen] + [DisconnectSeen] + [Closed(1, IoServerDisconnect)] + [StreamEnded] + [Decided]

  lemma {:induction false} ServedTrace()
    ensures Sessions(SERVED) == 1 && LastReason(SERVED).Server?
    ensures Packets(SERVED, 1) == [ConnectSeen, DisconnectSeen] && Packets(SERVED, 2) == []
  {
    assert Packets([], 1) == [] && Packets([], 2) == [] && Sessions([]) == 0;
    hide Sessions, Packets, Inherited, LastReason;
    var t1 := [Connected];
    assert [] + [Connected] == t1;
    Before([], Connected);
    Before(t1, ConnectSeen);
    var t3 := t1 + [ConnectSeen] + [DisconnectSeen];
    Before(t1 + [ConnectSeen], DisconnectSeen);
    Before(t3, Closed(1, IoServerDisconnect));
    Before(t3 + [Closed(1, IoServerDisconnect)], StreamEnded);
    Before(t3 + [Closed(1, IoServerDisconnect)] + [StreamEnded], Decided);
  }

  /** The history of a session cut off after one that the server ended. */
  lemma {:induction false} StaleTrace(t: seq<Mark>)
    requires t == [Connected, ConnectSeen, DisconnectSeen, Closed(1, IoServerDisconnect), StreamEnded, Decided,
                   Connected, StreamEnded, Decided]
    ensures Sessions(t) == 2 && Packets(t, 1) == [ConnectSeen, DisconnectSeen]
    ensures Packets(t, 2) == [] && Inherited(t, 2).Server? && RoundExhausted !in t
  {
    ServedTrace();
    assert t == SERVED + [Connected] + [StreamEnded] + [Decided];
    hide Sessions, Packets, Inherited, LastReason, SERVED;
    Before(SERVED, Connected);
    Before(SERVED + [Connected], StreamEnded);
    Before(SERVED + [Connected] + [StreamEnded], Decided);
  }

  /** One more mark, for the first two sessions. */
  lemma {:induction false} Before(t: seq<Mark>, m: Mark)
    ensures Sessions(t + [m]) == Sessions(t) + if m.Connected? then 1 else 0
    ensures LastReason(t + [m])
         == if m.ConnectSeen? then Unknown else if m.DisconnectSeen? then Server else LastReason(t)
    ensures Packets(t + [m], 1) == Packets(t, 1) + if IsPacket(m) && Sessions(t) == 1 then [m] else []
    ensures Packets(t + [m], 2) == Packets(t, 2) + if IsPacket(m) && Sessions(t) == 2 then [m] else []
    ensures Inherited(t + [m], 2) == if m.Connected? && Sessions(t) == 1 then LastReason(t) else Inherited(t, 2)
  {
    AfterMark(t, m);
    RoundsAfterMark(t, m, 2);
    assert (t + [m])[..|t|] == t;
  }

  /**
   A session that nobody reports: the server connects session one and then disconnects it,
   the client reconnects, and the stream of session two ends before its CONNECT is handled.
   The reason is still the server's, so its end spawns no notification.
   */
  lemma {:induction false} StaleSessionClosesNothing(c: Config)
    requires c.reconnectOnDisconnect && c.maxAttempts.None?
    ensures exists run ::
              && Exec(c, Start(), run).Some? && Undisturbed(Exec(c, Start(), run).value)
              && Orderly(Packets(Exec(c, Start(), run).value.trace, 1))
              && Orderly(Packets(Exec(c, Start(), run).value.trace, 2))
              && HasEnded(Exec(c, Start(), run).value, 2)
              && AllCloses(Exec(c, Start(), run).value, 2) == 0
  {
    hide Exec, Leads, AllCloses, Packets, Inherited, Sessions, Exhausted;
    var first, s1 := ServerEndsSession(c);
    var second, s2 := AttemptSucceeds(c, s1);
    var third, s := StreamEnds(c, s2);
    var run := first + second + third;
    Then(c, Start(), first, s1, second, s2);
    Then(c, Start(), first + second, s2, third, s);
    RunOf(c, run, s);
    StaleTrace(s.trace);
    assert HasEnded(s, 2);
    hide HasEnded;
    NoneExhausted(s.trace, 2);
    ExactlyOneClose(c, run, 2);
  }
}
