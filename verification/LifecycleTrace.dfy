/** What the history of a client says about sessions and close notifications. */
module LifecycleTrace {
  import opened Common
  import opened Lifecycle

  /** The number of successful connects. */
  function Sessions(t: seq<Mark>): nat {
    if t == [] then 0
    else Sessions(t[..|t| - 1]) + if t[|t| - 1].Connected? then 1 else 0
  }

  /** DISCONNECT packets handled while session `k` was the current one. */
  function Disconnects(t: seq<Mark>, k: nat): nat {
    if t == [] then 0
    else
      var before := t[..|t| - 1];
      Disconnects(before, k) + if t[|t| - 1].DisconnectSeen? && Sessions(before) == k then 1 else 0
  }

  /** Close notifications that carry epoch `k` and the given reason. */
  function Closes(t: seq<Mark>, k: nat, reason: CloseReason): nat {
    if t == [] then 0
    else Closes(t[..|t| - 1], k, reason) + if t[|t| - 1] == Closed(k, reason) then 1 else 0
  }

  /** The reason the packets alone imply: the last CONNECT or DISCONNECT handled. */
  function LastReason(t: seq<Mark>): Reason {
    if t == [] then Unknown
    else match t[|t| - 1]
      case ConnectSeen => Unknown
      case DisconnectSeen => Server
      case _ => LastReason(t[..|t| - 1])
  }

  /** Reconnect decisions of session `k` taken when that reason was unknown. */
  function UnknownDecisions(t: seq<Mark>, k: nat): nat {
    if t == [] then 0
    else
      var before := t[..|t| - 1];
      UnknownDecisions(before, k)
      + if t[|t| - 1].Decided? && Sessions(before) == k && LastReason(before).Unknown? then 1 else 0
  }

  /** The close notifications in the order they were spawned. */
  function ClosedMarks(t: seq<Mark>): seq<(nat, CloseReason)> {
    if t == [] then []
    else
      ClosedMarks(t[..|t| - 1])
      + match t[|t| - 1] { case Closed(k, reason) => [(k, reason)] case _ => [] }
  }

  /** Reconnect decisions of session `k` taken when that reason was the server's. */
  function ServerDecisions(t: seq<Mark>, k: nat): nat {
    if t == [] then 0
    else
      var before := t[..|t| - 1];
      ServerDecisions(before, k)
      + if t[|t| - 1].Decided? && Sessions(before) == k && LastReason(before).Server? then 1 else 0
  }

  /** All reconnect decisions of session `k`. */
  function Decisions(t: seq<Mark>, k: nat): nat {
    if t == [] then 0
    else
      var before := t[..|t| - 1];
      Decisions(before, k) + if t[|t| - 1].Decided? && Sessions(before) == k then 1 else 0
  }

  /** Rounds of attempts that ran out while session `k` was the last one. */
  function Exhausted(t: seq<Mark>, k: nat): nat {
    if t == [] then 0
    else
      var before := t[..|t| - 1];
      Exhausted(before, k) + if t[|t| - 1].RoundExhausted? && Sessions(before) == k then 1 else 0
  }

  predicate IsPacket(m: Mark) {
    m.ConnectSeen? || m.DisconnectSeen?
  }

  /** The CONNECT and DISCONNECT packets handled in session `k`, in order. */
  function Packets(t: seq<Mark>, k: nat): seq<Mark> {
    if t == [] then []
    else
      var before := t[..|t| - 1];
      Packets(before, k) + if IsPacket(t[|t| - 1]) && Sessions(before) == k then [t[|t| - 1]] else []
  }

  /** How many of them were handled after a reconnect decision of the session. */
  function Late(t: seq<Mark>, k: nat): nat {
    if t == [] then 0
    else
      var before := t[..|t| - 1];
      Late(before, k) + if IsPacket(t[|t| - 1]) && Sessions(before) == k && Decisions(before, k) > 0 then 1 else 0
  }

  /** The reason the packets imply at the end of session `k`. */
  function ReasonIn(t: seq<Mark>, k: nat): Reason {
    if t == [] then Unknown
    else
      var before := t[..|t| - 1];
      if Sessions(before) > k then ReasonIn(before, k)
      else match t[|t| - 1]
        case ConnectSeen => Unknown
        case DisconnectSeen => Server
        case _ => ReasonIn(before, k)
  }

  /** The reason they implied when session `k` began. */
  function Inherited(t: seq<Mark>, k: nat): Reason {
    if t == [] then Unknown
    else
      var before := t[..|t| - 1];
      if t[|t| - 1].Connected? && Sessions(before) + 1 == k then LastReason(before) else Inherited(before, k)
  }

  lemma {:induction false} AfterMark(t: seq<Mark>, m: Mark)
    ensures Sessions(t + [m]) == Sessions(t) + if m.Connected? then 1 else 0
    ensures LastReason(t + [m])
         == if m.ConnectSeen? then Unknown else if m.DisconnectSeen? then Server else LastReason(t)
    ensures ClosedMarks(t + [m]) == ClosedMarks(t) + if m.Closed? then [(m.epoch, m.reason)] else []
  {
    assert (t + [m])[..|t|] == t;
  }

  lemma {:induction false} CountsAfterMark(t: seq<Mark>, m: Mark, k: nat)
    ensures Disconnects(t + [m], k)
         == Disconnects(t, k) + if m.DisconnectSeen? && Sessions(t) == k then 1 else 0
    ensures forall r :: Closes(t + [m], k, r) == Closes(t, k, r) + if m == Closed(k, r) then 1 else 0
    ensures UnknownDecisions(t + [m], k)
         == UnknownDecisions(t, k)
            + if m.Decided? && Sessions(t) == k && LastReason(t).Unknown? then 1 else 0
  {
    assert (t + [m])[..|t|] == t;
  }

  lemma {:induction false} RoundsAfterMark(t: seq<Mark>, m: Mark, k: nat)
    ensures Decisions(t + [m], k) == Decisions(t, k) + if m.Decided? && Sessions(t) == k then 1 else 0
    ensures Exhausted(t + [m], k) == Exhausted(t, k) + if m.RoundExhausted? && Sessions(t) == k then 1 else 0
    ensures Late(t + [m], k)
         == Late(t, k) + if IsPacket(m) && Sessions(t) == k && Decisions(t, k) > 0 then 1 else 0
    ensures Inherited(t + [m], k)
         == if m.Connected? && Sessions(t) + 1 == k then LastReason(t) else Inherited(t, k)
  {
    assert (t + [m])[..|t|] == t;
  }

  // ----- reasons and decisions of a session -----

  /** Every decision finds the reason unknown or the server's. */
  lemma {:induction false} DecisionsByReason(t: seq<Mark>, k: nat)
    ensures UnknownDecisions(t, k) + ServerDecisions(t, k) == Decisions(t, k)
  {
    if t != [] {
      DecisionsByReason(t[..|t| - 1], k);
      NeverManual(t[..|t| - 1]);
    }
  }

  lemma {:induction false} NeverManual(t: seq<Mark>)
    ensures !LastReason(t).Manual?
  {
    if t != [] {
      NeverManual(t[..|t| - 1]);
    }
  }

  lemma {:induction false} NotYetDecided(t: seq<Mark>, k: nat)
    requires Sessions(t) < k
    ensures Decisions(t, k) == 0 && Packets(t, k) == []
  {
    if t != [] {
      NotYetDecided(t[..|t| - 1], k);
    }
  }

  lemma {:induction false} ReasonSoFar(t: seq<Mark>, k: nat)
    requires Sessions(t) <= k
    ensures ReasonIn(t, k) == LastReason(t)
  {
    if t != [] {
      ReasonSoFar(t[..|t| - 1], k);
    }
  }

  /** If no packet follows its first decision, a session's decisions all find its final reason. */
  lemma {:induction false} DecisionsAgree(t: seq<Mark>, k: nat)
    requires Late(t, k) == 0
    ensures ServerDecisions(t, k) == if ReasonIn(t, k).Server? then Decisions(t, k) else 0
  {
    if t != [] {
      var before := t[..|t| - 1];
      DecisionsAgree(before, k);
      DecisionsByReason(before, k);
      if Sessions(before) < k {
        NotYetDecided(before, k);
      }
      if Sessions(before) <= k {
        ReasonSoFar(before, k);
      }
    }
  }

  /** The final reason of a session is that of its last packet, or else the one it began with. */
  lemma {:induction false} ReasonOfPackets(t: seq<Mark>, k: nat)
    requires 1 <= k <= Sessions(t)
    ensures var ps := Packets(t, k);
            ReasonIn(t, k) == if ps == [] then Inherited(t, k)
                              else if ps[|ps| - 1].ConnectSeen? then Unknown else Server
    ensures forall i :: 0 <= i < |Packets(t, k)| ==> IsPacket(Packets(t, k)[i])
  {
    var before, m := t[..|t| - 1], t[|t| - 1];
    if Sessions(before) < k {
      NotYetDecided(before, k);
      ReasonSoFar(before, k);
    } else {
      ReasonOfPackets(before, k);
    }
  }

  /** The DISCONNECTs among some packets. */
  function Cuts(ps: seq<Mark>): nat {
    if ps == [] then 0 else Cuts(ps[..|ps| - 1]) + if ps[|ps| - 1].DisconnectSeen? then 1 else 0
  }

  lemma {:induction false} DisconnectsAreCuts(t: seq<Mark>, k: nat)
    ensures Disconnects(t, k) == Cuts(Packets(t, k))
  {
    if t != [] {
      var before, m := t[..|t| - 1], t[|t| - 1];
      DisconnectsAreCuts(before, k);
      if IsPacket(m) && Sessions(before) == k {
        assert Packets(t, k)[..|Packets(before, k)|] == Packets(before, k);
      } else {
        assert Packets(t, k) == Packets(before, k);
      }
    }
  }

  lemma {:induction false} NoneExhausted(t: seq<Mark>, k: nat)
    requires RoundExhausted !in t
    ensures Exhausted(t, k) == 0
  {
    if t != [] {
      assert t[|t| - 1] in t;
      NoneExhausted(t[..|t| - 1], k);
    }
  }

  lemma {:induction false} SessionsGrow(t: seq<Mark>, i: nat, j: nat)
    requires i <= j <= |t|
    ensures Sessions(t[..i]) <= Sessions(t[..j])
  {
    if i < j {
      SessionsGrow(t, i, j - 1);
      assert t[..j][..j - 1] == t[..j - 1];
    }
  }

  // ----- the marks each block leaves -----

  /** Whether the reader block that comes next ends the stream. */
  predicate EndsStream(s: State, input: Input) {
    match s.reader.pc
    case Stream(g) => !(input.StreamError? || input.Packet?) || g >= |s.socks| || !s.socks[g].open
    case GotError(_) => s.reason.Manual?
    case GotPacket(_, _, _) => s.reason.Manual?
    case _ => false
  }

  /** Whether the reconnect attempt under way fails in the next block. */
  predicate FailsAttempt(s: State, input: Input) {
    match s.reader.pc
    case Creating(_) => !input.Success?
    case AwaitingEngine(_, call) => CallOf(s, s.installed, call) != Lifecycle.Transport.EmitDone(true)
    case SendingOpen(_) => !MaySend(s)
    case AwaitingOpen(_, call) => CallOf(s, s.installed, call) != Lifecycle.Transport.EmitDone(true)
    case _ => false
  }

  function MarksOf(c: Config, s: State, input: Input): seq<Mark> {
    if EndsStream(s, input) then [StreamEnded]
    else if FailsAttempt(s, input) then [AttemptFailed]
    else match s.reader.pc
      case SettingUnknown(_) => [ConnectSeen]
      case SettingServer(_) => [DisconnectSeen, Closed(s.epoch, IoServerDisconnect)]
      case Deciding => (if s.reason.Unknown? then [Closed(s.epoch, TransportClose)] else []) + [Decided]
      case Attempt(n) => if c.maxAttempts.Some? && n + 1 > c.maxAttempts.value then [RoundExhausted] else []
      case AwaitingOpen(_, _) => [Connected]
      case _ => []
  }

  lemma {:induction false} StreamMarks(c: Config, s: State, input: Input)
    requires WellPlaced(s) && OwnsStream(s.reader.pc)
    ensures ReaderBlock(c, s, input).trace == s.trace + MarksOf(c, s, input)
  {
    hide SpawnDispatch, AbortDispatch;
    var t := s.trace;
    assert t + [] == t;
    match s.reader.pc
    case Stream(g) => match input { case StreamError => case Packet(_, _) => case _ => }
    case GotError(g) =>
    case GotPacket(g, kind, ours) => match kind { case Connect => case Disconnect => case _ => }
    case SettingUnknown(g) =>
    case SettingServer(g) =>
      var seen := DisconnectSeen;
      var closed := Closed(s.epoch, IoServerDisconnect);
      assert t + [seen] + [closed] == t + [seen, closed];
  }

  lemma {:induction false} ReaderMarks(c: Config, s: State, input: Input)
    requires WellPlaced(s)
    ensures ReaderBlock(c, s, input).trace == s.trace + MarksOf(c, s, input)
  {
    hide SpawnDispatch, AbortDispatch;
    var t := s.trace;
    assert t + [] == t;
    if OwnsStream(s.reader.pc) {
      StreamMarks(c, s, input);
    } else if s.reader.pc.Deciding? {
      var closed := Closed(s.epoch, TransportClose);
      assert t + [closed] + [Decided] == t + ([closed] + [Decided]);
      assert [] + [Decided] == [Decided];
    }
  }

  /** Only the reader writes history. */
  lemma {:induction false} OthersLeaveNoMark(c: Config, s: State, a: Action)
    requires Enabled(s, a) && !a.ReaderStep?
    ensures Apply(c, s, a).trace == s.trace && Apply(c, s, a).epoch == s.epoch
  {
    match a
    case TeardownStep(i) => match s.teardowns[i] { case AwaitingSend(g, call) => case _ => }
    case _ =>
  }

  /** The reader's epoch and place afterwards, as the marks show them. */
  lemma {:induction false} ReaderEpoch(c: Config, s: State, input: Input)
    requires WellPlaced(s)
    ensures var s' := ReaderBlock(c, s, input);
            s'.epoch == s.epoch + if Connected in MarksOf(c, s, input) then 1 else 0
  {
    hide SpawnDispatch, AbortDispatch;
    match s.reader.pc
    case Stream(g) => match input { case StreamError => case Packet(_, _) => case _ => }
    case GotPacket(g, kind, ours) => match kind { case Connect => case Disconnect => case _ => }
    case Deciding => match s.reason { case Unknown => case Manual => case Server => }
    case _ =>
  }
}
