/** One round of automatic reconnect attempts, in both clients. */
module ReconnectRound {
  import opened Common

  /** How a round ends; the counter is a u8 whose overflow panics. */
  datatype End = Reconnected | GaveUp | CounterOverflow

  const COUNTER_MAX: nat := 255

  /** The index of the first attempt that succeeds, or the length. */
  function FirstSuccess(outcomes: seq<bool>): (i: nat)
    ensures i <= |outcomes|
    ensures i < |outcomes| ==> outcomes[i]
    ensures forall j :: 0 <= j < i ==> !outcomes[j]
  {
    if outcomes == [] || outcomes[0] then 0 else 1 + FirstSuccess(outcomes[1..])
  }

  /** The outcomes given cover every attempt the round can make. */
  ghost predicate Covers(limit: Option<nat>, outcomes: seq<bool>) {
    match limit
    case Some(m) => m <= COUNTER_MAX && m <= |outcomes|
    case None => FirstSuccess(outcomes) < |outcomes|
  }

  /** The attempts a round makes. */
  function Attempts(limit: Option<nat>, outcomes: seq<bool>): nat {
    var first := FirstSuccess(outcomes) + 1;
    if limit.Some? && limit.value < first then limit.value else first
  }

  function EndOf(limit: Option<nat>, outcomes: seq<bool>): End {
    if limit.None? || FirstSuccess(outcomes) < limit.value then Reconnected
    else if limit.value == COUNTER_MAX then CounterOverflow
    else GaveUp
  }

  /** The reader's loop in the asynchronous client; `waits` counts the asked-for delays. */
  method AsyncRound(limit: Option<nat>, outcomes: seq<bool>) returns (attempts: nat, waits: nat, end: End)
    requires Covers(limit, outcomes)
    ensures attempts == Attempts(limit, outcomes)
    ensures end == EndOf(limit, outcomes)
    ensures waits == if end.Reconnected? then attempts - 1 else attempts
  {
    attempts, waits := 0, 0;
    var counter := 0;
    while true
      invariant attempts == waits <= FirstSuccess(outcomes)
      invariant limit.Some? ==> counter == attempts <= limit.value
      decreases |outcomes| - attempts
    {
      if limit.Some? {
        if counter == COUNTER_MAX {
          return attempts, waits, CounterOverflow;
        }
        counter := counter + 1;
        if counter > limit.value {
          return attempts, waits, GaveUp;
        }
      }
      assert attempts < |outcomes|;
      attempts := attempts + 1;
      if outcomes[attempts - 1] {
        return attempts, waits, Reconnected;
      }
      waits := waits + 1;
    }
  }

  /** The loop of the synchronous client, which waits before each attempt. */
  method SyncRound(reconnect: bool, limit: Option<nat>, outcomes: seq<bool>)
    returns (attempts: nat, waits: nat, end: End)
    requires Covers(limit, outcomes)
    ensures attempts == if reconnect then Attempts(limit, outcomes) else 0
    ensures end == if reconnect then EndOf(limit, outcomes) else GaveUp
    ensures waits == attempts
  {
    attempts, waits, end := 0, 0, GaveUp;
    if !reconnect {
      return;
    }
    var counter := 0;
    while true
      invariant attempts == waits <= FirstSuccess(outcomes)
      invariant limit.Some? ==> counter == attempts <= limit.value
      decreases |outcomes| - attempts
    {
      if limit.Some? {
        if counter == COUNTER_MAX {
          return attempts, waits, CounterOverflow;
        }
        counter := counter + 1;
        if counter > limit.value {
          return attempts, waits, GaveUp;
        }
      }
      assert attempts < |outcomes|;
      waits := waits + 1;
      attempts := attempts + 1;
      if outcomes[attempts - 1] {
        return attempts, waits, Reconnected;
      }
    }
  }

  /**
   A round never makes more attempts than the limit nor goes on after a success; it stops
   early only for a success, and its counter overflows exactly for the limit 255 when all
   255 attempts fail.
   */
  lemma {:induction false} RoundBound(limit: Option<nat>, outcomes: seq<bool>)
    requires Covers(limit, outcomes)
    ensures limit.Some? ==> Attempts(limit, outcomes) <= limit.value
    ensures forall i :: 0 <= i < Attempts(limit, outcomes) - 1 ==> !outcomes[i]
    ensures EndOf(limit, outcomes).Reconnected? <==>
              exists i :: 0 <= i < Attempts(limit, outcomes) && outcomes[i]
    ensures !EndOf(limit, outcomes).Reconnected? ==> Attempts(limit, outcomes) == limit.value
    ensures EndOf(limit, outcomes).CounterOverflow? <==>
              limit == Some(COUNTER_MAX) && forall i :: 0 <= i < COUNTER_MAX ==> !outcomes[i]
  {
    var f := FirstSuccess(outcomes);
    if f < Attempts(limit, outcomes) {
      assert outcomes[f];
    }
    if limit == Some(COUNTER_MAX) && f < COUNTER_MAX {
      assert outcomes[f];
    }
  }
}
