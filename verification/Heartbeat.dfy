/** The heartbeat deadline of an Engine.IO connection. Times are in microseconds. */
module Heartbeat {
  import opened Common

  const MILLI: nat := 1000

  /** `time_to_next_ping` of the asynchronous socket: milliseconds left, saturating at zero. */
  function AsyncRemaining(maxPing: nat, lastPing: nat, now: nat): nat {
    if now < lastPing then 0
    else
      var since := (now - lastPing) / MILLI;
      if since <= maxPing then maxPing - since else 0
  }

  /** `time_to_next_ping` of the synchronous socket. */
  function SyncRemaining(maxPing: nat, lastPing: nat, now: nat): nat {
    if lastPing <= now then
      var since := (now - lastPing) / MILLI;
      if since > maxPing then 0 else maxPing - since
    else 0
  }

  lemma {:induction false} RemainingAgree(maxPing: nat, lastPing: nat, now: nat)
    ensures SyncRemaining(maxPing, lastPing, now) == AsyncRemaining(maxPing, lastPing, now)
  {
  }

  /** When a wait that starts now gives up. */
  function Expiry(maxPing: nat, lastPing: nat, now: nat): nat {
    now + AsyncRemaining(maxPing, lastPing, now) * MILLI
  }

  /**
   A wait gives up at most one millisecond after the deadline, or at once if it has passed,
   and after a whole number of milliseconds: this fixes the moment.
   */
  lemma {:induction false} ExpiryWindow(maxPing: nat, lastPing: nat, now: nat)
    requires lastPing <= now
    ensures var deadline := lastPing + maxPing * MILLI; var e := Expiry(maxPing, lastPing, now);
            && (if now < deadline + MILLI then deadline <= e < deadline + MILLI else e == now)
            && now <= e && (e - now) % MILLI == 0
  {
    var d := now - lastPing;
    assert d == d / MILLI * MILLI + d % MILLI;
  }

  /** A packet the reader takes at a time, whether it is a PING, and when it waits again: after the pong. */
  datatype Arrival = Arrival(at: nat, isPing: bool, handled: nat)

  /** The state of the reader: its last ping and the time at which it waits again. */
  class Watch {
    var lastPing: nat
    const maxPing: nat

    constructor (maxPing: nat, now: nat)
      ensures this.maxPing == maxPing && lastPing == now
    {
      this.maxPing := maxPing;
      lastPing := now;
    }

    /**
     The reader's loop over the arrivals from time `start` on, until a wait expires; the
     last wait is the one after the last arrival.
     */
    method Follow(start: nat, arrivals: seq<Arrival>) returns (consumed: nat, timeout: nat)
      modifies this
      ensures consumed == Consumed(maxPing, old(lastPing), start, arrivals)
      ensures lastPing == LastPing(old(lastPing), arrivals[..consumed])
      ensures timeout == Expiry(maxPing, lastPing, if consumed == 0 then start else arrivals[consumed - 1].handled)
    {
      var now := start;
      consumed := 0;
      while consumed < |arrivals| && arrivals[consumed].at <= Expiry(maxPing, lastPing, now)
        invariant consumed <= |arrivals|
        invariant lastPing == LastPing(old(lastPing), arrivals[..consumed])
        invariant now == Resumed(start, arrivals[..consumed])
        invariant consumed + Consumed(maxPing, lastPing, now, arrivals[consumed..])
               == Consumed(maxPing, old(lastPing), start, arrivals)
      {
        var a := arrivals[consumed];
        assert arrivals[..consumed + 1] == arrivals[..consumed] + [a];
        assert arrivals[consumed..][1..] == arrivals[consumed + 1..];
        if a.isPing {
          lastPing := a.at;
        }
        now := a.handled;
        consumed := consumed + 1;
      }
      timeout := Expiry(maxPing, lastPing, now);
    }
  }

  /** The time of the last PING among the arrivals, or the one before them. */
  function LastPing(before: nat, arrivals: seq<Arrival>): nat {
    if arrivals == [] then before
    else if arrivals[|arrivals| - 1].isPing then arrivals[|arrivals| - 1].at
    else LastPing(before, arrivals[..|arrivals| - 1])
  }

  /** When the wait after these arrivals starts. */
  function Resumed(start: nat, arrivals: seq<Arrival>): nat {
    if arrivals == [] then start else arrivals[|arrivals| - 1].handled
  }

  /** How many arrivals come before a wait expires. */
  function Consumed(maxPing: nat, lastPing: nat, now: nat, arrivals: seq<Arrival>): (n: nat)
    ensures n <= |arrivals|
    decreases |arrivals|
  {
    if arrivals == [] || arrivals[0].at > Expiry(maxPing, lastPing, now) then 0
    else
      var a := arrivals[0];
      1 + Consumed(maxPing, if a.isPing then a.at else lastPing, a.handled, arrivals[1..])
  }

  ghost predicate InOrder(start: nat, arrivals: seq<Arrival>) {
    && (arrivals != [] ==> start <= arrivals[0].at)
    && (forall i :: 0 <= i < |arrivals| ==> arrivals[i].at <= arrivals[i].handled)
    && (forall i, j :: 0 <= i < j < |arrivals| ==> arrivals[i].handled <= arrivals[j].at)
  }

  lemma {:induction false} LastPingBounds(before: nat, start: nat, arrivals: seq<Arrival>)
    requires before <= start && InOrder(start, arrivals)
    ensures before <= LastPing(before, arrivals) <= Resumed(start, arrivals)
    ensures start <= Resumed(start, arrivals)
  {
    if arrivals != [] {
      var n := |arrivals| - 1;
      LastPingBounds(before, start, arrivals[..n]);
    }
  }

  /**
   When the reader gives up, the last PING it handled is at least the allowed time ago, and
   it gives up less than a millisecond late, or at once after a packet that arrived too late.
   Only PINGs move the deadline.
   */
  lemma {:induction false} GivesUpInTime(maxPing: nat, connected: nat, arrivals: seq<Arrival>)
    requires InOrder(connected, arrivals)
    ensures var n := Consumed(maxPing, connected, connected, arrivals);
            var last := LastPing(connected, arrivals[..n]);
            var resumed := if n == 0 then connected else arrivals[n - 1].handled;
            var e := Expiry(maxPing, last, resumed);
            && last + maxPing * MILLI <= e
            && (e < last + maxPing * MILLI + MILLI || e == resumed)
  {
    var n := Consumed(maxPing, connected, connected, arrivals);
    LastPingBounds(connected, connected, arrivals[..n]);
    ExpiryWindow(maxPing, LastPing(connected, arrivals[..n]), Resumed(connected, arrivals[..n]));
  }

  /** It is the time of the last PING among them, if there is one. */
  lemma {:induction false} LastPingIs(before: nat, arrivals: seq<Arrival>)
    ensures (forall i :: 0 <= i < |arrivals| ==> !arrivals[i].isPing) ==> LastPing(before, arrivals) == before
    ensures forall p :: 0 <= p < |arrivals| && arrivals[p].isPing
                        && (forall i :: p < i < |arrivals| ==> !arrivals[i].isPing)
                        ==> LastPing(before, arrivals) == arrivals[p].at
  {
    if arrivals != [] {
      LastPingIs(before, arrivals[..|arrivals| - 1]);
    }
  }

  /** What stands before an arrival, seen from the second one on. */
  lemma {:induction false} BehindFirst(before: nat, arrivals: seq<Arrival>, i: nat)
    requires 0 < i <= |arrivals|
    ensures LastPing(before, arrivals[..i])
         == LastPing(if arrivals[0].isPing then arrivals[0].at else before, arrivals[1..][..i - 1])
  {
    assert arrivals[..i] == [arrivals[0]] + arrivals[1..][..i - 1];
    LastPingShift(before, arrivals[0], arrivals[1..][..i - 1]);
  }

  lemma {:induction false} RestInOrder(start: nat, arrivals: seq<Arrival>)
    requires InOrder(start, arrivals) && arrivals != []
    ensures InOrder(arrivals[0].handled, arrivals[1..]) && start <= arrivals[0].at <= arrivals[0].handled
  {
  }

  lemma {:induction false} TakenInTime(maxPing: nat, before: nat, start: nat, arrivals: seq<Arrival>, i: nat)
    requires before <= start && InOrder(start, arrivals) && i < Consumed(maxPing, before, start, arrivals)
    ensures || arrivals[i].at < LastPing(before, arrivals[..i]) + maxPing * MILLI + MILLI
            || arrivals[i].at == (if i == 0 then start else arrivals[i - 1].handled)
    decreases i
  {
    var a, rest := arrivals[0], arrivals[1..];
    RestInOrder(start, arrivals);
    hide InOrder, LastPing, Expiry;
    if i == 0 {
      FirstInTime(maxPing, before, start, arrivals);
    } else {
      TakenInTime(maxPing, if a.isPing then a.at else before, a.handled, rest, i - 1);
      BehindFirst(before, arrivals, i);
      assert arrivals[i] == rest[i - 1] && (i > 1 ==> arrivals[i - 1] == rest[i - 2]);
    }
  }

  /** The first arrival, taken or not. */
  lemma {:induction false} FirstInTime(maxPing: nat, before: nat, start: nat, arrivals: seq<Arrival>)
    requires before <= start && arrivals != [] && start <= arrivals[0].at
    ensures Consumed(maxPing, before, start, arrivals) > 0 ==>
              || arrivals[0].at < LastPing(before, arrivals[..0]) + maxPing * MILLI + MILLI
              || arrivals[0].at == start
    ensures Consumed(maxPing, before, start, arrivals) == 0 ==>
              arrivals[0].at > LastPing(before, arrivals[..0]) + maxPing * MILLI
  {
    assert arrivals[..0] == [];
    ExpiryWindow(maxPing, before, start);
    hide Expiry;
  }

  lemma {:induction false} NotTakenIsLate(maxPing: nat, before: nat, start: nat, arrivals: seq<Arrival>)
    requires before <= start && InOrder(start, arrivals) && Consumed(maxPing, before, start, arrivals) < |arrivals|
    ensures var n := Consumed(maxPing, before, start, arrivals);
            arrivals[n].at > LastPing(before, arrivals[..n]) + maxPing * MILLI
    decreases |arrivals|
  {
    var a, rest := arrivals[0], arrivals[1..];
    var n := Consumed(maxPing, before, start, arrivals);
    RestInOrder(start, arrivals);
    hide InOrder, LastPing, Expiry;
    if n == 0 {
      FirstInTime(maxPing, before, start, arrivals);
    } else {
      NotTakenIsLate(maxPing, if a.isPing then a.at else before, a.handled, rest);
      BehindFirst(before, arrivals, n);
      assert arrivals[n] == rest[n - 1];
    }
  }

  /**
   Every wait of the reader, not only its last, is bounded by the last PING before it. Of the
   arrivals taken, each came less than a millisecond after the deadline of its wait, or at the
   very moment the wait began. The first one not taken came after that deadline.
   */
  lemma {:induction false} EveryWaitExpires(maxPing: nat, before: nat, start: nat, arrivals: seq<Arrival>)
    requires before <= start && InOrder(start, arrivals)
    ensures var n := Consumed(maxPing, before, start, arrivals);
            && (forall i :: 0 <= i < n ==>
                  || arrivals[i].at < LastPing(before, arrivals[..i]) + maxPing * MILLI + MILLI
                  || arrivals[i].at == (if i == 0 then start else arrivals[i - 1].handled))
            && (n < |arrivals| ==> arrivals[n].at > LastPing(before, arrivals[..n]) + maxPing * MILLI)
  {
    var n := Consumed(maxPing, before, start, arrivals);
    forall i | 0 <= i < n
      ensures || arrivals[i].at < LastPing(before, arrivals[..i]) + maxPing * MILLI + MILLI
              || arrivals[i].at == (if i == 0 then start else arrivals[i - 1].handled)
    {
      TakenInTime(maxPing, before, start, arrivals, i);
    }
    if n < |arrivals| {
      NotTakenIsLate(maxPing, before, start, arrivals);
    }
    hide Consumed, LastPing, InOrder;
  }

  /** An arrival a millisecond past the deadline, for which the reader was already waiting, is never taken. */
  lemma {:induction false} LateIsNeverTaken(maxPing: nat, before: nat, start: nat, arrivals: seq<Arrival>, i: nat)
    requires before <= start && InOrder(start, arrivals) && i < |arrivals|
    requires arrivals[i].at >= LastPing(before, arrivals[..i]) + maxPing * MILLI + MILLI
    requires arrivals[i].at > (if i == 0 then start else arrivals[i - 1].handled)
    ensures Consumed(maxPing, before, start, arrivals) <= i
  {
    EveryWaitExpires(maxPing, before, start, arrivals);
  }

  /** Every arrival comes within the allowed time of the PING before it. */
  ghost predicate InTime(maxPing: nat, lastPing: nat, arrivals: seq<Arrival>) {
    forall i :: 0 <= i < |arrivals| ==> arrivals[i].at <= LastPing(lastPing, arrivals[..i]) + maxPing * MILLI
  }

  /** A server whose packets all come in time is never given up on before its last one. */
  lemma {:induction false} InTimeIsNeverGivenUp(maxPing: nat, lastPing: nat, now: nat, arrivals: seq<Arrival>)
    requires lastPing <= now && InOrder(now, arrivals) && InTime(maxPing, lastPing, arrivals)
    ensures Consumed(maxPing, lastPing, now, arrivals) == |arrivals|
    decreases |arrivals|
  {
    if arrivals != [] {
      var a := arrivals[0];
      assert arrivals[..0] == [];
      ExpiryWindow(maxPing, lastPing, now);
      var last := if a.isPing then a.at else lastPing;
      forall i | 0 <= i < |arrivals[1..]|
        ensures arrivals[1..][i].at <= LastPing(last, arrivals[1..][..i]) + maxPing * MILLI
      {
        assert arrivals[..i + 1] == [a] + arrivals[1..][..i];
        LastPingShift(lastPing, a, arrivals[1..][..i]);
        assert arrivals[i + 1].at <= LastPing(lastPing, arrivals[..i + 1]) + maxPing * MILLI;
      }
      InTimeIsNeverGivenUp(maxPing, last, a.handled, arrivals[1..]);
    }
  }

  lemma {:induction false} LastPingShift(before: nat, a: Arrival, rest: seq<Arrival>)
    ensures LastPing(before, [a] + rest) == LastPing(if a.isPing then a.at else before, rest)
  {
    if rest == [] {
      assert [a] + rest == [a];
    } else {
      var n := |rest| - 1;
      assert ([a] + rest)[..n + 1] == [a] + rest[..n];
      LastPingShift(before, a, rest[..n]);
    }
  }
}
