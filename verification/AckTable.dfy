/** The table of outstanding acks, in both clients. */
module AckTable {
  import opened Common
  import Codec = SocketCodec
  import Events
  import Json

  /** `callback` identifies the user callback; times are in milliseconds. */
  datatype Ack = Ack(id: int, started: nat, timeout: nat, callback: nat)

  /** One call of a user callback. */
  datatype Call = Call(callback: nat, payload: Events.Payload, id: Option<int>)

  function Matching(acks: seq<Ack>, id: int): seq<Ack> {
    if acks == [] then []
    else (if acks[0].id == id then [acks[0]] else []) + Matching(acks[1..], id)
  }

  function Others(acks: seq<Ack>, id: int): seq<Ack> {
    if acks == [] then []
    else (if acks[0].id == id then [] else [acks[0]]) + Others(acks[1..], id)
  }

  /** The position of the oldest ack with this id, or the length. */
  function Oldest(acks: seq<Ack>, id: int): (i: nat)
    ensures i <= |acks|
    ensures i < |acks| ==> acks[i].id == id
    ensures forall j :: 0 <= j < i ==> acks[j].id != id
  {
    if acks == [] || acks[0].id == id then 0 else 1 + Oldest(acks[1..], id)
  }

  function WithoutOldest(acks: seq<Ack>, id: int): seq<Ack> {
    var i := Oldest(acks, id);
    if i < |acks| then acks[..i] + acks[i + 1..] else acks
  }

  /** The payload a callback gets for the text of an ack: its JSON value, or else the text itself. */
  function FromText(data: Bytes): Events.Payload {
    match Json.Parse(data)
    case Some(v) => Events.Text([v])
    case None => Events.Text([Json.Str(data)])
  }

  predicate InTime(ack: Ack, now: nat) {
    (if now > ack.started then now - ack.started else 0) < ack.timeout
  }

  /** What a matched ack does with the packet that acknowledges it. */
  function Calls(ack: Ack, packet: Codec.Packet, now: nat): seq<Call> {
    if !InTime(ack, now) then []
    else
      (if packet.data.Some? then [Call(ack.callback, FromText(packet.data.value), packet.id)] else [])
      + (if packet.attachments.Some? && packet.attachments.value != []
         then [Call(ack.callback, Events.Binary(packet.attachments.value[0]), packet.id)] else [])
  }

  /** JSON is passed on as its value, anything else as one string. */
  lemma {:induction false} PassesText(data: Bytes)
    ensures Json.IsValid(data) ==> FromText(data).Text? && FromText(data).values == [Json.Parse(data).value]
    ensures !Json.IsValid(data) ==> FromText(data) == Events.Text([Json.Str(data)])
  {
    hide Json.Parse;
  }

  /** A matched ack calls exactly if there is something to pass on and its time is not yet up. */
  lemma {:induction false} CallsExactly(ack: Ack, packet: Codec.Packet, now: nat)
    ensures Calls(ack, packet, now) != [] <==>
              && ack.timeout > 0 && now < ack.started + ack.timeout
              && (packet.data.Some? || (packet.attachments.Some? && packet.attachments.value != []))
    ensures forall i :: 0 <= i < |Calls(ack, packet, now)| ==>
              Calls(ack, packet, now)[i].callback == ack.callback && Calls(ack, packet, now)[i].id == packet.id
  {
  }

  /** The text of an ack is passed on before its first attachment, and each once. */
  lemma {:induction false} TextBeforeBinary(ack: Ack, packet: Codec.Packet, now: nat)
    requires 0 < ack.timeout && now < ack.started + ack.timeout
    ensures var calls := Calls(ack, packet, now);
            var binary := packet.attachments.Some? && packet.attachments.value != [];
            && |calls| == (if packet.data.Some? then 1 else 0) + (if binary then 1 else 0)
            && (packet.data.Some? ==> calls[0].payload == FromText(packet.data.value))
            && (binary ==> calls[|calls| - 1].payload == Events.Binary(packet.attachments.value[0]))
  {
    hide FromText;
  }

  /**
    What all matched acks do, in order. `clock(i)` is the time read for the `i`-th of them:
    the callbacks of those before it have been awaited by then.
    */
  function AllCalls(acks: seq<Ack>, packet: Codec.Packet, clock: nat -> nat): seq<Call> {
    if acks == [] then []
    else
      var n := |acks| - 1;
      AllCalls(acks[..n], packet, clock) + Calls(acks[n], packet, clock(n))
  }

  lemma {:induction false} AllCallsStep(acks: seq<Ack>, i: nat, packet: Codec.Packet, clock: nat -> nat)
    requires i < |acks|
    ensures AllCalls(acks[..i + 1], packet, clock)
         == AllCalls(acks[..i], packet, clock) + Calls(acks[i], packet, clock(i))
  {
    assert acks[..i + 1][..i] == acks[..i];
  }

  /** What a packet with only a text, or only one attachment, passes on. */
  predicate PassesOn(packet: Codec.Packet, payload: Events.Payload) {
    || (packet.data.Some? && packet.attachments.None? && payload == FromText(packet.data.value))
    || (packet.data.None? && packet.attachments.Some? && |packet.attachments.value| == 1
        && payload == Events.Binary(packet.attachments.value[0]))
  }

  /** One call for each ack whose time is not yet up when its turn comes, in order. */
  function TimelyCalls(acks: seq<Ack>, payload: Events.Payload, id: Option<int>, clock: nat -> nat): seq<Call> {
    if acks == [] then []
    else
      var n := |acks| - 1;
      TimelyCalls(acks[..n], payload, id, clock)
      + if 0 < acks[n].timeout && clock(n) < acks[n].started + acks[n].timeout
        then [Call(acks[n].callback, payload, id)] else []
  }

  lemma {:induction false} CallsOf(ack: Ack, p: Codec.Packet, now: nat, payload: Events.Payload)
    requires PassesOn(p, payload)
    ensures Calls(ack, p, now)
         == if 0 < ack.timeout && now < ack.started + ack.timeout then [Call(ack.callback, payload, p.id)] else []
  {
    hide FromText;
  }

  /** A matching ack is called once with the payload if its time is not yet up, and otherwise not at all. */
  lemma {:induction false} AllCallsAreTimely(acks: seq<Ack>, p: Codec.Packet, payload: Events.Payload, clock: nat -> nat)
    requires PassesOn(p, payload)
    ensures AllCalls(acks, p, clock) == TimelyCalls(acks, payload, p.id, clock)
  {
    hide PassesOn, Calls;
    if acks != [] {
      var n := |acks| - 1;
      AllCallsAreTimely(acks[..n], p, payload, clock);
      CallsOf(acks[n], p, clock(n), payload);
    }
  }

  /** The body of the loop over the matched acks. */
  method Fire(ack: Ack, packet: Codec.Packet, now: nat) returns (fired: seq<Call>)
    ensures fired == Calls(ack, packet, now)
  {
    fired := [];
    var elapsed := if now > ack.started then now - ack.started else 0;
    if elapsed < ack.timeout {
      if packet.data.Some? {
        fired := [Call(ack.callback, FromText(packet.data.value), packet.id)];
      }
      if packet.attachments.Some? && packet.attachments.value != [] {
        fired := fired + [Call(ack.callback, Events.Binary(packet.attachments.value[0]), packet.id)];
      }
    }
  }

  /** The ack at the front of what has not been looked at, and the table without it. */
  lemma {:induction false} Cursor(acks: seq<Ack>, i: nat)
    requires i < |acks|
    ensures acks[i..] == [acks[i]] + acks[i + 1..] && acks[i..][1..] == acks[i + 1..]
    ensures acks[..i + 1] == acks[..i] + [acks[i]]
    ensures (acks[..i] + acks[i + 1..])[i..] == acks[i + 1..] && (acks[..i] + acks[i + 1..])[..i] == acks[..i]
  {
  }

  lemma {:induction false} FirstAck(ack: Ack, rest: seq<Ack>, id: int)
    ensures Matching([ack] + rest, id) == (if ack.id == id then [ack] + Matching(rest, id) else Matching(rest, id))
    ensures Others([ack] + rest, id) == (if ack.id == id then Others(rest, id) else [ack] + Others(rest, id))
  {
    assert ([ack] + rest)[1..] == rest;
    assert [] + Matching(rest, id) == Matching(rest, id) && [] + Others(rest, id) == Others(rest, id);
  }

  lemma {:induction false} NothingLeft(acks: seq<Ack>, id: int)
    ensures Matching([], id) == [] && Others([], id) == []
    ensures acks[0..] == acks && acks[..0] == [] && acks + [] == acks
    ensures [] + Matching(acks, id) == Matching(acks, id) && [] + Others(acks, id) == Others(acks, id)
  {
  }

  lemma {:induction false} Regroup(a: seq<Ack>, x: Ack, b: seq<Ack>)
    ensures a + ([x] + b) == (a + [x]) + b
  {
  }

  class OutstandingAcks {
    var outstanding: seq<Ack>

    constructor ()
      ensures outstanding == []
    {
      outstanding := [];
    }

    /** The part of `emit_with_ack` that remembers the callback. */
    method Register(ack: Ack)
      modifies this
      ensures outstanding == old(outstanding) + [ack]
    {
      outstanding := outstanding + [ack];
    }

    /** The asynchronous client takes out every ack with the id. */
    method Drain(id: int) returns (matched: seq<Ack>)
      modifies this
      ensures matched == Matching(old(outstanding), id)
      ensures outstanding == Others(old(outstanding), id)
    {
      matched := [];
      var index := 0;
      ghost var rest := outstanding;
      NothingLeft(outstanding, id);
      hide Matching, Others;
      while index < |outstanding|
        invariant 0 <= index <= |outstanding| && outstanding[index..] == rest
        invariant matched + Matching(rest, id) == Matching(old(outstanding), id)
        invariant outstanding[..index] + Others(rest, id) == Others(old(outstanding), id)
        decreases |outstanding| - index
      {
        Cursor(outstanding, index);
        FirstAck(rest[0], rest[1..], id);
        if outstanding[index].id == id {
          Regroup(matched, outstanding[index], Matching(rest[1..], id));
          matched := matched + [outstanding[index]];
          outstanding := outstanding[..index] + outstanding[index + 1..];
        } else {
          Regroup(outstanding[..index], outstanding[index], Others(rest[1..], id));
          index := index + 1;
        }
        rest := rest[1..];
      }
      assert rest == [] && outstanding[..index] == outstanding;
      NothingLeft(outstanding, id);
    }

    /** The synchronous client takes out only the oldest ack with the id. */
    method TakeOldest(id: int) returns (found: Option<Ack>)
      modifies this
      ensures var i := Oldest(old(outstanding), id);
              && outstanding == WithoutOldest(old(outstanding), id)
              && found == if i < |old(outstanding)| then Some(old(outstanding)[i]) else None
    {
      var position := 0;
      while position < |outstanding| && outstanding[position].id != id
        invariant 0 <= position <= |outstanding|
        invariant position + Oldest(outstanding[position..], id) == Oldest(outstanding, id)
      {
        assert outstanding[position..][1..] == outstanding[position + 1..];
        position := position + 1;
      }
      if position < |outstanding| {
        found := Some(outstanding[position]);
        outstanding := outstanding[..position] + outstanding[position + 1..];
      } else {
        found := None;
      }
    }

    /** `handle_ack` of the asynchronous client: the time is read anew for each matched ack. */
    method HandleAck(packet: Codec.Packet, clock: nat -> nat) returns (calls: seq<Call>)
      modifies this
      ensures packet.id.None? ==> calls == [] && outstanding == old(outstanding)
      ensures packet.id.Some? ==>
                && outstanding == Others(old(outstanding), packet.id.value)
                && calls == AllCalls(Matching(old(outstanding), packet.id.value), packet, clock)
      ensures forall payload :: packet.id.Some? && PassesOn(packet, payload) ==>
                calls == TimelyCalls(Matching(old(outstanding), packet.id.value), payload, packet.id, clock)
    {
      calls := [];
      if packet.id.None? {
        return;
      }
      var acks := Drain(packet.id.value);
      var i := 0;
      while i < |acks|
        invariant 0 <= i <= |acks|
        invariant calls == AllCalls(acks[..i], packet, clock)
        invariant outstanding == Others(old(outstanding), packet.id.value)
      {
        AllCallsStep(acks, i, packet, clock);
        var fired := Fire(acks[i], packet, clock(i));
        calls := calls + fired;
        i := i + 1;
      }
      assert acks[..i] == acks;
      forall payload | PassesOn(packet, payload)
        ensures calls == TimelyCalls(acks, payload, packet.id, clock)
      {
        AllCallsAreTimely(acks, packet, payload, clock);
      }
    }

    /** `handle_ack` of the blocking client. */
    method HandleOldest(packet: Codec.Packet, now: nat) returns (calls: seq<Call>)
      modifies this
      ensures packet.id.None? ==> calls == [] && outstanding == old(outstanding)
      ensures packet.id.Some? ==>
                && outstanding == WithoutOldest(old(outstanding), packet.id.value)
                && var i := Oldest(old(outstanding), packet.id.value);
                calls == if i < |old(outstanding)| then Calls(old(outstanding)[i], packet, now) else []
      ensures forall payload :: packet.id.Some? && PassesOn(packet, payload) ==>
                var i := Oldest(old(outstanding), packet.id.value);
                calls == if i < |old(outstanding)| && 0 < old(outstanding)[i].timeout
                            && now < old(outstanding)[i].started + old(outstanding)[i].timeout
                         then [Call(old(outstanding)[i].callback, payload, packet.id)] else []
    {
      calls := [];
      if packet.id.None? {
        return;
      }
      var found := TakeOldest(packet.id.value);
      if found.Some? {
        calls := Fire(found.value, packet, now);
        forall payload | PassesOn(packet, payload)
          ensures calls == if 0 < found.value.timeout && now < found.value.started + found.value.timeout
                           then [Call(found.value.callback, payload, packet.id)] else []
        {
          CallsOf(found.value, packet, now, payload);
        }
      }
    }
  }

  // ----- the drain is a stable partition -----

  /** How many of the first `i` acks have the id. */
  function Rank(acks: seq<Ack>, id: int, i: nat): nat
    requires i <= |acks|
  {
    if i == 0 then 0
    else (if acks[0].id == id then 1 else 0) + Rank(acks[1..], id, i - 1)
  }

  /** The `i`-th ack is found in its part at its rank among the acks of that part. */
  lemma {:induction false} StablePartition(acks: seq<Ack>, id: int, i: nat)
    requires i < |acks|
    ensures Rank(acks, id, i) <= i
    ensures acks[i].id == id ==>
              Rank(acks, id, i) < |Matching(acks, id)| && Matching(acks, id)[Rank(acks, id, i)] == acks[i]
    ensures acks[i].id != id ==>
              i - Rank(acks, id, i) < |Others(acks, id)| && Others(acks, id)[i - Rank(acks, id, i)] == acks[i]
    ensures |Matching(acks, id)| + |Others(acks, id)| == |acks|
  {
    RankBound(acks, id, i);
    PartitionSizes(acks, id);
    if acks[i].id == id {
      MatchAtRank(acks, id, i);
    } else {
      OtherAtRank(acks, id, i);
    }
  }

  lemma {:induction false} MatchAtRank(acks: seq<Ack>, id: int, i: nat)
    requires i < |acks| && acks[i].id == id
    ensures Rank(acks, id, i) < |Matching(acks, id)| && Matching(acks, id)[Rank(acks, id, i)] == acks[i]
  {
    if i > 0 {
      MatchAtRank(acks[1..], id, i - 1);
    }
  }

  lemma {:induction false} OtherAtRank(acks: seq<Ack>, id: int, i: nat)
    requires i < |acks| && acks[i].id != id
    ensures 0 <= i - Rank(acks, id, i) < |Others(acks, id)|
    ensures Others(acks, id)[i - Rank(acks, id, i)] == acks[i]
  {
    if i > 0 {
      OtherAtRank(acks[1..], id, i - 1);
    }
  }

  lemma {:induction false} PartitionSizes(acks: seq<Ack>, id: int)
    ensures |Matching(acks, id)| + |Others(acks, id)| == |acks|
    ensures multiset(Matching(acks, id)) + multiset(Others(acks, id)) == multiset(acks)
    ensures forall a :: a in Matching(acks, id) ==> a.id == id
    ensures forall a :: a in Others(acks, id) ==> a.id != id
  {
    if acks != [] {
      PartitionSizes(acks[1..], id);
      assert acks == [acks[0]] + acks[1..];
    }
  }

  /** An older match stays before a newer one. */
  lemma {:induction false} RankGrows(acks: seq<Ack>, id: int, i: nat, j: nat)
    requires i < j < |acks|
    ensures acks[i].id == id ==> Rank(acks, id, i) < Rank(acks, id, j)
    ensures acks[i].id != id ==> i - Rank(acks, id, i) < j - Rank(acks, id, j)
  {
    if i == 0 {
      RankBound(acks[1..], id, j - 1);
    } else {
      RankGrows(acks[1..], id, i - 1, j - 1);
    }
  }

  lemma {:induction false} RankBound(acks: seq<Ack>, id: int, i: nat)
    requires i <= |acks|
    ensures Rank(acks, id, i) <= i
  {
    if i > 0 {
      RankBound(acks[1..], id, i - 1);
    }
  }

  // ----- oldest first -----

  lemma {:induction false} OldestAtFront(ack: Ack, rest: seq<Ack>, id: int)
    requires ack.id == id
    ensures Oldest([ack] + rest, id) == 0 && WithoutOldest([ack] + rest, id) == rest
  {
    var acks := [ack] + rest;
    assert acks[1..] == rest && acks[..0] + rest == rest;
  }

  lemma {:induction false} GapBehind(ack: Ack, rest: seq<Ack>, i: nat)
    requires i < |rest|
    ensures var acks := [ack] + rest; acks[..i + 1] + acks[i + 2..] == [ack] + (rest[..i] + rest[i + 1..])
  {
  }

  lemma {:induction false} OldestBehind(ack: Ack, rest: seq<Ack>, id: int)
    requires ack.id != id
    ensures Oldest([ack] + rest, id) == 1 + Oldest(rest, id)
    ensures WithoutOldest([ack] + rest, id) == [ack] + WithoutOldest(rest, id)
  {
    assert ([ack] + rest)[1..] == rest;
    var i := Oldest(rest, id);
    assert Oldest([ack] + rest, id) == i + 1;
    hide Oldest;
    if i < |rest| {
      GapBehind(ack, rest, i);
    }
  }

  /** Taking the oldest ack takes the first match and leaves the others alone. */
  lemma {:induction false} OldestFirst(acks: seq<Ack>, id: int)
    ensures Oldest(acks, id) < |acks| <==> Matching(acks, id) != []
    ensures Oldest(acks, id) < |acks| ==>
              && Matching(acks, id)[0] == acks[Oldest(acks, id)]
              && Matching(WithoutOldest(acks, id), id) == Matching(acks, id)[1..]
    ensures Others(WithoutOldest(acks, id), id) == Others(acks, id)
  {
    if acks != [] {
      hide Oldest, Matching, Others, WithoutOldest;
      var ack, rest := acks[0], acks[1..];
      assert acks == [ack] + rest;
      if ack.id == id {
        OldestIsFirst(ack, rest, id);
      } else {
        OldestFirst(rest, id);
        OldestIsLater(ack, rest, id);
      }
    } else {
      NothingLeft([], id);
    }
  }

  lemma {:induction false} OldestIsFirst(ack: Ack, rest: seq<Ack>, id: int)
    requires ack.id == id
    ensures var acks := [ack] + rest;
            && Oldest(acks, id) == 0 && Matching(acks, id) != [] && Matching(acks, id)[0] == ack
            && Matching(WithoutOldest(acks, id), id) == Matching(acks, id)[1..]
            && Others(WithoutOldest(acks, id), id) == Others(acks, id)
  {
    FirstAck(ack, rest, id);
    OldestAtFront(ack, rest, id);
    hide Oldest, Matching, Others, WithoutOldest;
    assert ([ack] + Matching(rest, id))[1..] == Matching(rest, id);
  }

  lemma {:induction false} OldestIsLater(ack: Ack, rest: seq<Ack>, id: int)
    requires ack.id != id
    ensures var acks := [ack] + rest;
            && Oldest(acks, id) == 1 + Oldest(rest, id) && Matching(acks, id) == Matching(rest, id)
            && (Oldest(rest, id) < |rest| ==> acks[Oldest(acks, id)] == rest[Oldest(rest, id)])
            && Matching(WithoutOldest(acks, id), id) == Matching(WithoutOldest(rest, id), id)
            && Others(acks, id) == [ack] + Others(rest, id)
            && Others(WithoutOldest(acks, id), id) == [ack] + Others(WithoutOldest(rest, id), id)
  {
    FirstAck(ack, rest, id);
    OldestBehind(ack, rest, id);
    FirstAck(ack, WithoutOldest(rest, id), id);
    hide Oldest, Matching, Others, WithoutOldest;
  }

  /** The two clients treat an ack alike exactly if at most one outstanding ack has its id. */
  lemma {:induction false} SameInBothClients(acks: seq<Ack>, id: int)
    ensures WithoutOldest(acks, id) == Others(acks, id) <==> |Matching(acks, id)| <= 1
  {
    OldestFirst(acks, id);
    var rest := WithoutOldest(acks, id);
    if |Matching(acks, id)| <= 1 {
      NoMatchNoOther(rest, id);
    } else {
      PartitionSizes(acks, id);
    }
  }

  lemma {:induction false} NoMatchNoOther(acks: seq<Ack>, id: int)
    ensures Matching(acks, id) == [] ==> Others(acks, id) == acks
  {
    if acks != [] {
      NoMatchNoOther(acks[1..], id);
    }
  }

  // ----- conservation over runs -----

  datatype Operation = EmitWithAck(ack: Ack) | AckedAsync(id: int) | AckedSync(id: int)

  datatype Books = Books(registered: seq<Ack>, outstanding: seq<Ack>, consumed: seq<Ack>)

  function Step(b: Books, op: Operation): Books {
    match op
    case EmitWithAck(ack) => Books(b.registered + [ack], b.outstanding + [ack], b.consumed)
    case AckedAsync(id) =>
      b.(outstanding := Others(b.outstanding, id), consumed := b.consumed + Matching(b.outstanding, id))
    case AckedSync(id) =>
      var i := Oldest(b.outstanding, id);
      if i < |b.outstanding| then
        b.(outstanding := WithoutOldest(b.outstanding, id), consumed := b.consumed + [b.outstanding[i]])
      else b
  }

  function Run(b: Books, ops: seq<Operation>): Books
    decreases |ops|
  {
    if ops == [] then b else Run(Step(b, ops[0]), ops[1..])
  }

  ghost predicate Balanced(b: Books) {
    multiset(b.registered) == multiset(b.outstanding) + multiset(b.consumed)
  }

  lemma {:induction false} StepBalances(b: Books, op: Operation)
    requires Balanced(b)
    ensures Balanced(Step(b, op))
  {
    match op
    case EmitWithAck(ack) =>
    case AckedAsync(id) => PartitionSizes(b.outstanding, id);
    case AckedSync(id) =>
      var i := Oldest(b.outstanding, id);
      if i < |b.outstanding| {
        assert b.outstanding == b.outstanding[..i] + [b.outstanding[i]] + b.outstanding[i + 1..];
      }
  }

  lemma {:induction false} RunBalances(b: Books, ops: seq<Operation>)
    requires Balanced(b)
    ensures Balanced(Run(b, ops))
    decreases |ops|
  {
    if ops != [] {
      StepBalances(b, ops[0]);
      RunBalances(Step(b, ops[0]), ops[1..]);
    }
  }

  /**
   Over any run of emits and acks, every registered ack is either outstanding or consumed,
   and none is consumed more often than it was registered.
   */
  lemma {:induction false} AckConservation(ops: seq<Operation>)
    ensures var b := Run(Books([], [], []), ops);
            && multiset(b.registered) == multiset(b.outstanding) + multiset(b.consumed)
            && forall a :: multiset(b.consumed)[a] <= multiset(b.registered)[a]
  {
    RunBalances(Books([], [], []), ops);
  }
}
