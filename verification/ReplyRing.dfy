/** The agent's ring of 16 replies, and the update round that fills and drains it. */
module ReplyRing {
  import opened Wrappers
  import opened Messages
  import opened AgentTable

  const QUEUE_SIZE := 16

  /** How an agent answers the k-th addressed request of a round: reply text and binary. */
  type Executor = (nat, Request) -> (string, seq<bv8>)

  predicate Recognised(kind: Kind) { kind != Unknown }

  predicate Addressed(me: nat, r: Request) { me in r.idList }

  /** The slot a request fills; an unrecognised type leaves the message NULL. */
  function SlotFor(me: nat, r: Request, exec: Executor, k: nat): Option<Reply> {
    if Recognised(r.kind) then Some(Reply(me, r.kind, r.randomSeq, exec(k, r).0, exec(k, r).1)) else None
  }

  /** The slots that requests fill, one for each addressed request, in order. */
  function Slots(me: nat, reqs: seq<Request>, exec: Executor, k: nat): seq<Option<Reply>>
    decreases |reqs|
  {
    if reqs == [] then []
    else if Addressed(me, reqs[0]) then [SlotFor(me, reqs[0], exec, k)] + Slots(me, reqs[1..], exec, k + 1)
    else Slots(me, reqs[1..], exec, k)
  }

  function SentOne(slot: Option<Reply>): seq<Reply> {
    if slot.Some? then [slot.value] else []
  }

  /** What draining slots sends. */
  function Sent(slots: seq<Option<Reply>>): seq<Reply> {
    if slots == [] then [] else SentOne(slots[0]) + Sent(slots[1..])
  }

  /** With `sent` sent and `pending` still to come, draining `all` is on its way. */
  ghost predicate Underway(all: seq<Option<Reply>>, sent: seq<Reply>, pending: seq<Option<Reply>>) {
    Sent(all) == sent + Sent(pending)
  }

  lemma UnderwayStep(all: seq<Option<Reply>>, sent: seq<Reply>, slot: Option<Reply>, rest: seq<Option<Reply>>)
    requires Underway(all, sent, [slot] + rest)
    ensures Underway(all, sent + SentOne(slot), rest)
  {
    assert ([slot] + rest)[1..] == rest;
    assert Sent([slot] + rest) == SentOne(slot) + Sent(rest);
    hide Sent, SentOne;
    assert sent + (SentOne(slot) + Sent(rest)) == sent + SentOne(slot) + Sent(rest);
  }

  /** The requests that get a reply: addressed to this agent and of a recognised type. */
  function Served(me: nat, reqs: seq<Request>): seq<Request> {
    if reqs == [] then []
    else (if Addressed(me, reqs[0]) && Recognised(reqs[0].kind) then [reqs[0]] else []) + Served(me, reqs[1..])
  }

  /** A recognised request that finds the ring full. */
  datatype RingFault = NoSlot

  /** Does a round meet such a request, with `live` slots in use? */
  predicate RoundFaults(me: nat, reqs: seq<Request>, live: nat)
    decreases |reqs|
  {
    reqs != [] &&
    if !Addressed(me, reqs[0]) then RoundFaults(me, reqs[1..], live)
    else if live < QUEUE_SIZE - 1 then RoundFaults(me, reqs[1..], live + 1)
    else Recognised(reqs[0].kind) || RoundFaults(me, reqs[1..], live)
  }

  function AddressedCount(me: nat, reqs: seq<Request>): nat {
    if reqs == [] then 0 else (if Addressed(me, reqs[0]) then 1 else 0) + AddressedCount(me, reqs[1..])
  }

  /** A round fails exactly if some recognised addressed request comes after 15 other addressed ones. */
  lemma {:induction false} RoundFaultsIff(me: nat, reqs: seq<Request>, live: nat)
    requires live <= 15
    ensures RoundFaults(me, reqs, live) <==>
      exists i :: 0 <= i < |reqs| && me in reqs[i].idList && reqs[i].kind != Unknown
        && live + AddressedCount(me, reqs[..i]) >= 15
    decreases |reqs|
  {
    if reqs != [] {
      var live' := if Addressed(me, reqs[0]) && live < QUEUE_SIZE - 1 then live + 1 else live;
      RoundFaultsIff(me, reqs[1..], live');
      forall i | 0 < i < |reqs|
        ensures reqs[i] == reqs[1..][i - 1]
        ensures live + AddressedCount(me, reqs[..i]) >= QUEUE_SIZE - 1
          <==> live' + AddressedCount(me, reqs[1..][..i - 1]) >= QUEUE_SIZE - 1
      {
        assert reqs[..i][0] == reqs[0] && reqs[..i][1..] == reqs[1..][..i - 1];
      }
      assert AddressedCount(me, reqs[..0]) == 0;
      if RoundFaults(me, reqs[1..], live') {
        var j :| 0 <= j < |reqs[1..]| && Addressed(me, reqs[1..][j]) && Recognised(reqs[1..][j].kind)
          && live' + AddressedCount(me, reqs[1..][..j]) >= QUEUE_SIZE - 1;
        assert reqs[j + 1] == reqs[1..][j];
        assert live + AddressedCount(me, reqs[..j + 1]) >= QUEUE_SIZE - 1;
      }
    }
  }

  /** What the p-th request of a round, if it is addressed to this agent, leaves in its slot: the answer that the agent
      gives as the n-th addressed one, under its type and number; an unrecognised type leaves NULL. */
  lemma {:induction false} SlotAt(me: nat, reqs: seq<Request>, exec: Executor, k: nat, p: nat)
    requires p < |reqs| && me in reqs[p].idList
    ensures var slots, n, r := Slots(me, reqs, exec, k), AddressedCount(me, reqs[..p]), reqs[p];
      n < |slots| && slots[n] ==
        if r.kind == Unknown then None
        else Some(Reply(me, r.kind, r.randomSeq, exec(k + n, r).0, exec(k + n, r).1))
    decreases |reqs|
  {
    if p == 0 {
      assert AddressedCount(me, reqs[..0]) == 0;
    } else {
      assert reqs[..p][0] == reqs[0] && reqs[..p][1..] == reqs[1..][..p - 1];
      SlotAt(me, reqs[1..], exec, if Addressed(me, reqs[0]) then k + 1 else k, p - 1);
    }
  }

  /** There is one slot for each addressed request. */
  lemma {:induction false} SlotsCount(me: nat, reqs: seq<Request>, exec: Executor, k: nat)
    ensures |Slots(me, reqs, exec, k)| == AddressedCount(me, reqs)
    decreases |reqs|
  {
    if reqs != [] { SlotsCount(me, reqs[1..], exec, if Addressed(me, reqs[0]) then k + 1 else k); }
  }

  lemma {:induction false} SentConcat(a: seq<Option<Reply>>, b: seq<Option<Reply>>)
    ensures Sent(a + b) == Sent(a) + Sent(b)
  {
    if a == [] {
      assert a + b == b;
    } else {
      assert (a + b)[1..] == a[1..] + b;
      SentConcat(a[1..], b);
    }
  }

  /** What the first request of a round contributes; a request of an unrecognised type sends nothing, with or
      without a slot. */
  lemma SlotsFirst(me: nat, reqs: seq<Request>, exec: Executor, k: nat, live: seq<Option<Reply>>)
    requires reqs != []
    ensures var slot, r := SlotFor(me, reqs[0], exec, k), reqs[0];
      var k' := if Addressed(me, r) then k + 1 else k;
      var rest := Slots(me, reqs[1..], exec, k');
      && (!Addressed(me, r) ==> Sent(live + Slots(me, reqs, exec, k)) == Sent(live + [] + rest))
      && (Addressed(me, r) ==> Sent(live + Slots(me, reqs, exec, k)) == Sent(live + [slot] + rest))
      && (Addressed(me, r) && !Recognised(r.kind) ==> Sent(live + Slots(me, reqs, exec, k)) == Sent(live + [] + rest))
  {
    var slot, k' := SlotFor(me, reqs[0], exec, k), if Addressed(me, reqs[0]) then k + 1 else k;
    var rest := Slots(me, reqs[1..], exec, k');
    assert live + [] + rest == live + rest && live + [slot] + rest == live + ([slot] + rest);
    assert Sent([None]) == [];
    SentConcat(live, [slot] + rest);
    SentConcat([slot], rest);
    SentConcat(live, rest);
  }

  lemma SlotsNone(me: nat, exec: Executor, k: nat)
    ensures Slots(me, [], exec, k) == []
  {
  }

  predicate Matches(me: nat, r: Request, p: Reply) {
    p.deviceID == me && p.kind == r.kind && p.randomSeq == r.randomSeq
  }

  /** A round sends one reply for each served request, in arrival order, and none for any other. */
  lemma {:induction false} SentAnswersServed(me: nat, reqs: seq<Request>, exec: Executor, k: nat)
    ensures var sent, served := Sent(Slots(me, reqs, exec, k)), Served(me, reqs);
      |sent| == |served| && forall i | 0 <= i < |sent| :: Matches(me, served[i], sent[i])
    decreases |reqs|
  {
    if reqs != [] {
      var k' := if Addressed(me, reqs[0]) then k + 1 else k;
      SentAnswersServed(me, reqs[1..], exec, k');
      if Addressed(me, reqs[0]) {
        var slot, rest := SlotFor(me, reqs[0], exec, k), Slots(me, reqs[1..], exec, k');
        assert ([slot] + rest)[1..] == rest;
      }
    }
  }

  /** The slot k places behind the front of the window. */
  function Place(front: nat, k: nat): nat {
    if front + 1 + k < QUEUE_SIZE then front + 1 + k else front + 1 + k - QUEUE_SIZE
  }

  /** How far slot i is behind the front of the window. */
  function Offset(front: nat, i: int): int {
    if i > front then i - front - 1 else i + QUEUE_SIZE - front - 1
  }

  class Ring {
    const slots: array<Option<Reply>>  // None is a NULL message
    var front: nat
    var rear: nat
    ghost var live: seq<Option<Reply>>

    /** The live window holds `live` in order and every other slot except `hole` has a NULL message. */
    ghost predicate Window(hole: int)
      reads this, slots
    {
      && slots.Length == QUEUE_SIZE && front < QUEUE_SIZE && rear < QUEUE_SIZE
      && |live| == (if rear >= front then rear - front else rear + QUEUE_SIZE - front)
      && (forall k | 0 <= k < |live| :: live[k] == slots[Place(front, k)])
      && (forall i | 0 <= i < QUEUE_SIZE && i != hole && Offset(front, i) >= |live| :: slots[i] == None)
    }

    ghost predicate Valid()
      reads this, slots
    {
      Window(-1)
    }

    /** `datainfo_agent_init`: all messages are NULL. */
    constructor ()
      ensures Valid() && live == [] && fresh(slots)
    {
      slots := new Option<Reply>[QUEUE_SIZE](_ => None);
      front, rear, live := 0, 0, [];
    }

    /** `q_enqueue`: -1 exactly if 15 slots are live. The new slot's message is NULL. */
    method Enqueue() returns (idx: int)
      requires Valid()
      modifies this`rear, this`live
      ensures Valid()
      ensures idx == -1 <==> |old(live)| == QUEUE_SIZE - 1
      ensures if idx == -1 then live == old(live) else live == old(live) + [None] && idx == rear
    {
      if (rear + 1) % QUEUE_SIZE == front {
        return -1;
      }
      rear := (rear + 1) % QUEUE_SIZE;
      live := live + [None];
      idx := rear;
    }

    /** Writing the reply into the slot that was just enqueued. */
    method Fill(idx: nat, r: Option<Reply>)
      requires Valid() && live != [] && idx == rear
      modifies slots, this`live
      ensures Valid() && live == old(live[..|live| - 1]) + [r]
    {
      slots[idx] := r;
      live := live[..|live| - 1] + [r];
    }

    /** `q_dequeue`: -1 exactly if nothing is live. The dequeued slot still holds its message. */
    method Dequeue() returns (idx: int)
      requires Valid()
      modifies this`front, this`live
      ensures idx == -1 <==> old(live) == []
      ensures idx == -1 ==> Valid() && live == []
      ensures idx != -1 ==> 0 <= idx < QUEUE_SIZE && Window(idx) && slots[idx] == old(live)[0] && live == old(live)[1..]
      ensures idx != -1 ==> Offset(front, idx) >= |live|
    {
      if front == rear {
        return -1;
      }
      assert live[0] == slots[Place(front, 0)];
      front := (front + 1) % QUEUE_SIZE;
      live := live[1..];
      idx := front;
    }

    /** Clearing the message of a dequeued slot. */
    method ClearSlot(idx: nat)
      requires idx < QUEUE_SIZE && Window(idx) && Offset(front, idx) >= |live|
      modifies slots
      ensures Valid()
    {
      slots[idx] := None;
    }

    /** Sending the message of a dequeued slot, if it has one, and clearing it. */
    method SendSlot(idx: nat) returns (out: seq<Reply>)
      requires idx < QUEUE_SIZE && Window(idx) && Offset(front, idx) >= |live|
      modifies slots
      ensures Valid() && out == SentOne(old(slots[idx]))
    {
      out := if slots[idx].Some? then [slots[idx].value] else [];
      ClearSlot(idx);
    }

    /** `datainfo_agent_send_data`: sends every live reply once, oldest first, and leaves the ring empty. */
    method SendData() returns (sent: seq<Reply>)
      requires Valid()
      modifies this`front, this`live, slots
      ensures Valid() && live == [] && sent == Sent(old(live))
    {
      assert slots.Length == QUEUE_SIZE;
      hide Offset, Place, Window, Sent, SentOne, Underway;
      sent := [];
      ghost var all, pending := live, live;
      var idx := Dequeue();
      while idx != -1
        invariant if idx == -1 then Valid() && live == [] && pending == []
          else 0 <= idx < QUEUE_SIZE && Window(idx) && Offset(front, idx) >= |live| && pending == [slots[idx]] + live
        invariant Underway(all, sent, pending)
        decreases idx != -1, |live|
      {
        UnderwayStep(all, sent, slots[idx], live);
        pending := live;
        var out := SendSlot(idx);
        sent := sent + out;
        idx := Dequeue();
      }
    }

    /** `recv_request` as far as the ring goes. If all 15 usable slots are live, an unrecognised type does no
        harm, and a recognised one is written with the index -1, at which the source does not look. */
    method RecvRequest(me: nat, r: Request, exec: Executor, k: nat) returns (ret: Result<int, RingFault>)
      requires Valid()
      modifies this`rear, this`live, slots
      ensures Valid()
      ensures ret.Err? <==> Addressed(me, r) && Recognised(r.kind) && |old(live)| == QUEUE_SIZE - 1
      ensures ret.Ok? ==> ret.value == if Addressed(me, r) && Recognised(r.kind) then 0 else 1
      ensures ret.Ok? ==>
        live == old(live) + if Addressed(me, r) && |old(live)| < QUEUE_SIZE - 1 then [SlotFor(me, r, exec, k)] else []
    {
      var found := FindId(r.idList, me);
      if found.None? {
        return Ok(1);
      }
      var idx := Enqueue();
      if !Recognised(r.kind) {
        return Ok(1);
      }
      if idx == -1 {
        return Err(NoSlot);
      }
      var (msg, binary) := exec(k, r);
      Fill(idx, Some(Reply(me, r.kind, r.randomSeq, msg, binary)));
      ret := Ok(0);
    }

    /** `datainfo_agent_update`: take all waiting requests, then send all replies. */
    method Update(me: nat, reqs: seq<Request>, exec: Executor) returns (sent: Result<seq<Reply>, RingFault>)
      requires Valid() && live == []
      modifies this, slots
      ensures sent.Err? <==> RoundFaults(me, reqs, 0)
      ensures sent.Ok? ==> Valid() && live == [] && sent.value == Sent(Slots(me, reqs, exec, 0))
    {
      hide Sent, Slots, Window, Offset, Place;
      var k := 0;
      assert reqs[0..] == reqs && live + Slots(me, reqs, exec, 0) == Slots(me, reqs, exec, 0);
      for i := 0 to |reqs|
        invariant Valid() && |live| < QUEUE_SIZE
        invariant RoundFaults(me, reqs, 0) == RoundFaults(me, reqs[i..], |live|)
        invariant Sent(Slots(me, reqs, exec, 0)) == Sent(live + Slots(me, reqs[i..], exec, k))
      {
        assert reqs[i..][0] == reqs[i] && reqs[i..][1..] == reqs[i + 1..];
        SlotsFirst(me, reqs[i..], exec, k, live);
        var ret := RecvRequest(me, reqs[i], exec, k);
        if ret.Err? {
          return Err(NoSlot);
        }
        k := if Addressed(me, reqs[i]) then k + 1 else k;
      }
      SlotsNone(me, exec, k);
      assert live + [] == live;
      var replies := SendData();
      sent := Ok(replies);
    }
  }
}
