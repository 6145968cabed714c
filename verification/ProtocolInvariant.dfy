/** Every step of the protocol keeps its invariant, so every run does. */
module ProtocolInvariant {
  import opened Collections
  import opened Messages
  import opened Devices
  import opened Transfer
  import opened Protocol

  // ----- messages -----

  lemma FillKeeps(s: Sys, req: Request)
    requires MessagesSane(s) && req.randomSeq !in s.sent
    ensures MessagesSane(DoFill(s, req))
  {
    hide OpenOf;
  }

  /** What a broadcast changes. */
  lemma BroadcastFrame(s: Sys, q: nat, reach: set<nat>)
    requires Enabled(s, Broadcast(q, reach))
    ensures var t, r, ids := DoBroadcast(s, q, reach), s.sent[Written(s, q)], s.sent[q].idList;
      && t.timeout == s.timeout && t.now == s.now && t.sent == s.sent && t.buf == s.buf && t.copies == s.copies
      && t.open == s.open - {q} && t.inbox == Deliver(s.inbox, reach, r)
      && t.ring == s.ring && t.net == s.net && t.got == s.got
      && t.calls == (if CallKind(s.sent[q].kind) then s.calls[q := s.now] else s.calls)
      && if TransferKind(s.sent[q].kind)
         then t.devices == MarkRunning(s.devices, ids) && t.xfer == Stat(true, s.now, r.kind, r.randomSeq, ids, 0)
              && t.allocs == [] && t.kept == RegisteredOf(s.devices, ids)
         else t.devices == s.devices && t.xfer == s.xfer && t.allocs == s.allocs && t.kept == s.kept
  {
    hide Deliver, MarkRunning, RegisteredOf;
  }

  /** What the other steps leave alone. */
  lemma OtherFrame(s: Sys, e: Step)
    requires Enabled(s, e) && !e.Fill? && !e.Broadcast?
    ensures var t := Next(s, e);
      && t.sent == s.sent && t.buf == s.buf && t.copies == s.copies && t.open == s.open
      && (t.xfer.running ==> s.xfer.running)
  {
    hide Drop, Sweep, AcceptDevices, RegisteredOf;
  }

  lemma DeliverKeeps(s: Sys, t: Sys, reach: set<nat>, r: Request)
    requires RequestsSane(s) && r.randomSeq in s.sent && s.sent[r.randomSeq] == r
    requires t.sent == s.sent && t.inbox == Deliver(s.inbox, reach, r)
    ensures RequestsSane(t)
  {
    forall id | id in t.inbox
      ensures forall i | 0 <= i < |t.inbox[id]| ::
        t.inbox[id][i].randomSeq in s.sent && s.sent[t.inbox[id][i].randomSeq] == t.inbox[id][i]
    {
      assert t.inbox[id] == In(s, id) + if id in reach then [r] else [];
    }
  }

  lemma BroadcastKeeps(s: Sys, q: nat, reach: set<nat>)
    requires MessagesSane(s) && BuffersSane(s) && Enabled(s, Broadcast(q, reach))
    ensures MessagesSane(DoBroadcast(s, q, reach))
  {
    var t, r := DoBroadcast(s, q, reach), s.sent[Written(s, q)];
    assert r.randomSeq in s.sent && s.sent[r.randomSeq] == r;
    BroadcastFrame(s, q, reach);
    hide DoBroadcast, Answers, BuffersSane, Enabled, Deliver, RequestsSane, MarkRunning, RegisteredOf;
    DeliverKeeps(s, t, reach, r);
  }

  lemma ExecuteKeepsRing(s: Sys, id: nat, i: nat, msg: string, binary: seq<bv8>)
    requires RequestsSane(s) && RingsSane(s) && i < |In(s, id)|
    ensures RingsSane(DoExecute(s, id, i, msg, binary))
  {
    var r := In(s, id)[i];
    assert r.randomSeq in s.sent && s.sent[r.randomSeq] == r;
    hide Drop, RequestsSane;
  }

  lemma ExecuteKeeps(s: Sys, id: nat, i: nat, msg: string, binary: seq<bv8>)
    requires MessagesSane(s) && i < |In(s, id)|
    ensures MessagesSane(DoExecute(s, id, i, msg, binary))
  {
    ExecuteKeepsRing(s, id, i, msg, binary);
    hide RequestsSane, RingsSane, Answers, Drop;
  }

  lemma SendKeeps(s: Sys, id: nat)
    requires MessagesSane(s) && Ring(s, id) != []
    ensures MessagesSane(DoSendReply(s, id))
  {
    hide Answers;
  }

  lemma TakeKeeps(s: Sys, s': Sys, q: nat, i: nat, ok: bool)
    requires MessagesSane(s) && i < |s.net| && s.net[i].randomSeq == q
    requires s'.net == Drop(s.net, i) && s'.got == Accepted(s, q, s.net[i], ok)
    requires s'.sent == s.sent && s'.inbox == s.inbox && s'.ring == s.ring
    ensures MessagesSane(s')
  {
    assert Answers(s.sent, s.net[i]);
    assert forall j | 0 <= j < |s.net| - 1 :: Drop(s.net, i)[j] == s.net[if j < i then j else j + 1];
    hide Drop;
  }

  lemma SameKeeps(s: Sys, t: Sys)
    requires MessagesSane(s) && t.sent == s.sent && t.inbox == s.inbox && t.ring == s.ring && t.net == s.net
      && t.got == s.got
    ensures MessagesSane(t)
  {
  }

  lemma MessagesKept(s: Sys, e: Step)
    requires MessagesSane(s) && BuffersSane(s) && Enabled(s, e)
    ensures MessagesSane(Next(s, e))
  {
    hide MessagesSane, BuffersSane, Drop, Accepted, Current, Sweep, AcceptDevices, RegisteredOf;
    match e {
      case Fill(req) => FillKeeps(s, req);
      case Broadcast(q, reach) => BroadcastKeeps(s, q, reach);
      case Execute(id, i, msg, binary) => ExecuteKeeps(s, id, i, msg, binary);
      case SendReply(id) => SendKeeps(s, id);
      case Collect(q, i) => TakeKeeps(s, Next(s, e), q, i, s.net[i].kind == s.sent[q].kind && Current(s, q));
      case Poll(i, m) => TakeKeeps(s, Next(s, e), s.xfer.randomSeq, i, ForTransfer(s.xfer, s.net[i]));
      case _ => SameKeeps(s, Next(s, e));
    }
  }

  // ----- copies -----

  /** A fresh sequence number is nowhere. */
  lemma FreshTotal(s: Sys, q: nat, id: nat)
    requires MessagesSane(s) && q !in s.sent
    ensures Total(s, q, id) == 0
  {
    ReqsZero(In(s, id), q);
    RepsZero(Ring(s, id), q, id);
    RepsZero(s.net, q, id);
  }

  lemma DeliverTotal(s: Sys, t: Sys, reach: set<nat>, r: Request, q: nat, id: nat)
    requires t.inbox == Deliver(s.inbox, reach, r) && t.ring == s.ring && t.net == s.net && t.got == s.got
    ensures Total(t, q, id) <= Total(s, q, id) + if r.randomSeq == q then 1 else 0
  {
    assert In(t, id) == In(s, id) + if id in reach then [r] else [];
    ReqsConcat(In(s, id), if id in reach then [r] else [], q);
  }

  lemma BroadcastTotal(s: Sys, q0: nat, reach: set<nat>, q: nat, id: nat)
    requires Enabled(s, Broadcast(q0, reach)) && BuffersSane(s)
    ensures Total(DoBroadcast(s, q0, reach), q, id) <= Total(s, q, id) + if Written(s, q0) == q then 1 else 0
  {
    var r := s.sent[Written(s, q0)];
    assert r.randomSeq == Written(s, q0);
    BroadcastFrame(s, q0, reach);
    hide DoBroadcast, In, Deliver, BuffersSane, Total, MarkRunning, RegisteredOf;
    DeliverTotal(s, DoBroadcast(s, q0, reach), reach, r, q, id);
  }

  lemma ExecuteTotal(s: Sys, me: nat, i: nat, msg: string, binary: seq<bv8>, q: nat, id: nat)
    requires i < |In(s, me)|
    ensures Total(DoExecute(s, me, i, msg, binary), q, id) <= Total(s, q, id)
  {
    var s', r := DoExecute(s, me, i, msg, binary), In(s, me)[i];
    var reply := Reply(me, r.kind, r.randomSeq, msg, binary);
    assert In(s', id) == if id == me then Drop(In(s, me), i) else In(s, id);
    assert Ring(s', id) == Ring(s, id) || (id == me && Ring(s', id) == Ring(s, id) + [reply]);
    assert Reps([reply], q, id) == if r.randomSeq == q && id == me then 1 else 0;
    hide DoExecute, In, Ring, Reqs, Reps;
    if id == me {
      ReqsDrop(In(s, me), i, q);
      RepsConcat(Ring(s, me), [reply], q, id);
    }
  }

  lemma SendTotal(s: Sys, me: nat, q: nat, id: nat)
    requires RingsSane(s) && Ring(s, me) != []
    ensures Total(DoSendReply(s, me), q, id) <= Total(s, q, id)
  {
    assert Ring(s, me)[0].deviceID == me;
    RepsConcat(s.net, [Ring(s, me)[0]], q, id);
  }

  lemma TakeTotal(s: Sys, s': Sys, q0: nat, i: nat, ok: bool, q: nat, id: nat)
    requires i < |s.net| && s.net[i].randomSeq == q0
    requires s'.net == Drop(s.net, i) && s'.got == Accepted(s, q0, s.net[i], ok)
    requires s'.inbox == s.inbox && s'.ring == s.ring
    ensures Total(s', q, id) <= Total(s, q, id)
  {
    RepsDrop(s.net, i, q, id);
    RepsConcat(Got(s, q), [s.net[i]], q, id);
  }

  lemma SameTotal(s: Sys, s': Sys, q: nat, id: nat)
    requires s'.inbox == s.inbox && s'.ring == s.ring && s'.net == s.net && s'.got == s.got
    ensures Total(s', q, id) == Total(s, q, id)
  {
  }

  /** The number that a step writes. */
  function Writes(s: Sys, e: Step, q: nat): nat
    requires Enabled(s, e)
  {
    if e.Broadcast? && Written(s, e.q) == q then 1 else 0
  }

  /** Only writing a request adds to what is present. */
  lemma TotalStep(s: Sys, e: Step, q: nat, id: nat)
    requires MessagesSane(s) && BuffersSane(s) && Enabled(s, e)
    ensures Total(Next(s, e), q, id) <= Total(s, q, id) + Writes(s, e, q)
  {
    hide Total, In, Ring, Got, RequestsSane, NetSane, GotSane, Drop, Deliver, Current, Accepted, BuffersSane,
      OpenOf;
    var s' := Next(s, e);
    match e {
      case Broadcast(q0, reach) => BroadcastTotal(s, q0, reach, q, id);
      case Execute(me, i, msg, binary) => ExecuteTotal(s, me, i, msg, binary, q, id);
      case SendReply(me) => SendTotal(s, me, q, id);
      case Collect(q0, i) => TakeTotal(s, s', q0, i, s.net[i].kind == s.sent[q0].kind && Current(s, q0), q, id);
      case Poll(i, m) => TakeTotal(s, s', s.xfer.randomSeq, i, ForTransfer(s.xfer, s.net[i]), q, id);
      case _ => SameTotal(s, s', q, id);
    }
  }

  /** Requests that were filled stay, and how often they can be written is settled then. */
  lemma SentStays(s: Sys, e: Step, q: nat)
    requires Enabled(s, e) && q in s.sent
    ensures q in Next(s, e).sent && Next(s, e).sent[q] == s.sent[q] && Copies(Next(s, e), q) == Copies(s, q)
  {
    hide Deliver, MarkRunning, RegisteredOf, AcceptDevices, Sweep, Drop, In, Ring, Current, OpenOf;
  }

  /** A number that is filled is fresh, and a call that writes has filled. */
  lemma EnabledFacts(s: Sys, e: Step)
    requires Enabled(s, e)
    ensures e.Fill? ==> e.req.randomSeq !in s.sent
    ensures e.Broadcast? ==> e.q in s.open && e.q in s.sent
  {
  }

  /** The open calls of a function change only when one of them fills or writes. */
  lemma OpenAfter(s: Sys, e: Step, k: Kind)
    requires Enabled(s, e)
    ensures e.Fill? && e.req.kind == k ==>
      OpenOf(Next(s, e), k) == OpenOf(s, k) + {e.req.randomSeq} && e.req.randomSeq !in OpenOf(s, k)
    ensures e.Broadcast? && s.sent[e.q].kind == k ==>
      OpenOf(Next(s, e), k) == OpenOf(s, k) - {e.q} && e.q in OpenOf(s, k)
    ensures !(e.Fill? && e.req.kind == k) && !(e.Broadcast? && s.sent[e.q].kind == k) ==>
      OpenOf(Next(s, e), k) == OpenOf(s, k)
  {
    hide Next, Enabled, CallsOf;
    EnabledFacts(s, e);
    StepFrame(s, e);
    match e {
      case Fill(req) => CallsOfFill(s.open, s.sent, req, k);
      case Broadcast(q, _) => CallsOfWrite(s.open, s.sent, q, k);
      case _ =>
    }
  }

  lemma CallsOfFill(qs: set<nat>, sent: map<nat, Request>, req: Request, k: Kind)
    requires req.randomSeq !in sent
    ensures var qs', sent' := qs + {req.randomSeq}, sent[req.randomSeq := req];
      CallsOf(qs', sent', k) == CallsOf(qs, sent, k) + if req.kind == k then {req.randomSeq} else {}
    ensures req.randomSeq !in CallsOf(qs, sent, k)
  {
  }

  lemma CallsOfWrite(qs: set<nat>, sent: map<nat, Request>, q: nat, k: Kind)
    requires q in qs && q in sent
    ensures CallsOf(qs - {q}, sent, k) == if sent[q].kind == k then CallsOf(qs, sent, k) - {q} else CallsOf(qs, sent, k)
    ensures sent[q].kind == k ==> q in CallsOf(qs, sent, k)
  {
  }

  /** What a step does to requests, static requests and open calls. */
  lemma StepFrame(s: Sys, e: Step)
    requires Enabled(s, e)
    ensures var t := Next(s, e);
      && t.sent == (if e.Fill? then s.sent[e.req.randomSeq := e.req] else s.sent)
      && t.buf == (if e.Fill? then s.buf[e.req.kind := e.req.randomSeq] else s.buf)
      && t.open == (if e.Fill? then s.open + {e.req.randomSeq} else if e.Broadcast? then s.open - {e.q} else s.open)
  {
    if e.Broadcast? { BroadcastFrame(s, e.q, e.reach); } else if !e.Fill? { OtherFrame(s, e); }
    hide DoBroadcast, OpenOf;
  }

  /** Every write of a request uses up one of its pending writes. */
  lemma PendingStep(s: Sys, e: Step, q: nat)
    requires BuffersSane(s) && OpenSane(s) && Enabled(s, e) && q in s.sent
    ensures Pending(Next(s, e), q) + Writes(s, e, q) <= Pending(s, q)
  {
    hide OpenOf, Next, OpenSane;
    OpenAfter(s, e, s.sent[q].kind);
    StepFrame(s, e);
  }

  /** If a request can be written only once, the call that writes it is its own, and nothing of it is present. */
  lemma WritesOwn(s: Sys, q: nat)
    requires BuffersSane(s) && OpenSane(s) && Enabled(s, Broadcast(q, {})) && !Doubled(s, Written(s, q))
    ensures Written(s, q) == q && Pending(s, q) == 1 == Copies(s, q)
    ensures OpenOf(s, s.sent[q].kind) == {q}
  {
    var k, w := s.sent[q].kind, Written(s, q);
    assert q in OpenOf(s, k) && w in s.sent && s.sent[w].kind == k;
    SubsetSize({q}, OpenOf(s, k));
    assert w in s.open ==> w in OpenOf(s, k);
    hide OpenOf;
  }

  lemma FillBounded(s: Sys, req: Request, id: nat)
    requires MessagesSane(s) && OpenSane(s) && Enabled(s, Fill(req))
    ensures var t, q := DoFill(s, req), req.randomSeq; Total(t, q, id) + Pending(t, q) == Copies(t, q)
  {
    var t, q := DoFill(s, req), req.randomSeq;
    assert t.sent == s.sent[q := req] && Current(t, q) && Copies(t, q) == |OpenOf(s, req.kind)| + 1;
    SameTotal(s, t, q, id);
    hide OpenOf, Total, Enabled, DoFill, Copies, Current;
    FreshTotal(s, q, id);
    OpenAfter(s, Fill(req), req.kind);
  }

  lemma BoundedStep(s: Sys, e: Step, q: nat, id: nat)
    requires MessagesSane(s) && Bounded(s) && BuffersSane(s) && OpenSane(s) && Enabled(s, e)
    ensures Total(Next(s, e), q, id) + Pending(Next(s, e), q) <= Copies(Next(s, e), q)
  {
    assert Total(s, q, id) + Pending(s, q) <= Copies(s, q);
    hide Total, Pending, Copies, MessagesSane;
    if q in s.sent {
      TotalStep(s, e, q, id);
      PendingStep(s, e, q);
      SentStays(s, e, q);
    } else if e.Fill? && e.req.randomSeq == q {
      FillBounded(s, e.req, id);
    } else {
      StaysFresh(s, e, q);
      MessagesKept(s, e);
      FreshTotal(Next(s, e), q, id);
    }
  }

  lemma StaysFresh(s: Sys, e: Step, q: nat)
    requires OpenSane(s) && Enabled(s, e) && q !in s.sent && !(e.Fill? && e.req.randomSeq == q)
    ensures q !in Next(s, e).sent && Pending(Next(s, e), q) == 0 == Copies(Next(s, e), q)
  {
    if e.Broadcast? { BroadcastFrame(s, e.q, e.reach); } else if !e.Fill? { OtherFrame(s, e); }
    hide DoBroadcast, OpenOf;
  }

  lemma BoundedKept(s: Sys, e: Step)
    requires MessagesSane(s) && Bounded(s) && BuffersSane(s) && OpenSane(s) && Enabled(s, e)
    ensures Bounded(Next(s, e))
  {
    forall q: nat, id: nat ensures Total(Next(s, e), q, id) + Pending(Next(s, e), q) <= Copies(Next(s, e), q) {
      BoundedStep(s, e, q, id);
    }
  }

  // ----- exchanges -----

  lemma CallsKept(s: Sys, e: Step)
    requires CallsSane(s) && Enabled(s, e)
    ensures CallsSane(Next(s, e))
  {
    if e.Broadcast? { BroadcastFrame(s, e.q, e.reach); }
    hide DoBroadcast, Deliver, RegisteredOf, AcceptDevices, Sweep, Drop, In, Ring, Current;
  }

  lemma BuffersKept(s: Sys, e: Step)
    requires BuffersSane(s) && Enabled(s, e)
    ensures BuffersSane(Next(s, e))
  {
    if e.Broadcast? {
      BroadcastFrame(s, e.q, e.reach);
    } else if !e.Fill? {
      OtherFrame(s, e);
      hide Next, Enabled;
    }
    hide DoBroadcast;
  }

  lemma OpenKept(s: Sys, e: Step)
    requires BuffersSane(s) && OpenSane(s) && Enabled(s, e)
    ensures OpenSane(Next(s, e))
  {
    hide Next, OpenOf, BuffersSane, Enabled;
    StepFrame(s, e);
    CopiesFrame(s, e);
    EnabledFacts(s, e);
    forall k | k in Next(s, e).buf ensures WritesLeft(Next(s, e), k) { WritesLeftKept(s, e, k); }
  }

  lemma WritesLeftKept(s: Sys, e: Step, k: Kind)
    requires BuffersSane(s) && Enabled(s, e) && (k in s.buf ==> WritesLeft(s, k)) && k in Next(s, e).buf
    ensures WritesLeft(Next(s, e), k)
  {
    StepFrame(s, e);
    CopiesFrame(s, e);
    OpenAfter(s, e, k);
    hide Next, OpenOf, Enabled;
  }

  lemma CopiesFrame(s: Sys, e: Step)
    requires Enabled(s, e)
    ensures Next(s, e).copies ==
      if e.Fill? then s.copies[e.req.randomSeq := |OpenOf(s, e.req.kind)| + 1] else s.copies
  {
    if e.Broadcast? { BroadcastFrame(s, e.q, e.reach); } else if !e.Fill? { OtherFrame(s, e); }
    hide DoBroadcast, OpenOf;
  }

  /** Nothing has been accepted under a number all of whose copies are still to be written. */
  lemma UnsentGot(s: Sys, q: nat)
    requires GotSane(s) && Bounded(s) && Pending(s, q) == Copies(s, q)
    ensures Got(s, q) == []
  {
    var got := Got(s, q);
    assert got != [] ==> Reps(got, q, got[0].deviceID) >= 1;
    assert got != [] ==> Total(s, q, got[0].deviceID) + Pending(s, q) <= Copies(s, q);
  }

  lemma StartKeeps(s: Sys, q: nat, reach: set<nat>)
    requires GotSane(s) && Bounded(s) && ExchangesSane(s) && Enabled(s, Broadcast(q, reach))
    requires TransferKind(s.sent[q].kind)
    ensures TransferSane(DoBroadcast(s, q, reach))
  {
    if !Doubled(s, Written(s, q)) {
      WritesOwn(s, q);
      UnsentGot(s, q);
    }
    BroadcastFrame(s, q, reach);
    hide DoBroadcast, Deliver, MarkRunning, RegisteredOf, OpenSane, GotSane, OpenOf;
  }

  lemma CallKeeps(s: Sys, q: nat, reach: set<nat>)
    requires TransferSane(s) && Enabled(s, Broadcast(q, reach)) && !TransferKind(s.sent[q].kind)
    ensures TransferSane(DoBroadcast(s, q, reach))
  {
    BroadcastFrame(s, q, reach);
    hide DoBroadcast, Deliver, MarkRunning, RegisteredOf;
  }

  lemma PollKeeps(s: Sys, i: nat, m: Malloc)
    requires TransferSane(s) && Enabled(s, Poll(i, m))
    ensures TransferSane(DoPoll(s, i, m))
  {
    hide Drop, AcceptDevices;
  }

  lemma TransferKept(s: Sys, e: Step)
    requires GotSane(s) && Bounded(s) && ExchangesSane(s) && Enabled(s, e)
    ensures TransferSane(Next(s, e))
  {
    match e {
      case Broadcast(q, reach) =>
        if TransferKind(s.sent[q].kind) { StartKeeps(s, q, reach); } else { CallKeeps(s, q, reach); }
      case Poll(i, m) => PollKeeps(s, i, m);
      case _ => QuietKeeps(s, e);
    }
  }

  lemma QuietKeeps(s: Sys, e: Step)
    requires CallsSane(s) && TransferSane(s) && Enabled(s, e) && !e.Broadcast? && !e.Poll?
    ensures TransferSane(Next(s, e))
  {
    var t := Next(s, e);
    if s.xfer.running { SentStays(s, e, s.xfer.randomSeq); }
    if !e.Timeout? && !e.Finish? && !e.Admin? { QuietFrame(s, e); }
    hide RegisteredOf, Drop, In, Ring, Current, CallsSane, Doubled, Accepted, Got, Sweep;
  }

  /** Steps that are not of the transfer leave record, registry and the transfer's replies alone. */
  lemma QuietFrame(s: Sys, e: Step)
    requires CallsSane(s) && TransferSane(s) && Enabled(s, e)
    requires !e.Timeout? && !e.Finish? && !e.Poll? && !e.Admin? && (e.Broadcast? ==> !TransferKind(s.sent[e.q].kind))
    ensures var t := Next(s, e);
      && t.devices == s.devices && t.xfer == s.xfer && t.allocs == s.allocs && t.kept == s.kept
      && (s.xfer.running ==> Got(t, s.xfer.randomSeq) == Got(s, s.xfer.randomSeq))
  {
    hide Deliver, MarkRunning, RegisteredOf, Drop, Current, OpenOf;
  }

  lemma ExchangesKept(s: Sys, e: Step)
    requires GotSane(s) && Bounded(s) && ExchangesSane(s) && Enabled(s, e)
    ensures ExchangesSane(Next(s, e))
  {
    CallsKept(s, e);
    BuffersKept(s, e);
    OpenKept(s, e);
    TransferKept(s, e);
  }

  // ----- statuses -----

  /** A device whose reply is in flight has not replied before. */
  lemma NotYetReplied(s: Sys, i: nat, r: Reply)
    requires Bounded(s) && i < |s.net| && !Doubled(s, s.net[i].randomSeq)
    requires r in Got(s, s.net[i].randomSeq) && r.randomSeq == s.net[i].randomSeq
    ensures r.deviceID != s.net[i].deviceID
  {
    var n, got := s.net[i], Got(s, s.net[i].randomSeq);
    if r.deviceID == n.deviceID {
      assert Total(s, n.randomSeq, n.deviceID) <= 1;
      RepsPositive(s.net, i);
      var k :| 0 <= k < |got| && got[k] == r;
      RepsPositive(got, k);
    }
  }

  /** What a reply that is polled leaves for a device of the list. */
  lemma PollReads(s: Sys, i: nat, m: Malloc, id: nat)
    requires Inv(s) && Enabled(s, Poll(i, m)) && !Doubled(s, s.xfer.randomSeq) && id in s.kept
    ensures var t := DoPoll(s, i, m);
      && |Got(t, s.xfer.randomSeq)| == |t.allocs|
      && Registered(t.devices, id) && Reads(t.devices, id, Got(t, s.xfer.randomSeq), t.allocs)
  {
    var r, q := s.net[i], s.xfer.randomSeq;
    assert Answers(s.sent, r) && ForTransfer(s.xfer, r) && (r.kind == Import || r.kind == Export);
    assert Got(DoPoll(s, i, m), q) == Got(s, q) + [r];
    forall k | 0 <= k < |Got(s, q)| ensures Got(s, q)[k].deviceID != r.deviceID {
      GotNumber(s, q, Got(s, q)[k]);
      NotYetReplied(s, i, Got(s, q)[k]);
    }
    assert |Got(s, q)| == |s.allocs| && Reads(s.devices, id, Got(s, q), s.allocs);
    hide Inv, Got, Accepted, Reads;
    AcceptReads(s.devices, s.xfer, r, m, id, Got(s, q), s.allocs);
  }

  lemma AcceptReads(ds: seq<Device>, x: Stat, r: Reply, m: Malloc, id: nat, got: seq<Reply>, allocs: seq<Malloc>)
    requires r.kind == x.kind && r.randomSeq == x.randomSeq && TransferKind(r.kind)
    requires Registered(ds, id) && |got| == |allocs| && Reads(ds, id, got, allocs)
    requires forall i | 0 <= i < |got| :: got[i].deviceID != r.deviceID
    ensures var ds' := AcceptDevices(ds, x, r, m);
      Registered(ds', id) && Reads(ds', id, got + [r], allocs + [m])
  {
    OtherReply(ds, x, r, m, id);
    ReplyOutcome(ds, x, r, m);
    var (st, res) := GetStatus(AcceptDevices(ds, x, r, m), id);
    assert id == r.deviceID ==> OutcomeOf(r, m, st, res);
    assert forall i | 0 <= i < |got| :: (got + [r])[i] == got[i] && (allocs + [m])[i] == allocs[i];
    assert (got + [r])[|got|] == r && (allocs + [m])[|got|] == m;
    hide AcceptDevices, GetStatus, Registered, OutcomeOf;
  }

  lemma GotNumber(s: Sys, q: nat, p: Reply)
    requires GotSane(s) && p in Got(s, q)
    ensures p.randomSeq == q
  {
  }

  lemma PollStatuses(s: Sys, i: nat, m: Malloc)
    requires Inv(s) && Enabled(s, Poll(i, m))
    ensures StatusesSane(DoPoll(s, i, m))
  {
    var r, t := s.net[i], DoPoll(s, i, m);
    assert Answers(s.sent, r) && ForTransfer(s.xfer, r);
    SetStatusCommutes(s.devices, r.deviceID, StatusOf(r, m), ResultOf(r, m));
    hide Unique, SetStatus, Registered, Reads, Bounded, MessagesSane, ExchangesSane, Accepted;
    if !Doubled(s, s.xfer.randomSeq) {
      assert |Got(t, s.xfer.randomSeq)| == |t.allocs|;
      forall id | id in s.kept
        ensures Registered(t.devices, id) && Reads(t.devices, id, Got(t, s.xfer.randomSeq), t.allocs)
      {
        PollReads(s, i, m, id);
      }
    }
  }

  lemma AdminStatuses(s: Sys, op: Op)
    requires Inv(s) && (op.Announce? || op.Lose?)
    ensures StatusesSane(DoAdmin(s, op))
  {
    var ds, ds' := s.devices, DoAdmin(s, op).devices;
    hide Devices.Apply, Registered, Reads, Unique, MessagesSane, Bounded, ExchangesSane;
    AdminUnique(ds, op);
    var got, allocs := Got(s, s.xfer.randomSeq), s.allocs;
    if |got| == |allocs| {
      forall id | Registered(ds, id) && Registered(ds', id) && Reads(ds, id, got, allocs)
        ensures Reads(ds', id, got, allocs)
      {
        AdminReads(ds, op, id, got, allocs);
      }
    }
  }

  lemma AdminUnique(ds: seq<Device>, op: Op)
    requires Unique(ds) && (op.Announce? || op.Lose?)
    ensures Unique(Devices.Apply(ds, op))
  {
    match op {
      case Announce(info, handle, junk) => AddCommutes(ds, info, handle, junk);
      case Lose(sel) => RemoveCommutes(ds, sel);
    }
  }

  lemma AdminReads(ds: seq<Device>, op: Op, id: nat, got: seq<Reply>, allocs: seq<Malloc>)
    requires Unique(ds) && (op.Announce? || op.Lose?) && |got| == |allocs| && Reads(ds, id, got, allocs)
    requires Registered(ds, id) && Registered(Devices.Apply(ds, op), id)
    ensures Reads(Devices.Apply(ds, op), id, got, allocs)
  {
    match op {
      case Announce(info, handle, junk) => StatusAfterAdd(ds, info, handle, junk, id);
      case Lose(sel) => StatusAfterRemove(ds, sel, id);
    }
    hide GetStatus, OutcomeOf;
  }

  lemma StartStatuses(s: Sys, q: nat, reach: set<nat>)
    requires Inv(s) && Enabled(s, Broadcast(q, reach)) && TransferKind(s.sent[q].kind)
    ensures StatusesSane(DoBroadcast(s, q, reach))
  {
    var ids, t := s.sent[q].idList, DoBroadcast(s, q, reach);
    BroadcastFrame(s, q, reach);
    MarkUnique(s.devices, ids);
    if !Doubled(s, Written(s, q)) {
      WritesOwn(s, q);
      UnsentGot(s, q);
      hide Unique, MarkRunning, DoBroadcast, OpenSane, MessagesSane, Bounded, Deliver, OpenOf;
      assert Got(t, q) == [];
      forall id | id in ids && Registered(s.devices, id)
        ensures Registered(t.devices, id) && GetStatus(t.devices, id).0 == Running
      {
        StatusAfterMark(s.devices, ids, id);
      }
    }
  }

  lemma EndStatuses(s: Sys, e: Step)
    requires Inv(s) && Enabled(s, e) && (e.Timeout? || e.Finish?)
    ensures StatusesSane(Next(s, e))
  {
    SweepUnique(s.devices, s.xfer.ids);
  }

  lemma QuietStatuses(s: Sys, e: Step)
    requires Inv(s) && Enabled(s, e)
    requires !e.Timeout? && !e.Finish? && !e.Poll? && !e.Admin? && (e.Broadcast? ==> !TransferKind(s.sent[e.q].kind))
    ensures StatusesSane(Next(s, e))
  {
    QuietFrame(s, e);
    if s.xfer.running { SentStays(s, e, s.xfer.randomSeq); }
    hide Next, Enabled, MessagesSane, ExchangesSane, Bounded, StatusesSane;
  }

  lemma StatusesKept(s: Sys, e: Step)
    requires Inv(s) && Enabled(s, e)
    ensures StatusesSane(Next(s, e))
  {
    hide Inv, StatusesSane;
    match e {
      case Broadcast(q, reach) =>
        if TransferKind(s.sent[q].kind) { StartStatuses(s, q, reach); } else { QuietStatuses(s, e); }
      case Poll(i, m) => PollStatuses(s, i, m);
      case Admin(op) => AdminStatuses(s, op);
      case Timeout => EndStatuses(s, e);
      case Finish => EndStatuses(s, e);
      case _ => QuietStatuses(s, e);
    }
  }

  // ----- runs -----

  lemma {:induction false} SentRun(s: Sys, run: seq<Step>, q: nat)
    requires Valid(s, run) && q in s.sent
    ensures q in After(s, run).sent && After(s, run).sent[q] == s.sent[q] && Copies(After(s, run), q) == Copies(s, q)
    decreases |run|
  {
    if run != [] {
      SentStays(s, run[0], q);
      hide Next, Enabled, Copies;
      SentRun(Next(s, run[0]), run[1..], q);
    }
  }

  lemma StepKeepsInv(s: Sys, e: Step)
    requires Inv(s) && Enabled(s, e)
    ensures Inv(Next(s, e))
  {
    MessagesKept(s, e);
    BoundedKept(s, e);
    ExchangesKept(s, e);
    StatusesKept(s, e);
  }

  lemma InitInv(timeout: int, now: int)
    ensures Inv(Init(timeout, now))
  {
  }

  lemma {:induction false} RunKeepsInv(s: Sys, run: seq<Step>)
    requires Inv(s) && Valid(s, run)
    ensures Inv(After(s, run))
    decreases |run|
  {
    if run != [] {
      StepKeepsInv(s, run[0]);
      RunKeepsInv(Next(s, run[0]), run[1..]);
    }
  }
}
