/** The request/reply protocol as a step system: one server, any number of agents, any number of concurrent
    GET/SET calls and one file transfer, with every interleaving of sending, executing, replying and
    collecting. Calls of the same function share that function's static request: each call fills it, and a
    second later writes whatever it then holds. Each step is atomic. Agent IDs are unique, a sequence number is
    chosen once, and the network neither duplicates a written request on its way to an agent nor a reply. */
module Protocol {
  import opened Wrappers
  import opened Decimal
  import opened Messages
  import opened Devices
  import opened Transfer

  datatype Sys = Sys(
    timeout: int,                   // g_rmt_cfg.reply_timeout
    now: int,
    sent: map<nat, Request>,        // every request filled so far, by sequence number
    inbox: map<nat, seq<Request>>,  // per agent: requests delivered and not yet taken
    ring: map<nat, seq<Reply>>,     // per agent: replies not yet sent
    net: seq<Reply>,                // replies on the way or in the server's reader
    buf: map<Kind, nat>,            // the number in the static request of each function
    open: set<nat>,                 // calls that have filled their request and not yet written one
    copies: map<nat, nat>,          // per request: the open calls of its function when it was filled, its own included
    calls: map<nat, int>,           // GET/SET calls in progress and when they started
    xfer: Stat,                     // the file transfer
    got: map<nat, seq<Reply>>,      // per exchange: the replies accepted so far
    allocs: seq<Malloc>,            // what malloc gave for each reply that the transfer has accepted
    devices: seq<Device>,           // the registry
    kept: set<nat>)                 // targets of the transfer that have been registered since it started

  datatype Step =
    | Advance(seconds: nat)
    | Fill(req: Request)
    | Broadcast(q: nat, reach: set<nat>)
    | Execute(agent: nat, i: nat, msg: string, binary: seq<bv8>)
    | SendReply(agent: nat)
    | Collect(q: nat, i: nat)
    | Return(q: nat)
    | Poll(i: nat, m: Malloc)
    | Finish
    | Timeout
    | Admin(op: Op)

  function Init(timeout: int, now: int): Sys {
    Sys(timeout, now, map[], map[], map[], [], map[], {}, map[], map[], Stat(false, 0, Get, 0, [], 0), map[], [], [],
        {})
  }

  function In(s: Sys, id: nat): seq<Request> {
    if id in s.inbox then s.inbox[id] else []
  }

  function Ring(s: Sys, id: nat): seq<Reply> {
    if id in s.ring then s.ring[id] else []
  }

  function Got(s: Sys, q: nat): seq<Reply> {
    if q in s.got then s.got[q] else []
  }

  /** A broadcast that reaches the agents of `reach`. */
  function Deliver(inbox: map<nat, seq<Request>>, reach: set<nat>, r: Request): map<nat, seq<Request>> {
    map id | id in inbox.Keys + reach :: (if id in inbox then inbox[id] else []) + if id in reach then [r] else []
  }

  predicate CallKind(k: Kind) { k == Get || k == Set || k == SetSameValue }

  predicate TransferKind(k: Kind) { k == Import || k == Export }

  predicate Enabled(s: Sys, e: Step) {
    match e
    case Advance(_) => true
    case Fill(req) =>
      && req.randomSeq !in s.sent && (CallKind(req.kind) || TransferKind(req.kind))
      && (TransferKind(req.kind) ==> !s.xfer.running) && (req.kind == Export ==> |req.idList| == 1)
    case Broadcast(q, _) => q in s.open && q in s.sent && s.sent[q].kind in s.buf && s.buf[s.sent[q].kind] in s.sent
    case Execute(id, i, _, _) => i < |In(s, id)|
    case SendReply(id) => Ring(s, id) != []
    case Collect(q, i) => q in s.calls && q in s.sent && i < |s.net| && s.net[i].randomSeq == q
    case Return(q) =>
      q in s.calls && q in s.sent && (|Got(s, q)| == |s.sent[q].idList| || s.now - s.calls[q] > s.timeout)
    case Poll(i, _) => s.xfer.running && i < |s.net| && s.net[i].randomSeq == s.xfer.randomSeq
    case Finish => s.xfer.running && s.xfer.recvNum == |s.xfer.ids|
    case Timeout => s.xfer.running && s.now - s.xfer.startTime > s.timeout
    case Admin(op) => op.Announce? || op.Lose?
  }

  function Accepted(s: Sys, q: nat, r: Reply, ok: bool): map<nat, seq<Reply>> {
    if ok then s.got[q := Got(s, q) + [r]] else s.got
  }

  /** The IDs of a list that are registered. */
  function RegisteredOf(ds: seq<Device>, ids: seq<nat>): set<nat> {
    set id | id in ids && Registered(ds, id)
  }

  /** The calls of function `k` that have filled their request and not yet written one. */
  function OpenOf(s: Sys, k: Kind): set<nat> {
    CallsOf(s.open, s.sent, k)
  }

  function CallsOf(qs: set<nat>, sent: map<nat, Request>, k: Kind): set<nat> {
    set q | q in qs && q in sent && sent[q].kind == k
  }

  /** The server fills the function's static request. */
  function DoFill(s: Sys, req: Request): Sys {
    s.(sent := s.sent[req.randomSeq := req], buf := s.buf[req.kind := req.randomSeq], open := s.open + {req.randomSeq},
       copies := s.copies[req.randomSeq := |OpenOf(s, req.kind)| + 1])
  }

  /** The number that the call q writes: the one that its static request then holds. */
  function Written(s: Sys, q: nat): nat
    requires Enabled(s, Broadcast(q, {}))
  {
    s.buf[s.sent[q].kind]
  }

  /** The server writes what the static request holds; a GET/SET call then starts to wait. */
  function DoWrite(s: Sys, q: nat, reach: set<nat>): Sys
    requires Enabled(s, Broadcast(q, reach))
  {
    s.(inbox := Deliver(s.inbox, reach, s.sent[Written(s, q)]), open := s.open - {q},
       calls := if CallKind(s.sent[q].kind) then s.calls[q := s.now] else s.calls)
  }

  /** A file transfer then marks its targets and starts its record, with the number in the static request. */
  function DoStart(s: Sys, q: nat): Sys
    requires Enabled(s, Broadcast(q, {}))
  {
    var r, ids := s.sent[Written(s, q)], s.sent[q].idList;
    s.(devices := MarkRunning(s.devices, ids), xfer := Stat(true, s.now, r.kind, r.randomSeq, ids, 0),
       allocs := [], kept := RegisteredOf(s.devices, ids))
  }

  function DoBroadcast(s: Sys, q: nat, reach: set<nat>): Sys
    requires Enabled(s, Broadcast(q, reach))
  {
    DoWrite(if TransferKind(s.sent[q].kind) then DoStart(s, q) else s, q, reach)
  }

  /** An agent takes a request; if its ID is on the list and the type is known, a reply goes into its ring. */
  function DoExecute(s: Sys, id: nat, i: nat, msg: string, binary: seq<bv8>): Sys
    requires i < |In(s, id)|
  {
    var r := In(s, id)[i];
    s.(inbox := s.inbox[id := Drop(In(s, id), i)],
       ring := if id in r.idList && r.kind != Unknown
               then s.ring[id := Ring(s, id) + [Reply(id, r.kind, r.randomSeq, msg, binary)]]
               else s.ring)
  }

  /** An agent sends the oldest reply of its ring. */
  function DoSendReply(s: Sys, id: nat): Sys
    requires Ring(s, id) != []
  {
    s.(ring := s.ring[id := Ring(s, id)[1..]], net := s.net + [Ring(s, id)[0]])
  }

  /** The static request of the exchange's function still holds this exchange's number. */
  predicate Current(s: Sys, q: nat)
    requires q in s.sent
  {
    s.sent[q].kind in s.buf && s.buf[s.sent[q].kind] == q
  }

  /** A waiting call takes a reply of its instance. It keeps the reply if type and number are those of the
      static request, and drops it otherwise. */
  function DoCollect(s: Sys, q: nat, i: nat): Sys
    requires q in s.sent && i < |s.net|
  {
    s.(net := Drop(s.net, i), got := Accepted(s, q, s.net[i], s.net[i].kind == s.sent[q].kind && Current(s, q)))
  }

  /** The receive thread takes a reply of the transfer's instance. */
  function DoPoll(s: Sys, i: nat, m: Malloc): Sys
    requires i < |s.net|
  {
    s.(net := Drop(s.net, i),
       devices := AcceptDevices(s.devices, s.xfer, s.net[i], m),
       xfer := AcceptStat(s.xfer, s.net[i]),
       got := Accepted(s, s.xfer.randomSeq, s.net[i], ForTransfer(s.xfer, s.net[i])),
       allocs := s.allocs + if ForTransfer(s.xfer, s.net[i]) then [m] else [])
  }

  /** The registry hears an announcement or a loss. */
  function DoAdmin(s: Sys, op: Op): Sys {
    var ds := Devices.Apply(s.devices, op);
    s.(devices := ds, kept := set id | id in s.kept && Registered(ds, id))
  }

  function Next(s: Sys, e: Step): Sys
    requires Enabled(s, e)
  {
    match e
    case Advance(d) => s.(now := s.now + d)
    case Fill(req) => DoFill(s, req)
    case Broadcast(q, reach) => DoBroadcast(s, q, reach)
    case Execute(id, i, msg, binary) => DoExecute(s, id, i, msg, binary)
    case SendReply(id) => DoSendReply(s, id)
    case Collect(q, i) => DoCollect(s, q, i)
    case Return(q) => s.(calls := s.calls - {q})
    case Poll(i, m) => DoPoll(s, i, m)
    case Finish => s.(xfer := s.xfer.(running := false, ids := []))
    case Timeout => s.(devices := Sweep(s.devices, s.xfer.ids), xfer := s.xfer.(running := false, ids := []))
    case Admin(op) => DoAdmin(s, op)
  }

  /** A run: every step is enabled when it is taken. */
  predicate Valid(s: Sys, run: seq<Step>)
    decreases |run|
  {
    run == [] || (Enabled(s, run[0]) && Valid(Next(s, run[0]), run[1..]))
  }

  function After(s: Sys, run: seq<Step>): Sys
    requires Valid(s, run)
    decreases |run|
  {
    if run == [] then s else After(Next(s, run[0]), run[1..])
  }

  lemma {:induction false} RunConcat(s: Sys, a: seq<Step>, b: seq<Step>)
    requires Valid(s, a) && Valid(After(s, a), b)
    ensures Valid(s, a + b) && After(s, a + b) == After(After(s, a), b)
    decreases |a|
  {
    if a == [] {
      assert a + b == b;
    } else {
      assert (a + b)[0] == a[0] && (a + b)[1..] == a[1..] + b;
      RunConcat(Next(s, a[0]), a[1..], b);
    }
  }

  lemma RunOne(s: Sys, e: Step)
    requires Enabled(s, e)
    ensures Valid(s, [e]) && After(s, [e]) == Next(s, e)
  {
    assert [e][1..] == [];
  }

  // ----- counting -----

  /** Requests with sequence number q. */
  function Reqs(rs: seq<Request>, q: nat): nat {
    if rs == [] then 0 else (if rs[0].randomSeq == q then 1 else 0) + Reqs(rs[1..], q)
  }

  /** Replies of device `id` with sequence number q. */
  function Reps(rs: seq<Reply>, q: nat, id: nat): nat {
    if rs == [] then 0 else (if rs[0].randomSeq == q && rs[0].deviceID == id then 1 else 0) + Reps(rs[1..], q, id)
  }

  lemma {:induction false} ReqsConcat(a: seq<Request>, b: seq<Request>, q: nat)
    ensures Reqs(a + b, q) == Reqs(a, q) + Reqs(b, q)
  {
    if a == [] { assert a + b == b; } else {
      assert (a + b)[1..] == a[1..] + b;
      ReqsConcat(a[1..], b, q);
    }
  }

  lemma {:induction false} RepsConcat(a: seq<Reply>, b: seq<Reply>, q: nat, id: nat)
    ensures Reps(a + b, q, id) == Reps(a, q, id) + Reps(b, q, id)
  {
    if a == [] { assert a + b == b; } else {
      assert (a + b)[1..] == a[1..] + b;
      RepsConcat(a[1..], b, q, id);
    }
  }

  lemma ReqsDrop(rs: seq<Request>, i: nat, q: nat)
    requires i < |rs|
    ensures Reqs(rs, q) == Reqs(Drop(rs, i), q) + if rs[i].randomSeq == q then 1 else 0
  {
    assert rs == rs[..i] + ([rs[i]] + rs[i + 1..]);
    ReqsConcat(rs[..i], [rs[i]] + rs[i + 1..], q);
    ReqsConcat([rs[i]], rs[i + 1..], q);
    ReqsConcat(rs[..i], rs[i + 1..], q);
  }

  lemma RepsDrop(rs: seq<Reply>, i: nat, q: nat, id: nat)
    requires i < |rs|
    ensures Reps(rs, q, id) == Reps(Drop(rs, i), q, id) + if rs[i].randomSeq == q && rs[i].deviceID == id then 1 else 0
  {
    assert rs == rs[..i] + ([rs[i]] + rs[i + 1..]);
    RepsConcat(rs[..i], [rs[i]] + rs[i + 1..], q, id);
    RepsConcat([rs[i]], rs[i + 1..], q, id);
    RepsConcat(rs[..i], rs[i + 1..], q, id);
  }

  lemma {:induction false} ReqsZero(rs: seq<Request>, q: nat)
    requires forall i | 0 <= i < |rs| :: rs[i].randomSeq != q
    ensures Reqs(rs, q) == 0
  {
    if rs != [] { ReqsZero(rs[1..], q); }
  }

  lemma {:induction false} RepsZero(rs: seq<Reply>, q: nat, id: nat)
    requires forall i | 0 <= i < |rs| :: rs[i].randomSeq != q || rs[i].deviceID != id
    ensures Reps(rs, q, id) == 0
  {
    if rs != [] { RepsZero(rs[1..], q, id); }
  }

  lemma {:induction false} RepsPositive(rs: seq<Reply>, i: nat)
    requires i < |rs|
    ensures Reps(rs, rs[i].randomSeq, rs[i].deviceID) >= 1
  {
    RepsDrop(rs, i, rs[i].randomSeq, rs[i].deviceID);
  }

  /** How often (q, id) is present anywhere: pending at the agent, in its ring, on the net, or collected. */
  function Total(s: Sys, q: nat, id: nat): nat {
    Reqs(In(s, id), q) + Reps(Ring(s, id), q, id) + Reps(s.net, q, id) + Reps(Got(s, q), q, id)
  }

  // ----- invariant -----

  /** A reply that answers a request that was sent, from a device on its list. */
  predicate Answers(sent: map<nat, Request>, r: Reply) {
    && r.randomSeq in sent
    && r.kind == sent[r.randomSeq].kind
    && r.deviceID in sent[r.randomSeq].idList
  }

  predicate RequestsSane(s: Sys) {
    forall id | id in s.inbox :: forall i | 0 <= i < |s.inbox[id]| ::
      s.inbox[id][i].randomSeq in s.sent && s.sent[s.inbox[id][i].randomSeq] == s.inbox[id][i]
  }

  predicate RingsSane(s: Sys) {
    forall id | id in s.ring :: forall i | 0 <= i < |s.ring[id]| ::
      Answers(s.sent, s.ring[id][i]) && s.ring[id][i].deviceID == id
  }

  predicate NetSane(s: Sys) {
    forall i | 0 <= i < |s.net| :: Answers(s.sent, s.net[i])
  }

  predicate GotSane(s: Sys) {
    forall q | q in s.got :: q in s.sent && forall i | 0 <= i < |s.got[q]| ::
      Answers(s.sent, s.got[q][i]) && s.got[q][i].randomSeq == q
  }

  predicate MessagesSane(s: Sys) {
    RequestsSane(s) && RingsSane(s) && NetSane(s) && GotSane(s)
  }

  /** How often request q can come to be written. */
  function Copies(s: Sys, q: nat): nat {
    if q in s.copies then s.copies[q] else 0
  }

  /** Request q can be written more than once. */
  predicate Doubled(s: Sys, q: nat) { Copies(s, q) > 1 }

  /** How often request q can still be written: by every open call of its function, while the static request holds
      its number. */
  function Pending(s: Sys, q: nat): nat {
    if q in s.sent && Current(s, q) then |OpenOf(s, s.sent[q].kind)| else 0
  }

  /** What is present of an exchange and device, and what can still be written of it, is within the copies. */
  ghost predicate Bounded(s: Sys) {
    forall q: nat, id: nat :: Total(s, q, id) + Pending(s, q) <= Copies(s, q)
  }

  /** Every waiting call sent a GET or SET request, not after now. */
  predicate CallsSane(s: Sys) {
    forall q | q in s.calls :: q in s.sent && CallKind(s.sent[q].kind) && s.calls[q] <= s.now && q !in s.open
  }

  /** A static request holds the number of a request of its own function. */
  predicate BuffersSane(s: Sys) {
    && (forall k | k in s.buf :: s.buf[k] in s.sent && s.sent[s.buf[k]].kind == k)
    && (forall q | q in s.sent :: s.sent[q].randomSeq == q && s.sent[q].kind in s.buf)
  }

  /** The open calls of function `k` can write its request as often as it was meant to be written; once its own
      call has written, one time less. */
  predicate WritesLeft(s: Sys, k: Kind)
    requires k in s.buf
  {
    |OpenOf(s, k)| + (if s.buf[k] in s.open then 0 else 1) <= Copies(s, s.buf[k])
  }

  predicate OpenSane(s: Sys) {
    s.open <= s.sent.Keys && s.copies.Keys == s.sent.Keys && forall k | k in s.buf :: WritesLeft(s, k)
  }

  /** The running transfer is the one that was sent, and its counter is the number of replies accepted. */
  predicate TransferSane(s: Sys) {
    s.xfer.running ==>
      && s.xfer.randomSeq in s.sent && TransferKind(s.xfer.kind) && s.sent[s.xfer.randomSeq].kind == s.xfer.kind
      && (!Doubled(s, s.xfer.randomSeq) ==>
            && s.sent[s.xfer.randomSeq].idList == s.xfer.ids
            && s.xfer.recvNum == |Got(s, s.xfer.randomSeq)| == |s.allocs|)
  }

  ghost predicate ExchangesSane(s: Sys) {
    CallsSane(s) && BuffersSane(s) && OpenSane(s) && TransferSane(s)
  }

  /** Device `id` reads the outcome of its reply, or RUNNING if it has not replied. */
  predicate Reads(ds: seq<Device>, id: nat, replies: seq<Reply>, allocs: seq<Malloc>)
    requires |replies| == |allocs|
  {
    var (st, res) := GetStatus(ds, id);
    && (forall i | 0 <= i < |replies| && replies[i].deviceID == id :: OutcomeOf(replies[i], allocs[i], st, res))
    && ((forall i | 0 <= i < |replies| :: replies[i].deviceID != id) ==> st == Running)
  }

  /** A target that has been registered all along reads the outcome of its reply, or RUNNING. */
  ghost predicate StatusesSane(s: Sys) {
    && Unique(s.devices)
    && (s.xfer.running && !Doubled(s, s.xfer.randomSeq) ==>
          && |Got(s, s.xfer.randomSeq)| == |s.allocs|
          && forall id | id in s.kept ::
               && id in s.xfer.ids && Registered(s.devices, id)
               && Reads(s.devices, id, Got(s, s.xfer.randomSeq), s.allocs))
  }

  ghost predicate Inv(s: Sys) {
    MessagesSane(s) && Bounded(s) && ExchangesSane(s) && StatusesSane(s)
  }
}
