/** When the targets of a file transfer leave RUNNING. All transfers share one record, and a transfer is refused only
    while one runs. So one that has filled its request before another started overwrites the record of the other, and
    the targets that it does not share are swept by no timeout. */
module Settling {
  import opened Wrappers
  import opened Messages
  import opened Devices
  import opened Transfer
  import opened Protocol
  import opened ProtocolInvariant
  import opened ProtocolTheorems
  import opened Completion
  import opened SharedRequest

  /** The file transfer q has filled its request and is about to write and start. */
  predicate Starting(s: Sys, q: nat) {
    q in s.open && q in s.sent && TransferKind(s.sent[q].kind)
  }

  /** The record is in use until the end of the run, and idle then. */
  predicate UntilIdle(s: Sys, run: seq<Step>)
    requires Valid(s, run)
    decreases |run|
  {
    if run == [] then !s.xfer.running else s.xfer.running && UntilIdle(Next(s, run[0]), run[1..])
  }

  /** The device is registered in every state of the run. */
  predicate Stays(s: Sys, run: seq<Step>, id: nat)
    requires Valid(s, run)
    decreases |run|
  {
    Registered(s.devices, id) && (run != [] ==> Stays(Next(s, run[0]), run[1..], id))
  }

  /** When the record first becomes idle, the device, registered all along, still reads RUNNING. */
  predicate LeftRunning(s: Sys, run: seq<Step>, id: nat) {
    Valid(s, run) && UntilIdle(s, run) && Stays(s, run, id) && GetStatus(After(s, run).devices, id).0 == Running
  }

  // ----- targets that are left -----

  function AbandonSteps(q: nat, seconds: nat): seq<Step> {
    [Broadcast(q, {}), Advance(seconds), Timeout]
  }

  function Past(timeout: int): nat {
    if timeout < 0 then 0 else timeout + 1
  }

  lemma LeftEarlier(s: Sys, e: Step, rest: seq<Step>, id: nat)
    requires Enabled(s, e) && s.xfer.running && Registered(s.devices, id) && LeftRunning(Next(s, e), rest, id)
    ensures LeftRunning(s, [e] + rest, id)
  {
    var run := [e] + rest;
    assert run[0] == e && run[1..] == rest;
    hide Next, Enabled, Registered, GetStatus;
  }

  /** A transfer that starts while another one runs overwrites the record. A target of the other that it does not name
      reads RUNNING ever after. */
  lemma OtherAbandons(s: Sys, q: nat, id: nat)
    requires BuffersSane(s) && s.xfer.running && Starting(s, q) && id !in s.sent[q].idList
    requires Registered(s.devices, id) && GetStatus(s.devices, id).0 == Running
    ensures LeftRunning(s, AbandonSteps(q, Past(s.timeout)), id)
  {
    var e, f, ids := Broadcast(q, {}), Advance(Past(s.timeout)), s.sent[q].idList;
    assert Enabled(s, e);
    BroadcastFrame(s, q, {});
    var t := Next(s, e);
    var u := Next(t, f);
    assert u == t.(now := t.now + Past(s.timeout)) && Enabled(u, Timeout);
    StatusAfterMark(s.devices, ids, id);
    StatusAfterSweep(u.devices, ids, id);
    hide DoBroadcast, Registered, GetStatus, MarkRunning, Sweep;
    assert LeftRunning(Next(u, Timeout), [], id);
    hide Next, Enabled;
    LeftEarlier(u, Timeout, [], id);
    LeftEarlier(t, f, [Timeout] + [], id);
    LeftEarlier(s, e, [f] + ([Timeout] + []), id);
    assert [e] + ([f] + ([Timeout] + [])) == AbandonSteps(q, Past(s.timeout));
  }

  // ----- targets that are settled -----

  /** Every transfer that is about to start writes a request that can be written only once. */
  predicate StartsOnce(s: Sys) {
    forall q <- s.open :: Starting(s, q) && s.sent[q].kind in s.buf ==> !Doubled(s, s.buf[s.sent[q].kind])
  }

  /** They write only once, and each of them names the device. */
  predicate StartsName(s: Sys, id: nat) {
    StartsOnce(s) && forall q <- s.open :: Starting(s, q) ==> id in s.sent[q].idList
  }

  /** The device is a target of the transfer that runs, registered since its start, and of every one that may start
      meanwhile; and none of their requests can be written twice. */
  predicate Covered(s: Sys, id: nat) {
    s.xfer.running && id in s.xfer.ids && id in s.kept && !Doubled(s, s.xfer.randomSeq) && StartsName(s, id)
  }

  /** A transfer starts. */
  lemma StartCovers(s: Sys, q: nat, reach: set<nat>, id: nat)
    requires Inv(s) && Enabled(s, Broadcast(q, reach)) && Starting(s, q) && StartsName(s, id)
    requires Registered(s.devices, id)
    ensures Covered(Next(s, Broadcast(q, reach)), id)
    ensures Registered(Next(s, Broadcast(q, reach)).devices, id)
    ensures GetStatus(Next(s, Broadcast(q, reach)).devices, id).0 == Running
  {
    WritesOwn(s, q);
    BroadcastFrame(s, q, reach);
    StatusAfterMark(s.devices, s.sent[q].idList, id);
    hide DoBroadcast, Inv, MarkRunning, Registered, Deliver, OpenOf;
  }

  lemma RecordStays(s: Sys, e: Step, id: nat)
    requires CallsSane(s) && TransferSane(s) && Enabled(s, e) && s.xfer.running && Next(s, e).xfer.running
    requires !(e.Broadcast? && Starting(s, e.q))
    ensures var t := Next(s, e);
      && t.xfer.(recvNum := s.xfer.recvNum) == s.xfer
      && (id in s.kept && Registered(t.devices, id) ==> id in t.kept)
  {
    if !e.Poll? && !e.Admin? && !e.Timeout? && !e.Finish? {
      QuietFrame(s, e);
      hide Next, Enabled;
    }
    hide Registered, AcceptDevices, Devices.Apply, Drop;
  }

  /** Steps that start no transfer and do not end the running one. */
  lemma OtherCovers(s: Sys, e: Step, id: nat)
    requires Inv(s) && Covered(s, id) && Enabled(s, e) && Next(s, e).xfer.running
    requires !(e.Broadcast? && Starting(s, e.q)) && Registered(Next(s, e).devices, id)
    ensures Covered(Next(s, e), id)
  {
    var t := Next(s, e);
    assert e.Fill? ==> CallKind(e.req.kind);
    assert BuffersSane(s) && s.open <= s.sent.Keys && s.xfer.randomSeq in s.sent;
    assert CallsSane(s) && TransferSane(s);
    hide Next, Inv, Enabled, OpenOf, Registered, BuffersSane, StartsName, Copies, CallsSane, TransferSane;
    RecordStays(s, e, id);
    SentStays(s, e, s.xfer.randomSeq);
    StartsStay(s, e, id);
  }

  /** While a transfer runs, no other one fills its request. */
  lemma StartsStay(s: Sys, e: Step, id: nat)
    requires StartsName(s, id) && BuffersSane(s) && s.open <= s.sent.Keys
    requires Enabled(s, e) && (e.Fill? ==> CallKind(e.req.kind))
    ensures StartsName(Next(s, e), id)
  {
    var t := Next(s, e);
    StepFrame(s, e);
    forall q <- t.open | Starting(t, q)
      ensures q in s.open && Starting(s, q) && t.sent[q] == s.sent[q]
      ensures var k := s.sent[q].kind; k in s.buf && t.buf[k] == s.buf[k] && Copies(t, t.buf[k]) == Copies(s, s.buf[k])
    {
      assert q in s.open && q in s.sent;
      SentStays(s, e, s.buf[s.sent[q].kind]);
    }
    hide Next, Enabled, Copies, BuffersSane;
  }

  lemma CoveredStep(s: Sys, e: Step, id: nat)
    requires Inv(s) && Covered(s, id) && Enabled(s, e) && Next(s, e).xfer.running
    requires Registered(s.devices, id) && Registered(Next(s, e).devices, id)
    ensures Covered(Next(s, e), id)
  {
    if e.Broadcast? && Starting(s, e.q) { StartCovers(s, e.q, e.reach, id); } else { OtherCovers(s, e, id); }
  }

  /** When the transfer ends, by its counter or its timeout, the device has left RUNNING. */
  lemma CoveredEnd(s: Sys, e: Step, id: nat)
    requires Inv(s) && Covered(s, id) && Enabled(s, e) && !Next(s, e).xfer.running
    ensures GetStatus(Next(s, e).devices, id).0 != Running
  {
    hide Inv, GetStatus, StartsName, Sweep;
    match e {
      case Timeout => StatusAfterSweep(s.devices, s.xfer.ids, id);
      case Finish => FinishSettles(s, id);
      case _ => StillRunning(s, e);
    }
  }

  lemma StillRunning(s: Sys, e: Step)
    requires Enabled(s, e) && s.xfer.running && !e.Timeout? && !e.Finish?
    ensures Next(s, e).xfer.running
  {
    hide AcceptDevices, MarkRunning, RegisteredOf, Deliver, Drop, OpenOf;
  }

  /** A transfer that ends by its counter has a reply from every target. */
  lemma AllReplied(s: Sys, id: nat) returns (i: nat)
    requires Inv(s) && !Doubled(s, s.xfer.randomSeq) && Enabled(s, Finish) && id in s.xfer.ids
    ensures var got := Got(s, s.xfer.randomSeq);
      i < |got| && got[i].deviceID == id && (got[i].kind == Import || got[i].kind == Export)
  {
    var q := s.xfer.randomSeq;
    var got := Got(s, q);
    assert |got| == |s.xfer.ids| && s.sent[q].idList == s.xfer.ids && q in s.sent;
    assert forall p | p in got :: p.kind == Import || p.kind == Export by {
      forall p | p in got ensures p.kind == Import || p.kind == Export { assert Answers(s.sent, p); }
    }
    hide Inv, Got, Enabled, Copies;
    CollectedDistinct(s, q);
    Pigeonhole(Senders(got), s.xfer.ids);
    assert id in multiset(s.xfer.ids) && id in Senders(got);
    i :| 0 <= i < |got| && got[i].deviceID == id;
  }

  lemma FinishSettles(s: Sys, id: nat)
    requires Inv(s) && Covered(s, id) && Enabled(s, Finish)
    ensures GetStatus(s.devices, id).0 != Running
  {
    var i := AllReplied(s, id);
    assert |Got(s, s.xfer.randomSeq)| == |s.allocs| && Reads(s.devices, id, Got(s, s.xfer.randomSeq), s.allocs);
    hide Inv, Covered, Got, GetStatus;
  }

  lemma {:induction false} CoveredRun(s: Sys, run: seq<Step>, id: nat)
    requires Inv(s) && Covered(s, id) && Valid(s, run) && UntilIdle(s, run) && Stays(s, run, id)
    ensures GetStatus(After(s, run).devices, id).0 != Running
    decreases |run|
  {
    var e, t := run[0], Next(s, run[0]);
    if t.xfer.running {
      CoveredStep(s, e, id);
      StepKeepsInv(s, e);
      hide Covered, Inv, Next, Enabled;
      CoveredRun(t, run[1..], id);
    } else {
      assert run[1..] == [];
      CoveredEnd(s, e, id);
    }
  }

  /** After any history: a transfer starts, and a registered device is one of its targets. The device can be left
      RUNNING if and only if another transfer that does not name it is between its own fill and start. This is for
      requests that can be written only once. */
  lemma LeftRunningIff(timeout: int, now: int, before: seq<Step>, q: nat, reach: set<nat>, id: nat)
    requires Valid(Init(timeout, now), before)
    requires var s := After(Init(timeout, now), before);
      && Enabled(s, Broadcast(q, reach)) && Starting(s, q) && StartsOnce(s)
      && id in s.sent[q].idList && Registered(s.devices, id)
    ensures var s := After(Init(timeout, now), before);
      var t := Next(s, Broadcast(q, reach));
      (exists later :: LeftRunning(t, later, id))
      <==> (exists q' <- s.open :: Starting(s, q') && id !in s.sent[q'].idList)
  {
    var s := After(Init(timeout, now), before);
    InitInv(timeout, now);
    RunKeepsInv(Init(timeout, now), before);
    hide Inv, Next, Enabled, Registered, Starting, StartsOnce, LeftRunning;
    if other :| other in s.open && Starting(s, other) && id !in s.sent[other].idList {
      OtherLeaves(s, q, reach, id, other);
    } else {
      forall later | LeftRunning(Next(s, Broadcast(q, reach)), later, id) ensures false {
        NoneLeft(s, q, reach, id, later);
      }
    }
  }

  lemma OtherLeaves(s: Sys, q: nat, reach: set<nat>, id: nat, other: nat)
    requires Inv(s) && Enabled(s, Broadcast(q, reach)) && Starting(s, q) && Starting(s, other)
    requires id in s.sent[q].idList && id !in s.sent[other].idList && Registered(s.devices, id)
    ensures var t := Next(s, Broadcast(q, reach)); LeftRunning(t, AbandonSteps(other, Past(t.timeout)), id)
  {
    StartRuns(s, q, reach, id);
    hide Next, Enabled, Inv, Registered, GetStatus, BuffersSane;
    OtherAbandons(Next(s, Broadcast(q, reach)), other, id);
  }

  lemma NoneLeft(s: Sys, q: nat, reach: set<nat>, id: nat, later: seq<Step>)
    requires Inv(s) && Enabled(s, Broadcast(q, reach)) && Starting(s, q)
    requires StartsName(s, id) && Registered(s.devices, id)
    ensures !LeftRunning(Next(s, Broadcast(q, reach)), later, id)
  {
    var e := Broadcast(q, reach);
    var t := Next(s, e);
    StepKeepsInv(s, e);
    hide Next, Enabled, Inv, Registered, GetStatus, Covered;
    StartCovers(s, q, reach, id);
    if LeftRunning(t, later, id) { CoveredRun(t, later, id); }
  }

  lemma StartRuns(s: Sys, q: nat, reach: set<nat>, id: nat)
    requires Inv(s) && Enabled(s, Broadcast(q, reach)) && Starting(s, q)
    requires id in s.sent[q].idList && Registered(s.devices, id)
    ensures var t := Next(s, Broadcast(q, reach));
      && t.xfer.running && t.sent == s.sent && t.open == s.open - {q} && BuffersSane(t)
      && Registered(t.devices, id) && GetStatus(t.devices, id).0 == Running
  {
    BroadcastFrame(s, q, reach);
    BuffersKept(s, Broadcast(q, reach));
    StatusAfterMark(s.devices, s.sent[q].idList, id);
    hide DoBroadcast, MarkRunning, Registered, Deliver, Inv;
  }

  // ----- a transfer alone -----

  /** No transfer but q has filled its request and not yet started. */
  predicate OnlyStarting(s: Sys, q: nat) {
    forall x <- s.open :: Starting(s, x) ==> x == q
  }

  lemma {:induction false} OnlyStartingRun(s: Sys, run: seq<Step>, q: nat)
    requires Inv(s) && Valid(s, run) && OnlyStarting(s, q) && !Fills(run, Import) && !Fills(run, Export)
    ensures OnlyStarting(After(s, run), q)
    decreases |run|
  {
    if run != [] {
      StepFrame(s, run[0]);
      StepKeepsInv(s, run[0]);
      assert OnlyStarting(Next(s, run[0]), q) by { OnlyStartingStep(s, run[0], q); }
      hide Next, Enabled, Inv, OnlyStarting;
      OnlyStartingRun(Next(s, run[0]), run[1..], q);
    }
  }

  lemma OnlyStartingStep(s: Sys, e: Step, q: nat)
    requires OpenSane(s) && Enabled(s, e) && OnlyStarting(s, q) && !(e.Fill? && TransferKind(e.req.kind))
    ensures OnlyStarting(Next(s, e), q)
  {
    StepFrame(s, e);
    forall x <- Next(s, e).open | Starting(Next(s, e), x) ensures x == q { assert x in s.open; }
    hide Next;
  }

  /** After any history: if no other transfer is between its fill and its start when a transfer fills its request,
      and none fills until it starts, then none of its targets that stays registered is left RUNNING. */
  lemma AloneSettles(timeout: int, now: int, before: seq<Step>, r: Request, gap: seq<Step>, reach: set<nat>,
          later: seq<Step>, id: nat)
    requires Valid(Init(timeout, now), before) && Enabled(After(Init(timeout, now), before), Fill(r))
    requires var s := After(Init(timeout, now), before);
      && TransferKind(r.kind) && (forall q <- s.open :: !Starting(s, q))
      && Valid(Next(s, Fill(r)), gap) && !Fills(gap, Import) && !Fills(gap, Export)
    requires var s := After(Next(After(Init(timeout, now), before), Fill(r)), gap);
      Enabled(s, Broadcast(r.randomSeq, reach)) && Registered(s.devices, id) && id in r.idList
    ensures var s := After(Next(After(Init(timeout, now), before), Fill(r)), gap);
      !LeftRunning(Next(s, Broadcast(r.randomSeq, reach)), later, id)
  {
    var s, q := After(Next(After(Init(timeout, now), before), Fill(r)), gap), r.randomSeq;
    assert Starting(s, q) by { SentRun(Next(After(Init(timeout, now), before), Fill(r)), gap, q); }
    hide Next, Enabled, Registered, Starting, Fills, LeftRunning, StartsName, Inv, Init;
    InitInv(timeout, now);
    RunKeepsInv(Init(timeout, now), before);
    GapAlone(After(Init(timeout, now), before), r, gap, id);
    NoneLeft(s, q, reach, id, later);
  }

  /** From the filling of its request to its start the transfer stays alone. */
  lemma GapAlone(s: Sys, r: Request, gap: seq<Step>, id: nat)
    requires Inv(s) && Enabled(s, Fill(r)) && TransferKind(r.kind) && (forall q <- s.open :: !Starting(s, q))
    requires Valid(Next(s, Fill(r)), gap) && !Fills(gap, Import) && !Fills(gap, Export) && id in r.idList
    ensures var t := After(Next(s, Fill(r)), gap); Inv(t) && StartsName(t, id)
  {
    var s1, q := Next(s, Fill(r)), r.randomSeq;
    FilledAlone(s, r);
    hide Inv, Next, Enabled, Current, Copies, OnlyStarting, StartsName;
    StepKeepsInv(s, Fill(r));
    RunKeepsInv(s1, gap);
    OnlyStartingRun(s1, gap, q);
    CurrentRun(s1, gap, q);
    SentRun(s1, gap, q);
    NamesItself(After(s1, gap), q, id);
  }

  lemma FilledAlone(s: Sys, r: Request)
    requires Inv(s) && Enabled(s, Fill(r)) && TransferKind(r.kind) && forall q <- s.open :: !Starting(s, q)
    ensures var t, q := Next(s, Fill(r)), r.randomSeq;
      OnlyStarting(t, q) && q in t.sent && t.sent[q] == r && Current(t, q) && !Doubled(t, q)
  {
    assert OpenOf(s, r.kind) == {};
    hide Inv;
  }

  lemma NamesItself(s: Sys, q: nat, id: nat)
    requires OnlyStarting(s, q) && q in s.sent && Current(s, q) && !Doubled(s, q) && id in s.sent[q].idList
    ensures StartsName(s, id)
  {
  }

  // ----- the inputs -----

  /** Some devices are announced, and two transfers fill their requests before either starts. */
  function BothFill(ids: seq<nat>, a: Request, b: Request): seq<Step> {
    AnnounceSteps(ids) + [Fill(a), Fill(b)]
  }

  lemma BothFilled(timeout: int, now: int, ids: seq<nat>, a: Request, b: Request)
    requires TransferKind(a.kind) && TransferKind(b.kind) && a.randomSeq != b.randomSeq
    requires (a.kind == Export ==> |a.idList| == 1) && (b.kind == Export ==> |b.idList| == 1)
    ensures Valid(Init(timeout, now), BothFill(ids, a, b))
    ensures var s := After(Init(timeout, now), BothFill(ids, a, b));
      && Inv(s) && s.timeout == timeout && s.now == now && s.net == [] && s.inbox == map[] && s.ring == map[]
      && s.open == {a.randomSeq, b.randomSeq} && Starting(s, a.randomSeq) && Starting(s, b.randomSeq)
      && s.sent[a.randomSeq] == a && s.sent[b.randomSeq] == b && b.kind in s.buf && s.buf[b.kind] == b.randomSeq
      && Enabled(s, Broadcast(a.randomSeq, {}))
      && forall id | id in ids :: Registered(s.devices, id)
  {
    var s0 := Init(timeout, now);
    InitInv(timeout, now);
    AnnounceAll(s0, ids);
    var s1 := After(s0, AnnounceSteps(ids));
    TwoFill(s1, a, b);
    hide Next, Enabled, Starting, Inv, AnnounceSteps, Registered;
    RunConcat(s0, AnnounceSteps(ids), [Fill(a), Fill(b)]);
    RunKeepsInv(s0, BothFill(ids, a, b));
  }

  lemma TwoFill(s: Sys, a: Request, b: Request)
    requires s.sent == map[] && s.open == {} && !s.xfer.running
    requires TransferKind(a.kind) && TransferKind(b.kind) && a.randomSeq != b.randomSeq
    requires (a.kind == Export ==> |a.idList| == 1) && (b.kind == Export ==> |b.idList| == 1)
    ensures Valid(s, [Fill(a), Fill(b)])
    ensures var t := After(s, [Fill(a), Fill(b)]);
      && t == s.(sent := t.sent, open := {a.randomSeq, b.randomSeq}, buf := t.buf, copies := t.copies)
      && Starting(t, a.randomSeq) && Starting(t, b.randomSeq)
      && t.sent[a.randomSeq] == a && t.sent[b.randomSeq] == b && b.kind in t.buf && t.buf[b.kind] == b.randomSeq
      && Enabled(t, Broadcast(a.randomSeq, {}))
  {
    hide Next, Enabled, After, Valid;
    OneFill(s, a);
    var s1 := Next(s, Fill(a));
    OneFill(s1, b);
    var t := Next(s1, Fill(b));
    assert t.open == {a.randomSeq, b.randomSeq};
    assert Starting(t, a.randomSeq) && Starting(t, b.randomSeq) && a.kind in t.buf && t.buf[a.kind] in t.sent;
    hide TransferKind, Starting;
    TwoSteps(s, Fill(a), Fill(b));
    FilledStarts(t, a.randomSeq);
  }

  lemma OneFill(s: Sys, r: Request)
    requires r.randomSeq !in s.sent && TransferKind(r.kind) && !s.xfer.running && (r.kind == Export ==> |r.idList| == 1)
    ensures Enabled(s, Fill(r))
    ensures var t := Next(s, Fill(r));
      t == s.(sent := s.sent[r.randomSeq := r], buf := s.buf[r.kind := r.randomSeq], open := s.open + {r.randomSeq},
              copies := t.copies)
  {
    hide OpenOf;
  }

  lemma FilledStarts(s: Sys, q: nat)
    requires Starting(s, q) && s.sent[q].kind in s.buf && s.buf[s.sent[q].kind] in s.sent
    ensures Enabled(s, Broadcast(q, {}))
  {
  }

  /** An IMPORT for device 1 and an EXPORT from device 2 fill their requests before either starts. The EXPORT
      overwrites the record of the IMPORT. The record becomes idle by the timeout, and device 1 reads RUNNING. */
  lemma ImportExportAbandons(timeout: int, now: int)
    ensures var before := BothFill([1], Request([1], Import, 1, "", []), Request([2], Export, 2, "", []));
      && Valid(Init(timeout, now), before)
      && var s := After(Init(timeout, now), before);
        && Enabled(s, Broadcast(1, {})) && Starting(s, 1) && s.sent[1].idList == [1]
        && LeftRunning(Next(s, Broadcast(1, {})), AbandonSteps(2, Past(timeout)), 1)
  {
    var a, b := Request([1], Import, 1, "", []), Request([2], Export, 2, "", []);
    BothFilled(timeout, now, [1], a, b);
    var s := After(Init(timeout, now), BothFill([1], a, b));
    assert 1 in [1];
    hide Next, Inv, Registered, GetStatus, BothFill, After, Valid, Enabled, BuffersSane;
    StartRuns(s, 1, {}, 1);
    OtherAbandons(Next(s, Broadcast(1, {})), 2, 1);
  }

  /** The agent answers the two copies of a request that wait for it, the transfer takes the answers and ends. */
  function EndEarlySteps(id: nat): seq<Step> {
    var answer := AnswerSteps(id) + [Poll(0, Malloc(true, 0))];
    answer + (answer + [Finish])
  }

  lemma EndsEarly(s: Sys, id: nat, other: nat, r: Request)
    requires s.net == [] && s.xfer.running && s.xfer.kind == r.kind && s.xfer.randomSeq == r.randomSeq
    requires s.xfer.recvNum == 0 && |s.xfer.ids| == 2 && TransferKind(r.kind) && id in r.idList
    requires In(s, id) == [r, r] && Ring(s, id) == [] && other != id
    ensures Valid(s, EndEarlySteps(id))
    ensures var t := After(s, EndEarlySteps(id));
      && !t.xfer.running && Registered(t.devices, other) == Registered(s.devices, other)
      && GetStatus(t.devices, other) == GetStatus(s.devices, other)
  {
    var answer := AnswerSteps(id) + [Poll(0, Malloc(true, 0))];
    PollOneAnswer(s, id, r);
    var t := After(s, answer);
    assert In(t, id) == [r];
    PollOneAnswer(t, id, r);
    var u := After(t, answer);
    assert Enabled(u, Finish) && !Next(u, Finish).xfer.running && Next(u, Finish).devices == u.devices;
    hide AnswerSteps, Next, Enabled, Registered, GetStatus, In, Ring;
    RunOne(u, Finish);
    RunConcat(t, answer, [Finish]);
    RunConcat(s, answer, answer + [Finish]);
  }

  /** Two IMPORTs for devices 1 and 2 fill their requests before either starts, and both writes reach device 1. It
      answers both, the counter reaches the number of targets, and device 2 reads RUNNING in an idle record. */
  lemma TwoImportsEndEarly(timeout: int, now: int)
    ensures var before := BothFill([1, 2], Request([1, 2], Import, 1, "", []), Request([1, 2], Import, 2, "", []));
      var run := before + ([Broadcast(1, {1}), Broadcast(2, {1})] + EndEarlySteps(1));
      && Valid(Init(timeout, now), run)
      && var t := After(Init(timeout, now), run);
        !t.xfer.running && Registered(t.devices, 2) && GetStatus(t.devices, 2).0 == Running
  {
    var a, b := Request([1, 2], Import, 1, "", []), Request([1, 2], Import, 2, "", []);
    var before, writes := BothFill([1, 2], a, b), [Broadcast(1, {1}), Broadcast(2, {1})];
    BothFilled(timeout, now, [1, 2], a, b);
    var s := After(Init(timeout, now), before);
    BothWritten(s, b);
    var t := After(s, writes);
    EndsEarly(t, 1, 2, b);
    hide *;
    RunConcat(s, writes, EndEarlySteps(1));
    RunConcat(Init(timeout, now), before, writes + EndEarlySteps(1));
  }

  /** A transfer of the same function as `r`, whose number the static request holds, writes and starts. */
  lemma StartNow(s: Sys, q: nat, r: Request, reach: set<nat>)
    requires Starting(s, q) && TransferKind(r.kind) && s.sent[q].kind == r.kind && r.kind in s.buf
    requires s.buf[r.kind] == r.randomSeq && r.randomSeq in s.sent && s.sent[r.randomSeq] == r
    ensures Enabled(s, Broadcast(q, reach))
    ensures var t := Next(s, Broadcast(q, reach));
      && t.sent == s.sent && t.buf == s.buf && t.open == s.open - {q} && t.net == s.net && t.ring == s.ring
      && t.now == s.now && t.xfer == Stat(true, s.now, r.kind, r.randomSeq, s.sent[q].idList, 0)
      && (forall id | id in reach :: In(t, id) == In(s, id) + [r])
      && (forall id | Registered(s.devices, id) :: Registered(t.devices, id))
      && forall id | Registered(s.devices, id) && id in s.sent[q].idList :: GetStatus(t.devices, id).0 == Running
  {
    BroadcastFrame(s, q, reach);
    var t := Next(s, Broadcast(q, reach));
    hide DoBroadcast, MarkRunning, Registered, GetStatus;
    forall id | id in reach ensures In(t, id) == In(s, id) + [r] {}
    forall id | Registered(s.devices, id)
      ensures Registered(t.devices, id) && (id in s.sent[q].idList ==> GetStatus(t.devices, id).0 == Running)
    {
      StatusAfterMark(s.devices, s.sent[q].idList, id);
    }
  }

  lemma BothWritten(s: Sys, b: Request)
    requires s.inbox == map[] && s.ring == map[] && s.net == [] && s.open == {1, 2} && 1 in s.sent && 2 in s.sent
    requires s.sent[1].kind == b.kind == Import && s.sent[2] == b && b.randomSeq == 2 && b.idList == [1, 2]
    requires b.kind in s.buf && s.buf[b.kind] == 2 && Registered(s.devices, 2)
    ensures var run := [Broadcast(1, {1}), Broadcast(2, {1})];
      && Valid(s, run)
      && var t := After(s, run);
        && t.net == [] && t.xfer == Stat(true, s.now, Import, 2, [1, 2], 0) && In(t, 1) == [b, b] && Ring(t, 1) == []
        && Registered(t.devices, 2) && GetStatus(t.devices, 2).0 == Running
  {
    var e, f := Broadcast(1, {1}), Broadcast(2, {1});
    assert In(s, 1) == [] && Ring(s, 1) == [];
    hide Next, Enabled, Registered, GetStatus, In;
    StartNow(s, 1, b, {1});
    var t := Next(s, e);
    StartNow(t, 2, b, {1});
    assert In(Next(t, f), 1) == [] + [b] + [b];
    TwoSteps(s, e, f);
    SameMessages(s, Next(t, f));
  }
}
