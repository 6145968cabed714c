/** Which calls and transfers can complete: exactly those whose ID list names no device twice. */
module Completion {
  import opened Messages
  import opened Devices
  import opened Transfer
  import opened Protocol
  import opened ProtocolInvariant
  import opened ProtocolTheorems

  // ----- one device answers -----

  function AnswerSteps(id: nat): seq<Step> {
    [Execute(id, 0, "", []), Step.SendReply(id)]
  }

  function AnswerTo(r: Request, id: nat): Reply {
    Reply(id, r.kind, r.randomSeq, "", [])
  }

  /** The device's oldest request is answered and the answer is behind everything else on the net. */
  ghost predicate Answered(s: Sys, t: Sys, id: nat, r: Request) {
    && t == s.(inbox := t.inbox, ring := t.ring, net := s.net + [AnswerTo(r, id)])
    && Ring(t, id) == [] && (In(s, id) == [r] + In(t, id))
    && forall x: nat | x != id :: In(t, x) == In(s, x) && Ring(t, x) == Ring(s, x)
  }

  lemma ExecuteFirst(s: Sys, id: nat)
    requires In(s, id) != [] && Ring(s, id) == []
    requires id in In(s, id)[0].idList && In(s, id)[0].kind != Unknown
    ensures var r, t := In(s, id)[0], DoExecute(s, id, 0, "", []);
      && t == s.(inbox := t.inbox, ring := t.ring)
      && Ring(t, id) == [AnswerTo(r, id)] && In(s, id) == [r] + In(t, id)
      && forall x: nat | x != id :: In(t, x) == In(s, x) && Ring(t, x) == Ring(s, x)
  {
  }

  lemma SendOnly(s: Sys, id: nat, p: Reply)
    requires Ring(s, id) == [p]
    ensures var t := DoSendReply(s, id);
      && t == s.(ring := t.ring, net := s.net + [p]) && Ring(t, id) == []
      && forall x: nat :: In(t, x) == In(s, x) && (x != id ==> Ring(t, x) == Ring(s, x))
  {
  }

  lemma AnswerOne(s: Sys, id: nat)
    requires In(s, id) != [] && Ring(s, id) == []
    requires id in In(s, id)[0].idList && In(s, id)[0].kind != Unknown
    ensures Valid(s, AnswerSteps(id)) && Answered(s, After(s, AnswerSteps(id)), id, In(s, id)[0])
  {
    hide In, Ring, DoExecute, DoSendReply;
    var s1 := DoExecute(s, id, 0, "", []);
    ExecuteFirst(s, id);
    var s2 := DoSendReply(s1, id);
    SendOnly(s1, id, AnswerTo(In(s, id)[0], id));
    assert Enabled(s, Execute(id, 0, "", [])) && Next(s, Execute(id, 0, "", [])) == s1;
    assert Enabled(s1, Step.SendReply(id)) && Next(s1, Step.SendReply(id)) == s2;
    assert Answered(s, s2, id, In(s, id)[0]);
    hide Next, Enabled, Answered;
    TwoSteps(s, Execute(id, 0, "", []), Step.SendReply(id));
  }

  lemma TwoSteps(s: Sys, e: Step, f: Step)
    requires Enabled(s, e) && Enabled(Next(s, e), f)
    ensures Valid(s, [e, f]) && After(s, [e, f]) == Next(Next(s, e), f)
  {
    assert [e, f][1..] == [f];
    hide Next, Enabled;
    RunOne(Next(s, e), f);
  }

  /** All devices of `ids` have exactly this request waiting and nothing in their rings. */
  predicate Waiting(s: Sys, ids: seq<nat>, r: Request) {
    forall i | 0 <= i < |ids| :: In(s, ids[i]) == [r] && Ring(s, ids[i]) == []
  }

  lemma DeliveredAll(s: Sys, t: Sys, r: Request)
    requires s.inbox == map[] && s.ring == map[] && t.ring == s.ring
    requires t.inbox == Deliver(s.inbox, Elements(r.idList), r)
    ensures Waiting(t, r.idList, r)
  {
    forall i | 0 <= i < |r.idList| ensures In(t, r.idList[i]) == [r] {
      assert r.idList[i] in Elements(r.idList);
      assert In(s, r.idList[i]) + [r] == [r];
    }
  }

  // ----- beginning alone -----

  /** A call fills its request and writes it, with nothing in between. */
  function BeginSteps(r: Request, reach: set<nat>): seq<Step> {
    [Fill(r), Broadcast(r.randomSeq, reach)]
  }

  function GetFrom(id: nat, q: nat): Request {
    Request([id], Get, q, "k", [])
  }

  /** The state after a call, or a transfer, has begun without another one of its function being open. */
  predicate Begun(s: Sys, t: Sys, r: Request, reach: set<nat>) {
    t == s.(sent := s.sent[r.randomSeq := r], buf := s.buf[r.kind := r.randomSeq], copies := s.copies[r.randomSeq := 1],
            inbox := Deliver(s.inbox, reach, r), calls := t.calls, devices := t.devices, xfer := t.xfer,
            allocs := t.allocs, kept := t.kept)
    && (CallKind(r.kind) ==>
          && t.calls == s.calls[r.randomSeq := s.now]
          && t.devices == s.devices && t.xfer == s.xfer && t.allocs == s.allocs && t.kept == s.kept)
    && (TransferKind(r.kind) ==>
          && t.calls == s.calls && t.devices == MarkRunning(s.devices, r.idList)
          && t.xfer == Stat(true, s.now, r.kind, r.randomSeq, r.idList, 0)
          && t.allocs == [] && t.kept == RegisteredOf(s.devices, r.idList))
  }

  lemma BeginAlone(s: Sys, r: Request, reach: set<nat>)
    requires Enabled(s, Fill(r)) && OpenOf(s, r.kind) == {} && r.randomSeq !in s.open
    ensures Valid(s, BeginSteps(r, reach)) && Begun(s, After(s, BeginSteps(r, reach)), r, reach)
  {
    var s1, e := DoFill(s, r), Broadcast(r.randomSeq, reach);
    assert s1 == s.(sent := s.sent[r.randomSeq := r], buf := s.buf[r.kind := r.randomSeq],
                    open := s.open + {r.randomSeq}, copies := s.copies[r.randomSeq := 1]);
    assert Enabled(s1, e) && Written(s1, r.randomSeq) == r.randomSeq;
    BroadcastFrame(s1, r.randomSeq, reach);
    assert s1.open - {r.randomSeq} == s.open;
    var t := Next(s1, e);
    assert Begun(s, t, r, reach);
    hide DoBroadcast, DoFill, Begun, Deliver, MarkRunning, RegisteredOf, OpenOf;
    TwoSteps(s, Fill(r), e);
  }

  // ----- calls -----

  function CollectAnswers(q: nat, ids: seq<nat>): seq<Step> {
    if ids == [] then [] else AnswerSteps(ids[0]) + [Collect(q, 0)] + CollectAnswers(q, ids[1..])
  }

  /** The call `q` of request `r` waits, is current, and nothing is on the net. */
  predicate Ready(s: Sys, r: Request) {
    var q := r.randomSeq;
    s.net == [] && q in s.calls && q in s.sent && s.sent[q] == r && CallKind(r.kind) && Current(s, q)
  }

  /** Nothing but messages has changed. */
  predicate Meanwhile(s: Sys, t: Sys) {
    t == s.(inbox := t.inbox, ring := t.ring, net := t.net, got := t.got)
  }

  lemma CollectOneAnswer(s: Sys, id: nat, r: Request)
    requires Ready(s, r) && In(s, id) != [] && In(s, id)[0] == r && Ring(s, id) == [] && id in r.idList
    ensures var run := AnswerSteps(id) + [Collect(r.randomSeq, 0)];
      && Valid(s, run)
      && var t := After(s, run);
        && Ready(t, r) && Meanwhile(s, t) && Got(t, r.randomSeq) == Got(s, r.randomSeq) + [AnswerTo(r, id)]
        && In(t, id) == In(s, id)[1..] && Ring(t, id) == []
        && forall x: nat | x != id :: In(t, x) == In(s, x) && Ring(t, x) == Ring(s, x)
  {
    AnswerOne(s, id);
    var s1, e := After(s, AnswerSteps(id)), Collect(r.randomSeq, 0);
    assert s1.net == [AnswerTo(r, id)] && Enabled(s1, e);
    var t := DoCollect(s1, r.randomSeq, 0);
    assert t.net == [] && Got(t, r.randomSeq) == Got(s, r.randomSeq) + [AnswerTo(r, id)];
    hide AnswerSteps, DoCollect, Drop;
    RunOne(s1, e);
    RunConcat(s, AnswerSteps(id), [e]);
  }

  lemma {:induction false} CollectAll(s: Sys, r: Request, ids: seq<nat>)
    requires Ready(s, r) && Waiting(s, ids, r) && Distinct(ids) && forall id | id in ids :: id in r.idList
    ensures var run := CollectAnswers(r.randomSeq, ids);
      Valid(s, run) && Meanwhile(s, After(s, run)) && |Got(After(s, run), r.randomSeq)| == |Got(s, r.randomSeq)| + |ids|
    decreases |ids|
  {
    if ids != [] {
      var first, rest := AnswerSteps(ids[0]) + [Collect(r.randomSeq, 0)], CollectAnswers(r.randomSeq, ids[1..]);
      CollectOneAnswer(s, ids[0], r);
      var t := After(s, first);
      assert Waiting(t, ids[1..], r);
      hide AnswerSteps, Waiting, Ready, Got;
      CollectAll(t, r, ids[1..]);
      RunConcat(s, first, rest);
    }
  }

  /** The run is one in which the call `r` may return before its timeout, and its request could be written only
      once. */
  predicate Completes(timeout: int, now: int, r: Request, run: seq<Step>) {
    && Valid(Init(timeout, now), run)
    && var s := After(Init(timeout, now), run);
      && r.randomSeq in s.sent && s.sent[r.randomSeq] == r && Enabled(s, Return(r.randomSeq))
      && s.now - s.calls[r.randomSeq] <= s.timeout && !Doubled(s, r.randomSeq)
  }

  lemma {:induction false} TimeoutFixed(s: Sys, run: seq<Step>)
    requires Valid(s, run)
    ensures After(s, run).timeout == s.timeout
    decreases |run|
  {
    if run != [] { TimeoutFixed(Next(s, run[0]), run[1..]); }
  }

  function CallRun(r: Request): seq<Step> {
    BeginSteps(r, Elements(r.idList)) + CollectAnswers(r.randomSeq, r.idList)
  }

  lemma CompletesThen(timeout: int, now: int, r: Request, run: seq<Step>, rest: seq<Step>)
    requires Valid(Init(timeout, now), run) && Valid(After(Init(timeout, now), run), rest)
    requires var s := After(After(Init(timeout, now), run), rest);
      && r.randomSeq in s.sent && s.sent[r.randomSeq] == r && Enabled(s, Return(r.randomSeq))
      && s.now - s.calls[r.randomSeq] <= s.timeout && !Doubled(s, r.randomSeq)
    ensures Completes(timeout, now, r, run + rest)
  {
    hide Next, Enabled, Init;
    RunConcat(Init(timeout, now), run, rest);
  }

  lemma CallBegins(timeout: int, now: int, r: Request)
    requires CallKind(r.kind)
    ensures var run := BeginSteps(r, Elements(r.idList));
      && Valid(Init(timeout, now), run)
      && var s := After(Init(timeout, now), run);
        && Ready(s, r) && Waiting(s, r.idList, r) && Got(s, r.randomSeq) == [] && !Doubled(s, r.randomSeq)
        && s.now == s.calls[r.randomSeq] && s.timeout == timeout
  {
    var s0, begin := Init(timeout, now), BeginSteps(r, Elements(r.idList));
    BeginAlone(s0, r, Elements(r.idList));
    DeliveredAll(s0, After(s0, begin), r);
  }

  lemma CallRunCompletes(timeout: nat, now: int, r: Request)
    requires CallKind(r.kind) && Distinct(r.idList)
    ensures Completes(timeout, now, r, CallRun(r))
  {
    hide BeginSteps, Waiting, Elements, CollectAnswers, Distinct;
    var begin := BeginSteps(r, Elements(r.idList));
    CallBegins(timeout, now, r);
    CollectAll(After(Init(timeout, now), begin), r, r.idList);
    CompletesThen(timeout, now, r, begin, CollectAnswers(r.randomSeq, r.idList));
  }

  /** A GET or SET call whose request can be written only once can return before its timeout if and only if its ID
      list names no device twice (and the timeout is not negative). */
  lemma CallCompletesIffDistinct(timeout: int, now: int, r: Request)
    requires CallKind(r.kind)
    ensures (exists run :: Completes(timeout, now, r, run)) <==> Distinct(r.idList) && timeout >= 0
  {
    if Distinct(r.idList) && timeout >= 0 { CallRunCompletes(timeout, now, r); }
    forall run | Completes(timeout, now, r, run) ensures Distinct(r.idList) && timeout >= 0 {
      CallComplete(timeout, now, run, r.randomSeq);
      TimeoutFixed(Init(timeout, now), run);
      InitInv(timeout, now);
      RunKeepsInv(Init(timeout, now), run);
    }
  }

  // ----- file transfers -----

  function AnnounceOf(id: nat): Op {
    Announce(Info(id, "", "", "", "", "", ""), id, (Done, EMPTY_RESULT))
  }

  function AnnounceSteps(ids: seq<nat>): seq<Step> {
    if ids == [] then [] else [Admin(AnnounceOf(ids[0]))] + AnnounceSteps(ids[1..])
  }

  /** Announced devices are registered. */
  lemma {:induction false} AnnounceAll(s: Sys, ids: seq<nat>)
    requires !s.xfer.running && s.kept == {}
    ensures var run := AnnounceSteps(ids);
      && Valid(s, run)
      && var t := After(s, run);
        t == s.(devices := t.devices) && (forall id | id in ids :: Registered(t.devices, id))
        && forall x: nat | Registered(s.devices, x) :: Registered(t.devices, x)
    decreases |ids|
  {
    if ids != [] {
      var run, a := AnnounceSteps(ids), AnnounceOf(ids[0]);
      var t := Next(s, run[0]);
      assert t == s.(devices := Add(s.devices, a.info, a.handle, a.junk));
      assert run[1..] == AnnounceSteps(ids[1..]);
      forall x: nat | x == ids[0] || Registered(s.devices, x) ensures Registered(t.devices, x) {
        AnnouncedRegistered(s.devices, a, x);
      }
      hide Registered, Add, AnnounceSteps, AnnounceOf;
      AnnounceAll(t, ids[1..]);
    }
  }

  lemma AnnouncedRegistered(ds: seq<Device>, a: Op, x: nat)
    requires a.Announce? && (a.info.deviceID == x || Registered(ds, x))
    ensures Registered(Add(ds, a.info, a.handle, a.junk), x)
  {
    if Registered(ds, x) { StatusAfterAdd(ds, a.info, a.handle, a.junk, x); }
  }

  function PollAnswers(ids: seq<nat>): seq<Step> {
    if ids == [] then [] else AnswerSteps(ids[0]) + [Poll(0, Malloc(true, 0))] + PollAnswers(ids[1..])
  }

  /** The transfer of request `r` is running, its targets have been registered all along, and nothing is on the
      net. */
  predicate Running(s: Sys, r: Request) {
    && s.net == [] && Elements(r.idList) <= s.kept && s.xfer.running && s.xfer.kind == r.kind
    && s.xfer.randomSeq == r.randomSeq && s.xfer.ids == r.idList && TransferKind(r.kind)
    && r.randomSeq in s.sent && s.sent[r.randomSeq] == r && !Doubled(s, r.randomSeq)
  }

  /** From s to t the transfer has accepted one reply, of device `id`. */
  ghost predicate Polled(s: Sys, t: Sys, id: nat) {
    && t == s.(inbox := t.inbox, ring := t.ring, net := [], got := t.got, allocs := t.allocs, devices := t.devices,
               xfer := s.xfer.(recvNum := s.xfer.recvNum + 1))
    && In(s, id) != [] && In(t, id) == In(s, id)[1..] && Ring(t, id) == []
    && (forall x: nat | x != id :: In(t, x) == In(s, x) && Ring(t, x) == Ring(s, x))
    && forall x: nat ::
         && Registered(t.devices, x) == Registered(s.devices, x)
         && (x != id ==> GetStatus(t.devices, x) == GetStatus(s.devices, x))
  }

  lemma PollFirst(s: Sys, p: Reply)
    requires s.net == [p] && s.xfer.running && ForTransfer(s.xfer, p)
    ensures var e := Poll(0, Malloc(true, 0));
      && Enabled(s, e)
      && var t := Next(s, e);
        && t == s.(net := [], got := t.got, allocs := t.allocs, devices := t.devices,
                   xfer := s.xfer.(recvNum := s.xfer.recvNum + 1))
        && forall x: nat ::
             && Registered(t.devices, x) == Registered(s.devices, x)
             && (x != p.deviceID ==> GetStatus(t.devices, x) == GetStatus(s.devices, x))
  {
    var m := Malloc(true, 0);
    var t := DoPoll(s, 0, m);
    assert t.net == [] && t.xfer == s.xfer.(recvNum := s.xfer.recvNum + 1);
    forall x: nat
      ensures Registered(t.devices, x) == Registered(s.devices, x)
      ensures x != p.deviceID ==> GetStatus(t.devices, x) == GetStatus(s.devices, x)
    {
      StatusAfterSet(s.devices, p.deviceID, StatusOf(p, m), ResultOf(p, m), x);
    }
    hide Drop, GetStatus, Registered;
  }

  lemma SameMessages(s: Sys, t: Sys)
    ensures t.inbox == s.inbox ==> forall x: nat :: In(t, x) == In(s, x)
    ensures t.ring == s.ring ==> forall x: nat :: Ring(t, x) == Ring(s, x)
  {
  }

  lemma PollOneAnswer(s: Sys, id: nat, r: Request)
    requires s.net == [] && s.xfer.running && s.xfer.kind == r.kind && s.xfer.randomSeq == r.randomSeq
    requires TransferKind(r.kind) && id in r.idList && In(s, id) != [] && In(s, id)[0] == r && Ring(s, id) == []
    ensures var run := AnswerSteps(id) + [Poll(0, Malloc(true, 0))];
      Valid(s, run) && Polled(s, After(s, run), id)
  {
    hide AnswerSteps, GetStatus, Registered, Next, Enabled, After, Valid, In, Ring;
    AnswerOne(s, id);
    var s1, e := After(s, AnswerSteps(id)), Poll(0, Malloc(true, 0));
    assert s1.net == [AnswerTo(r, id)] && ForTransfer(s1.xfer, AnswerTo(r, id));
    PollFirst(s1, AnswerTo(r, id));
    SameMessages(s1, Next(s1, e));
    RunOne(s1, e);
    RunConcat(s, AnswerSteps(id), [e]);
  }

  lemma {:induction false} PollEveryAnswer(s: Sys, r: Request, ids: seq<nat>)
    requires Running(s, r) && Waiting(s, ids, r) && Distinct(ids) && forall id | id in ids :: id in r.idList
    ensures Valid(s, PollAnswers(ids))
    ensures var t := After(s, PollAnswers(ids)); Running(t, r) && t.xfer.recvNum == s.xfer.recvNum + |ids|
    decreases |ids|
  {
    if ids != [] {
      var first, rest := AnswerSteps(ids[0]) + [Poll(0, Malloc(true, 0))], PollAnswers(ids[1..]);
      PollOneAnswer(s, ids[0], r);
      var t := After(s, first);
      assert Waiting(t, ids[1..], r);
      hide AnswerSteps, Waiting, Running;
      PollEveryAnswer(t, r, ids[1..]);
      RunConcat(s, first, rest);
    }
  }

  /** The transfer `r` may end by its counter, with all targets registered all along, and its request could be
      written only once. */
  predicate MayFinish(s: Sys, r: Request) {
    && r.randomSeq in s.sent && s.sent[r.randomSeq] == r
    && Enabled(s, Finish) && s.xfer.randomSeq == r.randomSeq && Elements(r.idList) <= s.kept
    && !Doubled(s, r.randomSeq)
  }

  predicate Finishes(timeout: int, now: int, r: Request, run: seq<Step>) {
    Valid(Init(timeout, now), run) && MayFinish(After(Init(timeout, now), run), r)
  }

  function TransferRun(r: Request): seq<Step> {
    AnnounceSteps(r.idList) + BeginSteps(r, Elements(r.idList)) + PollAnswers(r.idList)
  }

  lemma TransferBegins(s: Sys, r: Request)
    requires TransferKind(r.kind) && (r.kind == Export ==> |r.idList| == 1)
    requires s == Init(s.timeout, s.now).(devices := s.devices)
    requires forall id | id in r.idList :: Registered(s.devices, id)
    ensures var run := BeginSteps(r, Elements(r.idList));
      && Valid(s, run)
      && var t := After(s, run); Running(t, r) && t.xfer.recvNum == 0 && Waiting(t, r.idList, r)
  {
    BeginAlone(s, r, Elements(r.idList));
    DeliveredAll(s, After(s, BeginSteps(r, Elements(r.idList))), r);
  }

  lemma TransferStarts(timeout: int, now: int, r: Request)
    requires TransferKind(r.kind) && (r.kind == Export ==> |r.idList| == 1)
    ensures var run := AnnounceSteps(r.idList) + BeginSteps(r, Elements(r.idList));
      && Valid(Init(timeout, now), run)
      && var s := After(Init(timeout, now), run); Running(s, r) && s.xfer.recvNum == 0 && Waiting(s, r.idList, r)
  {
    var s0 := Init(timeout, now);
    AnnounceAll(s0, r.idList);
    TransferBegins(After(s0, AnnounceSteps(r.idList)), r);
    hide *;
    RunConcat(s0, AnnounceSteps(r.idList), BeginSteps(r, Elements(r.idList)));
  }

  lemma RunningFinishes(s: Sys, r: Request)
    requires Running(s, r) && s.xfer.recvNum == |r.idList|
    ensures MayFinish(s, r)
  {
  }

  lemma FinishesThen(timeout: int, now: int, r: Request, run: seq<Step>, rest: seq<Step>)
    requires Valid(Init(timeout, now), run)
    requires var s := After(Init(timeout, now), run); Valid(s, rest) && MayFinish(After(s, rest), r)
    ensures Finishes(timeout, now, r, run + rest)
  {
    hide Next, Enabled, Init;
    RunConcat(Init(timeout, now), run, rest);
  }

  lemma TransferRunFinishes(timeout: int, now: int, r: Request)
    requires TransferKind(r.kind) && (r.kind == Export ==> |r.idList| == 1) && Distinct(r.idList)
    ensures Finishes(timeout, now, r, TransferRun(r))
  {
    var run := AnnounceSteps(r.idList) + BeginSteps(r, Elements(r.idList));
    TransferStarts(timeout, now, r);
    var s := After(Init(timeout, now), run);
    hide AnnounceSteps, PollAnswers, Waiting;
    PollEveryAnswer(s, r, r.idList);
    RunningFinishes(After(s, PollAnswers(r.idList)), r);
    hide *;
    FinishesThen(timeout, now, r, run, PollAnswers(r.idList));
  }

  /** A file transfer whose request can be written only once can end by its counter, with all targets registered
      all along, if and only if its ID list names no device twice. */
  lemma TransferFinishesIffDistinct(timeout: int, now: int, r: Request)
    requires TransferKind(r.kind) && (r.kind == Export ==> |r.idList| == 1)
    ensures (exists run :: Finishes(timeout, now, r, run)) <==> Distinct(r.idList)
  {
    if Distinct(r.idList) { TransferRunFinishes(timeout, now, r); }
    forall run | Finishes(timeout, now, r, run) ensures Distinct(r.idList) {
      TransferComplete(timeout, now, run);
      InitInv(timeout, now);
      RunKeepsInv(Init(timeout, now), run);
    }
  }
}
