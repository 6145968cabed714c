/** Calls of the same function share one static request, with which every reply is compared. So a later call
    of the same function makes an earlier one that still waits reject, and lose, all its further replies. */
module SharedRequest {
  import opened Messages
  import opened Transfer
  import opened Protocol
  import opened ProtocolInvariant
  import opened ProtocolTheorems
  import opened Completion

  /** Does a call of the function `kind` fill its request in the run? */
  predicate Fills(run: seq<Step>, kind: Kind) {
    run != [] && ((run[0].Fill? && run[0].req.kind == kind) || Fills(run[1..], kind))
  }

  /** An exchange stays current exactly until a later call of the same function fills its request. */
  lemma {:induction false} CurrentRun(s: Sys, run: seq<Step>, q: nat)
    requires Valid(s, run) && q in s.sent
    ensures q in After(s, run).sent && After(s, run).sent[q] == s.sent[q]
    ensures Current(After(s, run), q) <==> Current(s, q) && !Fills(run, s.sent[q].kind)
    decreases |run|
  {
    if run != [] {
      CurrentStep(s, run[0], q);
      hide Next, Enabled, Current;
      CurrentRun(Next(s, run[0]), run[1..], q);
    }
  }

  /** A reply that a waiting call takes is kept exactly if the call is current; it is gone in either case. */
  lemma CollectKeepsIffCurrent(s: Sys, q: nat, i: nat)
    requires MessagesSane(s) && Enabled(s, Collect(q, i))
    ensures Next(s, Collect(q, i)).net == Drop(s.net, i)
    ensures Got(Next(s, Collect(q, i)), q) == Got(s, q) + if Current(s, q) then [s.net[i]] else []
  {
    assert Answers(s.sent, s.net[i]);
  }

  /** Over all runs: the reply that a waiting call takes is accepted if and only if no later call of the same
      function has filled the request since it did itself. */
  lemma AcceptedIffNotOvertaken(timeout: int, now: int, before: seq<Step>, e: Step, later: seq<Step>, i: nat)
    requires e.Fill? && CallKind(e.req.kind) && Valid(Init(timeout, now), before)
    requires Enabled(After(Init(timeout, now), before), e)
    requires Valid(Next(After(Init(timeout, now), before), e), later)
    requires Enabled(After(Next(After(Init(timeout, now), before), e), later), Collect(e.req.randomSeq, i))
    ensures var s, q := After(Next(After(Init(timeout, now), before), e), later), e.req.randomSeq;
      var got, got' := Got(s, q), Got(Next(s, Collect(q, i)), q);
      && (got' == got + [s.net[i]] <==> !Fills(later, e.req.kind))
      && (got' == got <==> Fills(later, e.req.kind))
  {
    var s0, q := After(Init(timeout, now), before), e.req.randomSeq;
    var s1 := Next(s0, e);
    assert q in s1.sent && s1.sent[q] == e.req && Current(s1, q);
    hide Next, Enabled, Current, Got;
    InitInv(timeout, now);
    RunKeepsInv(Init(timeout, now), before);
    StepKeepsInv(s0, e);
    RunKeepsInv(s1, later);
    CurrentRun(s1, later, q);
    hide Fills, After, Valid;
    CollectKeepsIffCurrent(After(s1, later), q, i);
  }

  /** An overtaken call accepts nothing more. */
  lemma OvertakenStep(s: Sys, e: Step, q: nat)
    requires TransferSane(s) && Enabled(s, e) && q in s.sent && CallKind(s.sent[q].kind) && !Current(s, q)
    ensures Got(Next(s, e), q) == Got(s, q)
  {
    match e {
      case Broadcast(q', reach) => BroadcastFrame(s, q', reach);
      case _ =>
    }
    hide Deliver, MarkRunning, RegisteredOf, AcceptDevices, Sweep, Drop, In, Ring, OpenOf, Doubled,
      DoBroadcast, Current;
  }

  lemma {:induction false} OvertakenRun(s: Sys, run: seq<Step>, q: nat)
    requires Inv(s) && Valid(s, run) && q in s.sent && CallKind(s.sent[q].kind) && !Current(s, q)
    ensures Got(After(s, run), q) == Got(s, q)
    decreases |run|
  {
    if run != [] {
      OvertakenStep(s, run[0], q);
      CurrentStep(s, run[0], q);
      StepKeepsInv(s, run[0]);
      hide Next, Enabled, Current, Inv, Got;
      OvertakenRun(Next(s, run[0]), run[1..], q);
    }
  }

  /** A call that is overtaken before its list is full returns only past its timeout. */
  lemma OvertakenTimesOut(s: Sys, run: seq<Step>, q: nat)
    requires Inv(s) && Valid(s, run) && q in s.sent && CallKind(s.sent[q].kind) && !Current(s, q)
    requires |Got(s, q)| < |s.sent[q].idList| && Enabled(After(s, run), Return(q))
    ensures var s' := After(s, run); s'.now - s'.calls[q] > s'.timeout
  {
    OvertakenRun(s, run, q);
    CurrentRun(s, run, q);
  }

  // ----- two calls at the same time -----

  function BothBegin(): seq<Step> {
    BeginSteps(GetFrom(7, 1), {7}) + BeginSteps(GetFrom(7, 2), {7})
  }

  /** Two GET calls for one device, one after the other; the device answers the first, which takes the answer. */
  function TwoCalls(): seq<Step> {
    BothBegin() + (AnswerSteps(7) + [Collect(1, 0)])
  }

  lemma BothBegun(timeout: int, now: int)
    ensures Valid(Init(timeout, now), BothBegin())
    ensures var s := After(Init(timeout, now), BothBegin());
      && In(s, 7) == [GetFrom(7, 1), GetFrom(7, 2)] && Ring(s, 7) == [] && s.net == [] && Got(s, 1) == []
      && 1 in s.calls && 1 in s.sent && s.sent[1] == GetFrom(7, 1) && !Current(s, 1) && s.now == now == s.calls[1]
      && s.timeout == timeout
  {
    var s0 := Init(timeout, now);
    BeginAlone(s0, GetFrom(7, 1), {7});
    var s1 := After(s0, BeginSteps(GetFrom(7, 1), {7}));
    assert In(s1, 7) == [GetFrom(7, 1)];
    BeginAlone(s1, GetFrom(7, 2), {7});
    var s2 := After(s1, BeginSteps(GetFrom(7, 2), {7}));
    assert In(s2, 7) == [GetFrom(7, 1), GetFrom(7, 2)];
    hide BeginSteps;
    RunConcat(s0, BeginSteps(GetFrom(7, 1), {7}), BeginSteps(GetFrom(7, 2), {7}));
  }

  /** An overtaken call takes an answer to its request: the answer is lost. */
  lemma AnswerLost(s: Sys, id: nat, r: Request)
    requires s.net == [] && r.randomSeq in s.calls && r.randomSeq in s.sent && s.sent[r.randomSeq] == r
    requires CallKind(r.kind) && !Current(s, r.randomSeq)
    requires In(s, id) != [] && In(s, id)[0] == r && Ring(s, id) == [] && id in r.idList
    ensures var run := AnswerSteps(id) + [Collect(r.randomSeq, 0)];
      && Valid(s, run)
      && var t := After(s, run); t == s.(inbox := t.inbox, ring := t.ring) && In(t, id) == In(s, id)[1..]
  {
    AnswerOne(s, id);
    var s1, e := After(s, AnswerSteps(id)), Collect(r.randomSeq, 0);
    assert s1.net == [AnswerTo(r, id)] && Enabled(s1, e);
    var t := DoCollect(s1, r.randomSeq, 0);
    assert t == s1.(net := []);
    hide AnswerSteps, DoCollect, Drop;
    RunOne(s1, e);
    RunConcat(s, AnswerSteps(id), [e]);
  }

  /** The first call takes its answer, rejects it and goes on waiting with an empty list: the answer is lost. */
  lemma TwoCallsLose(timeout: nat, now: int)
    ensures Valid(Init(timeout, now), TwoCalls())
    ensures var s := After(Init(timeout, now), TwoCalls());
      Got(s, 1) == [] && s.net == [] && In(s, 7) == [GetFrom(7, 2)] && 1 in s.calls && !Enabled(s, Return(1))
  {
    hide BothBegin, AnswerSteps, Init, After, Valid;
    BothBegun(timeout, now);
    var s0 := Init(timeout, now);
    var s2, rest := After(s0, BothBegin()), AnswerSteps(7) + [Collect(1, 0)];
    AnswerLost(s2, 7, GetFrom(7, 1));
    var t := After(s2, rest);
    assert Got(t, 1) == [] && !Enabled(t, Return(1)) && In(t, 7) == [GetFrom(7, 2)];
    hide *;
    RunConcat(s0, BothBegin(), rest);
  }
}
