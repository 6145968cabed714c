/** A waiting call and everything that happens meanwhile: the loop of a GET or SET call, whose polls alternate
    with steps of agents, of other calls and of the file transfer, is a run of protocol steps. So the theorems
    about all runs give its result list room for every reply and give its result. */
module WaitRefinement {
  import opened Wrappers
  import opened Messages
  import opened Transfer
  import opened Protocol
  import opened ProtocolInvariant
  import opened ProtocolTheorems
  import opened DataInfoServer
  import opened ServerRefinement

  // ----- between two polls -----

  /** Steps that are not of the waiting call q. */
  predicate Foreign(run: seq<Step>, q: nat) {
    run == [] || (run[0] != Return(q) && !(run[0].Collect? && run[0].q == q) && Foreign(run[1..], q))
  }

  /** The replies under number q that a step puts on the net. */
  function SentBy(s: Sys, e: Step, q: nat): seq<Reply>
    requires Enabled(s, e)
  {
    if e.SendReply? && Ring(s, e.agent)[0].randomSeq == q then [Ring(s, e.agent)[0]] else []
  }

  function SentIn(s: Sys, run: seq<Step>, q: nat): seq<Reply>
    requires Valid(s, run)
    decreases |run|
  {
    if run == [] then [] else SentBy(s, run[0], q) + SentIn(Next(s, run[0]), run[1..], q)
  }

  /** The call q, of a GET or SET function, is waiting. */
  predicate Waits(s: Sys, q: nat) {
    q in s.calls && q in s.sent && CallKind(s.sent[q].kind)
  }

  /** From s to t the call went on waiting, accepted nothing, and the replies `sent` arrived under its number. */
  predicate Meanwhile(s: Sys, t: Sys, q: nat, sent: seq<Reply>)
    requires Waits(s, q)
  {
    && Waits(t, q) && t.calls[q] == s.calls[q] && t.sent[q] == s.sent[q] && t.timeout == s.timeout
    && Got(t, q) == Got(s, q) && (Current(t, q) ==> Current(s, q))
    && (s.sent[q].kind in s.buf ==> s.sent[q].kind in t.buf)
    && Instance(t.net, q) == Instance(s.net, q) + sent
  }

  lemma MeanwhileTwice(s: Sys, t: Sys, u: Sys, q: nat, a: seq<Reply>, b: seq<Reply>)
    requires Waits(s, q) && Meanwhile(s, t, q, a) && Meanwhile(t, u, q, b)
    ensures Meanwhile(s, u, q, a + b)
  {
    hide Instance, Got, Current;
    assert Instance(s.net, q) + a + b == Instance(s.net, q) + (a + b);
  }

  /** A step that is not of the call q keeps the call's own data. */
  lemma ForeignKeeps(s: Sys, e: Step, q: nat)
    requires CallsSane(s) && TransferSane(s) && Waits(s, q) && Enabled(s, e) && e != Return(q)
      && !(e.Collect? && e.q == q)
    ensures var t := Next(s, e);
      && Waits(t, q) && t.calls[q] == s.calls[q] && t.sent[q] == s.sent[q] && t.timeout == s.timeout
      && Got(t, q) == Got(s, q) && (s.sent[q].kind in s.buf ==> s.sent[q].kind in t.buf)
  {
    SentStays(s, e, q);
    StepFrame(s, e);
    if e.Broadcast? { BroadcastFrame(s, e.q, e.reach); }
    hide Sweep, MarkRunning, AcceptDevices, Deliver, RegisteredOf, Drop, In, Ring, Current, OpenOf, Copies,
      DoBroadcast, DoFill;
  }

  lemma ForeignNet(s: Sys, e: Step, q: nat)
    requires CallsSane(s) && TransferSane(s) && Waits(s, q) && Enabled(s, e) && e != Return(q)
      && !(e.Collect? && e.q == q)
    ensures Instance(Next(s, e).net, q) == Instance(s.net, q) + SentBy(s, e, q)
  {
    hide Sweep, MarkRunning, AcceptDevices, Deliver, RegisteredOf, Current, Accepted, OpenOf, Doubled;
    match e {
      case SendReply(id) => OthersConcat(s.net, [Ring(s, id)[0]], q);
      case Collect(q', i) => InstanceDrop(s.net, i, q);
      case Poll(i, m) => InstanceDrop(s.net, i, q);
      case _ =>
    }
  }

  lemma ForeignStep(s: Sys, e: Step, q: nat)
    requires Inv(s) && Waits(s, q) && Enabled(s, e) && e != Return(q) && !(e.Collect? && e.q == q)
    ensures Meanwhile(s, Next(s, e), q, SentBy(s, e, q))
  {
    CurrentStep(s, e, q);
    ForeignKeeps(s, e, q);
    ForeignNet(s, e, q);
    hide Next, Current, Instance, Got;
  }

  lemma {:induction false} ForeignRun(s: Sys, run: seq<Step>, q: nat)
    requires Inv(s) && Waits(s, q) && Valid(s, run) && Foreign(run, q)
    ensures Inv(After(s, run)) && Meanwhile(s, After(s, run), q, SentIn(s, run, q))
    decreases |run|
  {
    if run != [] {
      var s' := Next(s, run[0]);
      ForeignStep(s, run[0], q);
      StepKeepsInv(s, run[0]);
      hide Next, Enabled, Inv, SentBy, Waits, Meanwhile;
      ForeignRun(s', run[1..], q);
      MeanwhileTwice(s, s', After(s, run), q, SentBy(s, run[0], q), SentIn(s', run[1..], q));
    }
  }

  lemma {:induction false} SentInInstance(s: Sys, run: seq<Step>, q: nat)
    requires Valid(s, run)
    ensures Instance(SentIn(s, run, q), q) == SentIn(s, run, q)
    decreases |run|
  {
    if run != [] {
      SentInInstance(Next(s, run[0]), run[1..], q);
      OthersConcat(SentBy(s, run[0], q), SentIn(Next(s, run[0]), run[1..], q), q);
    }
  }

  // ----- polls -----

  /** What the poll after the steps `env` sees. */
  function PollAfter(s: Sys, env: seq<Step>, q: nat): PollInput
    requires q in s.sent && Valid(s, env) && q in After(s, env).sent
  {
    var t := After(s, env);
    PollInput(SentIn(s, env, q),
              if Current(s, q) && !Current(t, q) && t.sent[q].kind in t.buf then Some(t.buf[t.sent[q].kind]) else None,
              t.now)
  }

  /** One turn of the waiting loop: what happens meanwhile, then the poll. */
  function TurnSteps(s: Sys, env: seq<Step>, q: nat): seq<Step>
    requires Valid(s, env)
  {
    env + CollectSteps(After(s, env).net, q)
  }

  /** Turns whose environment steps are possible and not of the call itself. */
  predicate Turns(s: Sys, envs: seq<seq<Step>>, q: nat)
    decreases |envs|
  {
    envs == [] ||
    (&& q in s.sent && Valid(s, envs[0]) && Foreign(envs[0], q) && q in After(s, envs[0]).sent
     && Valid(s, TurnSteps(s, envs[0], q)) && Turns(After(s, TurnSteps(s, envs[0], q)), envs[1..], q))
  }

  /** All steps of the loop. */
  function Steps(s: Sys, envs: seq<seq<Step>>, q: nat): seq<Step>
    requires Turns(s, envs, q)
    decreases |envs|
  {
    if envs == [] then []
    else
      var turn := TurnSteps(s, envs[0], q);
      turn + Steps(After(s, turn), envs[1..], q)
  }

  /** What the polls of the loop see. */
  function Polls(s: Sys, envs: seq<seq<Step>>, q: nat): (polls: seq<PollInput>)
    requires Turns(s, envs, q)
    ensures |polls| == |envs|
    decreases |envs|
  {
    if envs == [] then []
    else [PollAfter(s, envs[0], q)] + Polls(After(s, TurnSteps(s, envs[0], q)), envs[1..], q)
  }

  /** The loop's state and the protocol's state agree on the call. */
  predicate Mirrors(w: WaitState, s: Sys, q: nat)
    requires q in s.sent
  {
    w.got == Got(s, q) && Instance(w.samples, q) == Instance(s.net, q) && w.current == Current(s, q) && w.now == s.now
  }

  /** The poll of a turn is always possible. */
  lemma TurnIsRun(s: Sys, env: seq<Step>, q: nat)
    requires Inv(s) && Waits(s, q) && Valid(s, env) && Foreign(env, q)
    ensures var t, run := After(s, env), TurnSteps(s, env, q);
      && Meanwhile(s, t, q, SentIn(s, env, q)) && Valid(s, run)
      && var u := After(s, run);
        && Inv(u) && u == t.(net := Others(t.net, q), got := u.got)
        && Got(u, q) == Got(t, q) + Kept(Instance(t.net, q), t.sent[q].kind, Current(t, q))
  {
    ForeignRun(s, env, q);
    var t := After(s, env);
    PollIsRun(t, q);
    RunKeepsInv(t, CollectSteps(t.net, q));
    hide Kept, Instance, Others, Got, Inv, Current;
    RunConcat(s, env, CollectSteps(t.net, q));
  }

  lemma TurnMirrors(w: WaitState, s: Sys, env: seq<Step>, q: nat)
    requires Inv(s) && Waits(s, q) && Valid(s, env) && Foreign(env, q) && Mirrors(w, s, q)
    ensures Valid(s, TurnSteps(s, env, q)) && q in After(s, env).sent
    ensures var u := After(s, TurnSteps(s, env, q));
      && Inv(u) && Waits(u, q) && u.calls[q] == s.calls[q] && u.sent[q] == s.sent[q] && u.timeout == s.timeout
      && Mirrors(PollStep(w, PollAfter(s, env, q), s.sent[q].kind, q), u, q)
  {
    TurnIsRun(s, env, q);
    SentInInstance(s, env, q);
    var t, u := After(s, env), After(s, TurnSteps(s, env, q));
    CurrentAfter(s, t, u, env, q);
    var p := PollAfter(s, env, q);
    hide Current, TurnSteps, Inv, SentIn, After, Valid, PollAfter;
    PollMirrors(w, p, t, u, q);
  }

  lemma CurrentAfter(s: Sys, t: Sys, u: Sys, env: seq<Step>, q: nat)
    requires Waits(s, q) && Valid(s, env) && t == After(s, env) && Meanwhile(s, t, q, SentIn(s, env, q))
    requires u == t.(net := u.net, got := u.got)
    ensures var p := PollAfter(s, env, q);
      && p.arrivals == SentIn(s, env, q) && p.now == t.now
      && Current(u, q) == Current(t, q) == (Current(s, q) && p.later.None?)
  {
  }

  lemma PollMirrors(w: WaitState, p: PollInput, t: Sys, u: Sys, q: nat)
    requires q in t.sent && u == t.(net := Others(t.net, q), got := u.got)
    requires w.got == Got(t, q) && Instance(w.samples, q) + p.arrivals == Instance(t.net, q)
    requires Instance(p.arrivals, q) == p.arrivals && p.now == t.now
    requires Current(u, q) == Current(t, q) == (w.current && p.later.None?)
    requires Got(u, q) == Got(t, q) + Kept(Instance(t.net, q), t.sent[q].kind, Current(t, q))
    ensures Mirrors(PollStep(w, p, t.sent[q].kind, q), u, q)
  {
    OthersConcat(w.samples, p.arrivals, q);
    NothingLeft(w.samples + p.arrivals, q);
    NothingLeft(t.net, q);
    hide Instance, Others, Kept, Got, Current;
  }

  // ----- the loop -----

  /** The loop is a run, and at every poll it agrees with the protocol. */
  lemma {:induction false} LoopMirrors(w: WaitState, s: Sys, envs: seq<seq<Step>>, q: nat)
    requires Inv(s) && Waits(s, q) && Turns(s, envs, q) && Mirrors(w, s, q)
    ensures Valid(s, Steps(s, envs, q))
    ensures var u := After(s, Steps(s, envs, q));
      && Inv(u) && Waits(u, q) && u.calls[q] == s.calls[q] && u.sent[q] == s.sent[q] && u.timeout == s.timeout
      && Mirrors(PollAll(w, Polls(s, envs, q), s.sent[q].kind, q), u, q)
    decreases |envs|
  {
    if envs != [] {
      var turn, p := TurnSteps(s, envs[0], q), PollAfter(s, envs[0], q);
      TurnMirrors(w, s, envs[0], q);
      var t, rest := After(s, turn), Steps(After(s, turn), envs[1..], q);
      assert Polls(s, envs, q)[0] == p && Polls(s, envs, q)[1..] == Polls(t, envs[1..], q);
      hide Inv, Mirrors, PollStep, PollAfter, TurnSteps, Waits;
      LoopMirrors(PollStep(w, p, s.sent[q].kind, q), t, envs[1..], q);
      RunConcat(s, turn, rest);
    }
  }

  /** Room for a whole wait: from any reachable state, whatever happens between the polls, what the call keeps
      fits its list, if its request could be written only once. */
  lemma WaitHasRoom(s: Sys, envs: seq<seq<Step>>, q: nat)
    requires Inv(s) && Waits(s, q) && Turns(s, envs, q)
    ensures Valid(s, Steps(s, envs, q))
    ensures var w := WaitState(Got(s, q), s.net, Current(s, q), s.now);
      !Doubled(s, q) ==> |PollAll(w, Polls(s, envs, q), s.sent[q].kind, q).got| <= |s.sent[q].idList|
  {
    LoopMirrors(WaitState(Got(s, q), s.net, Current(s, q), s.now), s, envs, q);
    SentRun(s, Steps(s, envs, q), q);
    if !Doubled(s, q) { CollectedDistinct(After(s, Steps(s, envs, q)), q); }
  }

  /** The first turns of a loop. */
  lemma {:induction false} FirstTurns(s: Sys, envs: seq<seq<Step>>, q: nat, n: nat)
    requires Turns(s, envs, q) && n <= |envs|
    ensures Turns(s, envs[..n], q) && Polls(s, envs[..n], q) == Polls(s, envs, q)[..n]
    decreases n
  {
    hide After, Valid, TurnSteps, PollAfter, Foreign;
    if n > 0 {
      assert envs[..n][0] == envs[0] && envs[..n][1..] == envs[1..][..n - 1];
      var t := After(s, TurnSteps(s, envs[0], q));
      assert Turns(t, envs[1..], q);
      FirstTurns(t, envs[1..], q, n - 1);
    }
  }

  /** A later call never writes this call's number. */
  lemma {:induction false} LaterIsOther(s: Sys, envs: seq<seq<Step>>, q: nat)
    requires Turns(s, envs, q)
    ensures forall i | 0 <= i < |envs| :: Polls(s, envs, q)[i].later != Some(q)
    decreases |envs|
  {
    if envs != [] {
      assert PollAfter(s, envs[0], q).later != Some(q);
      LaterIsOther(After(s, TurnSteps(s, envs[0], q)), envs[1..], q);
    }
  }

  /** The result of a call that stops in state t. */
  ghost predicate Result(t: Sys, q: nat, start: int, infos: seq<DataInfo>) {
    && q in t.sent
    && var ids, from := t.sent[q].idList, Senders(Got(t, q));
      && infos == Entries(Got(t, q)) && Distinct(from) && (forall id | id in from :: id in ids)
      && (|infos| == |ids| || t.now - start > t.timeout)
      && (|infos| == |ids| ==> multiset(from) == multiset(ids))
  }

  /** After m turns the call may not return yet: its list is not full and its time is not up. */
  predicate WaitsOn(t: Sys, q: nat, start: int) {
    q in t.sent && |Got(t, q)| != |t.sent[q].idList| && t.now - start <= t.timeout
  }

  /** Before each of the first n turns. */
  predicate WaitsUntil(s: Sys, envs: seq<seq<Step>>, q: nat, start: int, n: nat) {
    forall m: nat | m < n ::
      && m <= |envs| && Turns(s, envs[..m], q) && Valid(s, Steps(s, envs[..m], q))
      && WaitsOn(After(s, Steps(s, envs[..m], q)), q, start)
  }

  /** Before each turn that the loop takes, the protocol's state agrees that the call may not return yet. */
  lemma StillWaits(w: WaitState, s: Sys, envs: seq<seq<Step>>, q: nat, start: int, n: nat)
    requires Inv(s) && Waits(s, q) && Turns(s, envs, q) && Mirrors(w, s, q) && n <= |envs|
    requires forall m: nat | m < n ::
      var v := PollAll(w, Polls(s, envs, q)[..m], s.sent[q].kind, q);
      |v.got| != |s.sent[q].idList| && v.now - start <= s.timeout
    ensures WaitsUntil(s, envs, q, start, n)
  {
    hide Inv, Turns, Polls, Steps, After, Valid, PollAll, Got, Current;
    forall m: nat | m < n
      ensures Turns(s, envs[..m], q) && Valid(s, Steps(s, envs[..m], q))
      ensures WaitsOn(After(s, Steps(s, envs[..m], q)), q, start)
    {
      FirstTurns(s, envs, q, m);
      LoopMirrors(w, s, envs[..m], q);
      assert |PollAll(w, Polls(s, envs, q)[..m], s.sent[q].kind, q).got| != |s.sent[q].idList|;
    }
  }

  /** The loop stops after n turns: with one reply from every target, or past its timeout, with replies of
      distinct targets in any case, if its request could be written only once. It does not stop later: before each of
      these turns its list was not full and its time not up. */
  lemma WaitResult(w: WaitState, s: Sys, envs: seq<seq<Step>>, q: nat, start: int) returns (n: nat)
    requires Inv(s) && Waits(s, q) && Turns(s, envs, q) && Mirrors(w, s, q) && w.got == [] && start == s.now
    requires envs != [] && Polls(s, envs, q)[|envs| - 1].now - start > s.timeout
    ensures n <= |envs| && Turns(s, envs[..n], q) && Valid(s, Steps(s, envs[..n], q))
    ensures var w' := Wait(w, Polls(s, envs, q), s.sent[q].kind, q, |s.sent[q].idList|, start, s.timeout);
      var t := After(s, Steps(s, envs[..n], q));
      !Doubled(s, q) ==> |w'.got| <= |s.sent[q].idList| && Result(t, q, start, Entries(w'.got))
    ensures WaitsUntil(s, envs, q, start, n)
  {
    hide Current, Inv, Turns, Result, Mirrors, Copies, PollStep, PollAll, Wait, Polls, Steps;
    n := StopsAfter(w, Polls(s, envs, q), s.sent[q].kind, q, |s.sent[q].idList|, start, s.timeout);
    StillWaits(w, s, envs, q, start, n);
    FirstTurns(s, envs, q, n);
    LoopMirrors(w, s, envs[..n], q);
    var t := After(s, Steps(s, envs[..n], q));
    SentRun(s, Steps(s, envs[..n], q), q);
    if !Doubled(s, q) { StopResult(PollAll(w, Polls(s, envs, q)[..n], s.sent[q].kind, q), t, q, start); }
  }

  /** The loop stops with a full list or past its timeout, if the last poll finds it past. */
  lemma StopsAfter(w: WaitState, polls: seq<PollInput>, kind: Kind, q: nat, cap: nat, start: int, timeout: int)
    returns (n: nat)
    requires polls != [] && polls[|polls| - 1].now - start > timeout
    ensures n <= |polls|
    ensures var w' := Wait(w, polls, kind, q, cap, start, timeout);
      w' == PollAll(w, polls[..n], kind, q) && (|w'.got| == cap || w'.now - start > timeout)
    ensures forall m: nat | m < n ::
      var v := PollAll(w, polls[..m], kind, q); |v.got| != cap && v.now - start <= timeout
  {
    n := WaitStops(w, polls, kind, q, cap, start, timeout);
    if n == |polls| {
      assert polls[..n] == polls;
      PollAllNow(w, polls, kind, q);
    }
  }

  lemma StopResult(w: WaitState, t: Sys, q: nat, start: int)
    requires Inv(t) && q in t.sent && Mirrors(w, t, q) && !Doubled(t, q)
    requires |w.got| == |t.sent[q].idList| || w.now - start > t.timeout
    ensures |w.got| <= |t.sent[q].idList| && Result(t, q, start, Entries(w.got))
  {
    CollectedDistinct(t, q);
    Pigeonhole(Senders(Got(t, q)), t.sent[q].idList);
  }

  lemma {:induction false} PollAllNow(w: WaitState, polls: seq<PollInput>, kind: Kind, q: nat)
    requires polls != []
    ensures PollAll(w, polls, kind, q).now == polls[|polls| - 1].now
  {
    PollAllAtOnce(w, polls, kind, q);
  }

  // ----- between filling and writing -----

  /** No step of the run writes for the call q. */
  predicate NotWriting(run: seq<Step>, q: nat) {
    run == [] || (!(run[0].Broadcast? && run[0].q == q) && NotWriting(run[1..], q))
  }

  /** The call q has filled its request, and has collected nothing. */
  predicate Opened(s: Sys, q: nat) {
    q in s.open && q in s.sent && CallKind(s.sent[q].kind) && Got(s, q) == []
  }

  lemma OpenedStep(s: Sys, e: Step, q: nat)
    requires CallsSane(s) && TransferSane(s) && Opened(s, q) && Enabled(s, e) && !(e.Broadcast? && e.q == q)
    ensures Opened(Next(s, e), q) && Next(s, e).sent[q] == s.sent[q] && Next(s, e).timeout == s.timeout
  {
    SentStays(s, e, q);
    hide Sweep, MarkRunning, AcceptDevices, Deliver, RegisteredOf, Drop, In, Ring, Current, OpenOf, Doubled;
  }

  lemma {:induction false} OpenedRun(s: Sys, run: seq<Step>, q: nat)
    requires Inv(s) && Opened(s, q) && Valid(s, run) && NotWriting(run, q)
    ensures var t := After(s, run); Inv(t) && Opened(t, q) && t.sent[q] == s.sent[q] && t.timeout == s.timeout
    decreases |run|
  {
    if run != [] {
      OpenedStep(s, run[0], q);
      StepKeepsInv(s, run[0]);
      hide Next, Enabled, Inv, Opened;
      OpenedRun(Next(s, run[0]), run[1..], q);
    }
  }

  /** What another call has filled in meanwhile. */
  function Between(s: Sys, q: nat): Option<Request>
    requires Enabled(s, Broadcast(q, {}))
  {
    if Current(s, q) then None else Some(s.sent[Written(s, q)])
  }

  lemma WritesAndWaits(s: Sys, q: nat, reach: set<nat>)
    requires Inv(s) && Opened(s, q)
    ensures Enabled(s, Broadcast(q, reach))
    ensures var t := Next(s, Broadcast(q, reach));
      && Inv(t) && Waits(t, q) && Got(t, q) == [] && t.sent[q] == s.sent[q] && t.timeout == s.timeout && t.now == s.now
      && Current(t, q) == Between(s, q).None? && t.net == s.net
      && (Between(s, q).Some? ==> Between(s, q).value.randomSeq != q)
      && s.sent[Written(s, q)] == (if Between(s, q).Some? then Between(s, q).value else s.sent[q])
  {
    StepKeepsInv(s, Broadcast(q, reach));
    BroadcastFrame(s, q, reach);
    hide Inv, Deliver, DoBroadcast;
  }

  /** From the filling of a request to its write. */
  lemma GapAndWrite(s: Sys, req: Request, gap: seq<Step>, reach: set<nat>)
    requires Inv(s) && Enabled(s, Fill(req)) && CallKind(req.kind)
    requires Valid(Next(s, Fill(req)), gap) && NotWriting(gap, req.randomSeq)
    ensures var s1, q := After(Next(s, Fill(req)), gap), req.randomSeq;
      && Enabled(s1, Broadcast(q, reach))
      && var t, between := Next(s1, Broadcast(q, reach)), Between(s1, q);
        && Inv(t) && Waits(t, q) && Got(t, q) == [] && t.sent[q] == req && t.timeout == s1.timeout && t.now == s1.now
        && t.net == s1.net && Current(t, q) == between.None? && (between.Some? ==> between.value.randomSeq != q)
        && s1.sent[Written(s1, q)] == (if between.Some? then between.value else req)
        && (OpenOf(s, req.kind) == {} ==> !Doubled(t, q))
  {
    var s0, q, e := Next(s, Fill(req)), req.randomSeq, Broadcast(req.randomSeq, reach);
    StepKeepsInv(s, Fill(req));
    FreshGot(s, q);
    assert Opened(s0, q) && s0.sent[q] == req;
    assert OpenOf(s, req.kind) == {} ==> !Doubled(s0, q);
    hide Inv, Next, Enabled, Opened, Current, Copies, Waits;
    OpenedRun(s0, gap, q);
    SentRun(s0, gap, q);
    WritesAndWaits(After(s0, gap), q, reach);
    SentStays(After(s0, gap), e, q);
  }

  /** A GET or SET call in any run. It fills its request in a state that the protocol can reach; before it
      writes, and while it waits, anything else may happen. It writes what the static request then holds. If no
      other call of its function was about to write when it filled, no reply is written behind its list, and the
      list holds one entry for each of distinct targets: all of them, or the time is up. It returns as soon as its
      list is full or its time is up: a call whose list is full after m turns returns after them. */
  method Call(transport: Transport, shared: StaticRequest, req: Request, between: Option<Request>, ghost s: Sys,
          ghost gap: seq<Step>, ghost reach: set<nat>, ghost envs: seq<seq<Step>>, polls: seq<PollInput>,
          start: int, timeout: int)
    returns (infos: Result<seq<DataInfo>, Overflow>, ghost n: nat)
    requires Inv(s) && Enabled(s, Fill(req)) && CallKind(req.kind) && shared.kind == req.kind
    requires Valid(Next(s, Fill(req)), gap) && NotWriting(gap, req.randomSeq)
    requires var s1, q := After(Next(s, Fill(req)), gap), req.randomSeq;
      && Enabled(s1, Broadcast(q, reach)) && between == Between(s1, q)
      && Instance(transport.samples, q) == Instance(s1.net, q) && s1.now == start && s1.timeout == timeout
      && var s2 := Next(s1, Broadcast(q, reach));
        Turns(s2, envs, q) && polls == Polls(s2, envs, q)
    requires polls != [] && polls[|polls| - 1].now - start > timeout
    modifies transport, shared
    ensures var s1, q := After(Next(s, Fill(req)), gap), req.randomSeq;
      var s2 := Next(s1, Broadcast(q, reach));
      && transport.requests == old(transport.requests) + [s1.sent[Written(s1, q)]]
      && n <= |envs| && Turns(s2, envs[..n], q) && Valid(s2, Steps(s2, envs[..n], q))
      && var t := After(s2, Steps(s2, envs[..n], q));
        OpenOf(s, req.kind) == {} ==> infos.Ok? && Result(t, q, start, infos.value)
    ensures var s1, q := After(Next(s, Fill(req)), gap), req.randomSeq;
      WaitsUntil(Next(s1, Broadcast(q, reach)), envs, q, start, n)
  {
    ghost var q := req.randomSeq;
    GapAndWrite(s, req, gap, reach);
    ghost var s2 := Next(After(Next(s, Fill(req)), gap), Broadcast(q, reach));
    hide Inv, Turns, Polls, Steps, After, Valid, Wait, Result, Next, Enabled, Waits, Instance, WaitsUntil;
    LaterIsOther(s2, envs, q);
    n := WaitResult(Waiting(transport.samples, between.None?, start), s2, envs, q, start);
    infos := Exchange(transport, shared, req, between, start, timeout, polls);
  }

  lemma FreshGot(s: Sys, q: nat)
    requires Inv(s) && q !in s.sent
    ensures Got(s, q) == []
  {
  }
}
