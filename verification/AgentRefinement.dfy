/** The agent's update round is a run of protocol steps: every waiting request is executed in order, then
    the ring is drained. So what holds for all protocol runs holds for agents that work in rounds. */
module AgentRefinement {
  import opened Wrappers
  import opened Messages
  import opened Protocol
  import ReplyRing

  /** Executing the waiting requests; `k` addressed ones have been executed before in this round. */
  function ExecuteSteps(me: nat, reqs: seq<Request>, exec: ReplyRing.Executor, k: nat): seq<Step>
    decreases |reqs|
  {
    if reqs == [] then []
    else
      var (msg, binary) := exec(k, reqs[0]);
      [Execute(me, 0, msg, binary)]
      + ExecuteSteps(me, reqs[1..], exec, if ReplyRing.Addressed(me, reqs[0]) then k + 1 else k)
  }

  function SendSteps(me: nat, n: nat): seq<Step> {
    if n == 0 then [] else [Step.SendReply(me)] + SendSteps(me, n - 1)
  }

  /** The steps of an update round. */
  function UpdateSteps(s: Sys, me: nat, exec: ReplyRing.Executor): seq<Step> {
    ExecuteSteps(me, In(s, me), exec, 0) + SendSteps(me, |ReplyRing.Sent(ReplyRing.Slots(me, In(s, me), exec, 0))|)
  }

  /** What one request contributes to the replies of a round. */
  function ReplyTo(me: nat, r: Request, exec: ReplyRing.Executor, k: nat): seq<Reply> {
    if ReplyRing.Addressed(me, r) && ReplyRing.Recognised(r.kind)
    then [Reply(me, r.kind, r.randomSeq, exec(k, r).0, exec(k, r).1)]
    else []
  }

  lemma SlotsStep(me: nat, reqs: seq<Request>, exec: ReplyRing.Executor, k: nat)
    requires reqs != []
    ensures var k' := if ReplyRing.Addressed(me, reqs[0]) then k + 1 else k;
      ReplyRing.Sent(ReplyRing.Slots(me, reqs, exec, k))
      == ReplyTo(me, reqs[0], exec, k) + ReplyRing.Sent(ReplyRing.Slots(me, reqs[1..], exec, k'))
  {
    if ReplyRing.Addressed(me, reqs[0]) {
      var slot, rest := ReplyRing.SlotFor(me, reqs[0], exec, k), ReplyRing.Slots(me, reqs[1..], exec, k + 1);
      assert ([slot] + rest)[1..] == rest;
    }
  }

  /** From s to t the agent came to the waiting requests `left` and put `replies` into its ring. */
  predicate Executed(s: Sys, t: Sys, me: nat, left: seq<Request>, replies: seq<Reply>) {
    In(t, me) == left && t.net == s.net && Ring(t, me) == Ring(s, me) + replies
  }

  lemma ExecutedTwice(s: Sys, t: Sys, u: Sys, me: nat, left: seq<Request>, a: seq<Reply>, b: seq<Reply>)
    requires Executed(s, t, me, In(t, me), a) && Executed(t, u, me, left, b)
    ensures Executed(s, u, me, left, a + b)
  {
  }

  lemma ExecuteOne(s: Sys, me: nat, exec: ReplyRing.Executor, k: nat)
    requires In(s, me) != []
    ensures var r := In(s, me)[0];
      var s' := DoExecute(s, me, 0, exec(k, r).0, exec(k, r).1);
      In(s', me) == In(s, me)[1..] && Executed(s, s', me, In(s', me), ReplyTo(me, r, exec, k))
  {
    assert Drop(In(s, me), 0) == In(s, me)[1..];
  }

  lemma {:induction false} ExecuteRun(s: Sys, me: nat, exec: ReplyRing.Executor, k: nat)
    ensures var run := ExecuteSteps(me, In(s, me), exec, k);
      && Valid(s, run)
      && Executed(s, After(s, run), me, [], ReplyRing.Sent(ReplyRing.Slots(me, In(s, me), exec, k)))
    decreases |In(s, me)|
  {
    var reqs := In(s, me);
    if reqs != [] {
      var (msg, binary) := exec(k, reqs[0]);
      var run, s' := ExecuteSteps(me, reqs, exec, k), DoExecute(s, me, 0, msg, binary);
      var k' := if ReplyRing.Addressed(me, reqs[0]) then k + 1 else k;
      ExecuteOne(s, me, exec, k);
      SlotsStep(me, reqs, exec, k);
      assert run[0] == Execute(me, 0, msg, binary) && run[1..] == ExecuteSteps(me, In(s', me), exec, k');
      hide DoExecute, In, ExecuteSteps, Executed, ReplyTo, ReplyRing.Slots, ReplyRing.Sent;
      ExecuteRun(s', me, exec, k');
      ExecutedTwice(s, s', After(s, run), me, [], ReplyTo(me, reqs[0], exec, k),
                    ReplyRing.Sent(ReplyRing.Slots(me, In(s', me), exec, k')));
    }
  }

  lemma {:induction false} SendRun(s: Sys, me: nat)
    ensures var run := SendSteps(me, |Ring(s, me)|);
      && Valid(s, run)
      && var s' := After(s, run);
        && s' == s.(ring := s'.ring, net := s.net + Ring(s, me))
        && In(s', me) == In(s, me) && Ring(s', me) == []
    decreases |Ring(s, me)|
  {
    var ring := Ring(s, me);
    if ring != [] {
      var run, s' := SendSteps(me, |ring|), DoSendReply(s, me);
      assert run[0] == Step.SendReply(me) && run[1..] == SendSteps(me, |Ring(s', me)|);
      assert In(s', me) == In(s, me) && s' == s.(ring := s'.ring, net := s.net + [ring[0]]);
      hide In, Ring, DoSendReply, SendSteps;
      SendRun(s', me);
      assert s.net + [ring[0]] + ring[1..] == s.net + ring;
    }
  }

  /** An update round of an agent whose ring is empty between updates takes every waiting request and sends
      exactly the replies that `ReplyRing.Ring.Update` sends, in order. */
  lemma UpdateIsRun(s: Sys, me: nat, exec: ReplyRing.Executor)
    requires Ring(s, me) == []
    ensures Valid(s, UpdateSteps(s, me, exec))
    ensures var s' := After(s, UpdateSteps(s, me, exec));
      && In(s', me) == [] && Ring(s', me) == []
      && s'.net == s.net + ReplyRing.Sent(ReplyRing.Slots(me, In(s, me), exec, 0))
  {
    hide In, Ring, ExecuteSteps, SendSteps;
    ExecuteRun(s, me, exec, 0);
    var s1 := After(s, ExecuteSteps(me, In(s, me), exec, 0));
    SendRun(s1, me);
    RunConcat(s, ExecuteSteps(me, In(s, me), exec, 0), SendSteps(me, |Ring(s1, me)|));
  }

  /** The round on the agent's own ring. It fails exactly if some recognised addressed request finds the ring
      full; otherwise it is a run of protocol steps. */
  method Round(ring: ReplyRing.Ring, me: nat, reqs: seq<Request>, exec: ReplyRing.Executor, ghost s: Sys)
    returns (sent: Result<seq<Reply>, ReplyRing.RingFault>)
    requires ring.Valid() && ring.live == [] && Ring(s, me) == [] && In(s, me) == reqs
    modifies ring, ring.slots
    ensures sent.Err? <==> ReplyRing.RoundFaults(me, reqs, 0)
    ensures sent.Ok? ==>
      && ring.Valid() && ring.live == [] && Valid(s, UpdateSteps(s, me, exec))
      && var t := After(s, UpdateSteps(s, me, exec));
        In(t, me) == [] && Ring(t, me) == [] && t.net == s.net + sent.value
  {
    UpdateIsRun(s, me, exec);
    hide UpdateSteps, In, Ring;
    sent := ring.Update(me, reqs, exec);
  }
}
