/** The server's loops are runs of protocol steps: a round of the receive thread is the drained replies one
    by one, then the completion or the timeout; a poll of a waiting call is the drained replies one by one. So
    what holds for all protocol runs holds for these loops. */
module ServerRefinement {
  import opened Messages
  import opened Devices
  import opened Transfer
  import opened Protocol
  import opened DataInfoServer

  /** Taking the whole instance, first sample first. */
  function PollSteps(net: seq<Reply>, q: nat, malloc: nat -> Malloc, k: nat): seq<Step>
    decreases |net|
  {
    var i := FirstOf(net, q);
    if i == |net| then [] else [Poll(i, malloc(k))] + PollSteps(Drop(net, i), q, malloc, k + 1)
  }

  /** The steps of the drain loop of a round. */
  function DrainSteps(s: Sys, malloc: nat -> Malloc): seq<Step> {
    if s.xfer.recvNum < |s.xfer.ids| then PollSteps(s.net, s.xfer.randomSeq, malloc, 0) else []
  }

  /** What the drain loop leaves: record, registry and reader. */
  function Drained(s: Sys, malloc: nat -> Malloc): (Stat, seq<Device>, seq<Reply>) {
    if s.xfer.recvNum < |s.xfer.ids| then
      var (x, ds) := AcceptAll(s.xfer, s.devices, Instance(s.net, s.xfer.randomSeq), malloc, 0);
      (x, ds, Others(s.net, s.xfer.randomSeq))
    else (s.xfer, s.devices, s.net)
  }

  /** The steps of a round. */
  function RoundSteps(s: Sys, malloc: nat -> Malloc): seq<Step> {
    if !s.xfer.running then []
    else
      var x := Drained(s, malloc).0;
      DrainSteps(s, malloc)
      + if s.now - s.xfer.startTime > s.timeout then [Timeout] else if x.recvNum == |x.ids| then [Finish] else []
  }

  lemma {:induction false} PollStepsRun(s: Sys, malloc: nat -> Malloc, k: nat)
    requires s.xfer.running
    ensures var run := PollSteps(s.net, s.xfer.randomSeq, malloc, k);
      && Valid(s, run)
      && var s' := After(s, run);
        && (s'.xfer, s'.devices) == AcceptAll(s.xfer, s.devices, Instance(s.net, s.xfer.randomSeq), malloc, k)
        && s'.net == Others(s.net, s.xfer.randomSeq)
        && s'.now == s.now && s'.timeout == s.timeout
    decreases |s.net|
  {
    var q := s.xfer.randomSeq;
    var i := FirstOf(s.net, q);
    NothingLeft(s.net, q);
    if i < |s.net| {
      TakeFirst(s.net, q);
      var e := Poll(i, malloc(k));
      var s' := Next(s, e);
      var run := PollSteps(s.net, q, malloc, k);
      assert run[0] == e && run[1..] == PollSteps(s'.net, q, malloc, k + 1);
      assert Instance(s.net, q)[0] == s.net[i] && Instance(s.net, q)[1..] == Instance(s'.net, q);
      hide Instance, Others, FirstOf, AcceptDevices;
      PollStepsRun(s', malloc, k + 1);
    }
  }

  lemma DrainIsRun(s: Sys, malloc: nat -> Malloc)
    requires s.xfer.running
    ensures Valid(s, DrainSteps(s, malloc))
    ensures var s1 := After(s, DrainSteps(s, malloc));
      && (s1.xfer, s1.devices, s1.net) == Drained(s, malloc) && s1.now == s.now && s1.timeout == s.timeout
      && s1.xfer.(recvNum := s.xfer.recvNum) == s.xfer
  {
    PollStepsRun(s, malloc, 0);
    AcceptAllStat(s.xfer, s.devices, Instance(s.net, s.xfer.randomSeq), malloc, 0);
    hide Instance, Others, PollSteps, AcceptAll;
  }

  /** The round refines the protocol, from every state. */
  lemma RoundIsRun(s: Sys, malloc: nat -> Malloc)
    ensures Valid(s, RoundSteps(s, malloc))
    ensures var s' := After(s, RoundSteps(s, malloc));
      (s'.xfer, s'.devices, s'.net) == Tick(s.xfer, s.devices, s.net, malloc, s.now, s.timeout)
  {
    if s.xfer.running {
      DrainIsRun(s, malloc);
      var drain := DrainSteps(s, malloc);
      var s1 := After(s, drain);
      hide Instance, Others, DrainSteps, AcceptAll, Sweep;
      if s.now - s.xfer.startTime > s.timeout {
        RunOne(s1, Timeout);
        RunConcat(s, drain, [Timeout]);
      } else if s1.xfer.recvNum == |s1.xfer.ids| {
        RunOne(s1, Finish);
        RunConcat(s, drain, [Finish]);
      } else {
        assert drain + [] == drain;
      }
    }
  }

  // ----- waiting calls -----

  /** A call taking the whole instance, first sample first. */
  function CollectSteps(net: seq<Reply>, q: nat): seq<Step>
    decreases |net|
  {
    var i := FirstOf(net, q);
    if i == |net| then [] else [Collect(q, i)] + CollectSteps(Drop(net, i), q)
  }

  lemma CollectGot(s: Sys, q: nat, i: nat)
    requires Enabled(s, Collect(q, i))
    ensures var s' := Next(s, Collect(q, i));
      && s' == s.(net := Drop(s.net, i), got := s'.got)
      && Got(s', q) == Got(s, q) + if s.net[i].kind == s.sent[q].kind && Current(s, q) then [s.net[i]] else []
  {
    hide Drop, Current;
  }

  lemma KeptTake(rs: seq<Reply>, q: nat, kind: Kind, current: bool)
    requires FirstOf(rs, q) < |rs|
    ensures var i := FirstOf(rs, q);
      && Others(Drop(rs, i), q) == Others(rs, q)
      && Kept(Instance(rs, q), kind, current)
         == (if rs[i].kind == kind && current then [rs[i]] else []) + Kept(Instance(Drop(rs, i), q), kind, current)
  {
    TakeFirst(rs, q);
    KeptCons(rs[FirstOf(rs, q)], Instance(Drop(rs, FirstOf(rs, q)), q), kind, current);
  }

  lemma CollectOne(s: Sys, q: nat)
    requires q in s.calls && q in s.sent && FirstOf(s.net, q) < |s.net|
    ensures var i, kind := FirstOf(s.net, q), s.sent[q].kind;
      var s' := Next(s, Collect(q, i));
      && s' == s.(net := Drop(s.net, i), got := s'.got)
      && Others(s'.net, q) == Others(s.net, q)
      && Got(s', q) + Kept(Instance(s'.net, q), kind, Current(s, q))
         == Got(s, q) + Kept(Instance(s.net, q), kind, Current(s, q))
  {
    var i, kind, current := FirstOf(s.net, q), s.sent[q].kind, Current(s, q);
    CollectGot(s, q, i);
    KeptTake(s.net, q, kind, current);
    var first := if s.net[i].kind == kind && current then [s.net[i]] else [];
    var rest := Kept(Instance(Drop(s.net, i), q), kind, current);
    hide *;
    assert Got(s, q) + first + rest == Got(s, q) + (first + rest);
  }

  /** One poll of a waiting call (`DataInfoServer.PollStep`) refines the protocol. */
  lemma {:induction false} PollIsRun(s: Sys, q: nat)
    requires q in s.calls && q in s.sent
    ensures var run := CollectSteps(s.net, q);
      && Valid(s, run)
      && var s' := After(s, run);
        && s' == s.(net := Others(s.net, q), got := s'.got)
        && Got(s', q) == Got(s, q) + Kept(Instance(s.net, q), s.sent[q].kind, Current(s, q))
    decreases |s.net|
  {
    var i := FirstOf(s.net, q);
    NothingLeft(s.net, q);
    if i < |s.net| {
      var s' := Next(s, Collect(q, i));
      var run := CollectSteps(s.net, q);
      assert run[0] == Collect(q, i) && run[1..] == CollectSteps(Drop(s.net, i), q);
      CollectOne(s, q);
      assert Current(s', q) == Current(s, q);
      hide Instance, Others, FirstOf, Kept, Got, DoCollect, CollectSteps, Current;
      PollIsRun(s', q);
    } else {
      KeptNone(s.sent[q].kind, Current(s, q));
      assert Got(s, q) + [] == Got(s, q);
    }
  }
}
