/** What the protocol guarantees in every state that a run can reach. */
module ProtocolTheorems {
  import opened Collections
  import opened Wrappers
  import opened Messages
  import opened Devices
  import opened Transfer
  import opened Protocol
  import opened ProtocolInvariant

  function Senders(rs: seq<Reply>): (ids: seq<nat>)
    ensures |ids| == |rs| && forall i | 0 <= i < |rs| :: ids[i] == rs[i].deviceID
  {
    seq(|rs|, i requires 0 <= i < |rs| => rs[i].deviceID)
  }

  predicate Distinct(xs: seq<nat>) {
    forall i, j | 0 <= i < j < |xs| :: xs[i] != xs[j]
  }

  // ----- pigeonhole -----

  function Elements(xs: seq<nat>): set<nat> {
    set x | x in xs
  }

  lemma DistinctCons(x: nat, t: seq<nat>)
    ensures Distinct([x] + t) <==> x !in t && Distinct(t)
  {
    var xs := [x] + t;
    assert forall i | 0 < i < |xs| :: xs[i] == t[i - 1];
    if x in t {
      var k :| 0 <= k < |t| && t[k] == x;
      assert xs[k + 1] == xs[0];
    }
    if Distinct(xs) {
      assert forall i | 0 <= i < |t| :: t[i] == xs[i + 1];
    }
  }

  lemma {:induction false} ElementsSize(xs: seq<nat>)
    ensures |Elements(xs)| <= |xs|
    ensures |Elements(xs)| == |xs| <==> Distinct(xs)
  {
    if xs != [] {
      var t := xs[1..];
      ElementsSize(t);
      assert xs == [xs[0]] + t;
      DistinctCons(xs[0], t);
      assert Elements(xs) == Elements(t) + {xs[0]};
      assert xs[0] in Elements(t) <==> xs[0] in t;
      hide Distinct, Elements;
    }
  }

  lemma {:induction false} DistinctMultiset(xs: seq<nat>, x: nat)
    requires Distinct(xs)
    ensures multiset(xs)[x] == if x in xs then 1 else 0
  {
    if xs != [] {
      assert xs == [xs[0]] + xs[1..];
      DistinctMultiset(xs[1..], x);
    }
  }

  /** Distinct elements of ys are at most |ys| many; if as many, they are ys in some order. */
  lemma Pigeonhole(xs: seq<nat>, ys: seq<nat>)
    requires Distinct(xs) && forall x | x in xs :: x in ys
    ensures |xs| <= |ys|
    ensures |xs| == |ys| ==> Distinct(ys) && multiset(xs) == multiset(ys)
  {
    var a, b := Elements(xs), Elements(ys);
    ElementsSize(xs);
    ElementsSize(ys);
    SubsetSize(a, b);
    if |xs| == |ys| {
      assert a == b;
      forall x: nat ensures multiset(xs)[x] == multiset(ys)[x] {
        DistinctMultiset(xs, x);
        DistinctMultiset(ys, x);
        assert x in xs <==> x in a;
        assert x in ys <==> x in b;
      }
    }
  }

  // ----- GET and SET calls -----

  lemma {:induction false} RepsTwice(rs: seq<Reply>, i: nat, j: nat, q: nat)
    requires i < j < |rs| && rs[i].deviceID == rs[j].deviceID && rs[i].randomSeq == rs[j].randomSeq == q
    ensures Reps(rs, q, rs[i].deviceID) >= 2
  {
    RepsDrop(rs, j, q, rs[i].deviceID);
    assert Drop(rs, j)[i] == rs[i];
    RepsPositive(Drop(rs, j), i);
  }

  /** The replies to a request that could be written only once come from distinct devices of its ID list. */
  lemma CollectedDistinct(s: Sys, q: nat)
    requires Inv(s) && q in s.sent && !Doubled(s, q)
    ensures Distinct(Senders(Got(s, q))) && forall id | id in Senders(Got(s, q)) :: id in s.sent[q].idList
    ensures |Got(s, q)| <= |s.sent[q].idList|
  {
    var got := Got(s, q);
    forall i, j | 0 <= i < j < |got| ensures got[i].deviceID != got[j].deviceID {
      assert Total(s, q, got[i].deviceID) <= 1;
      if got[i].deviceID == got[j].deviceID { RepsTwice(got, i, j, q); }
    }
    hide ExchangesSane, StatusesSane, Bounded;
    Pigeonhole(Senders(got), s.sent[q].idList);
  }

  /** Whenever a call whose request could be written only once puts a reply into its result list, there is room
      for it. */
  lemma CollectWithinBounds(timeout: int, now: int, run: seq<Step>, q: nat, i: nat)
    requires Valid(Init(timeout, now), run)
    requires Enabled(After(Init(timeout, now), run), Collect(q, i))
    ensures var s := After(Init(timeout, now), run);
      Current(s, q) && !Doubled(s, q) ==> |Got(s, q)| < |s.sent[q].idList|
  {
    InitInv(timeout, now);
    RunKeepsInv(Init(timeout, now), run);
    var s := After(Init(timeout, now), run);
    if Current(s, q) && !Doubled(s, q) {
      StepKeepsInv(s, Collect(q, i));
      CollectedDistinct(Next(s, Collect(q, i)), q);
      assert Answers(s.sent, s.net[i]);
    }
  }

  /** A call whose request could be written only once ends before its timeout only with one reply from each device
      of its list, and never does if the list names a device twice. In any case its list holds only answers to its
      request. */
  lemma CallComplete(timeout: int, now: int, run: seq<Step>, q: nat)
    requires Valid(Init(timeout, now), run)
    requires Enabled(After(Init(timeout, now), run), Return(q))
    ensures var s := After(Init(timeout, now), run);
      var ids := s.sent[q].idList;
      && (forall r | r in Got(s, q) :: Answers(s.sent, r) && r.randomSeq == q)
      && (!Doubled(s, q) ==>
            && |Got(s, q)| <= |ids|
            && (s.now - s.calls[q] <= s.timeout ==> Distinct(ids) && multiset(Senders(Got(s, q))) == multiset(ids))
            && (!Distinct(ids) ==> s.now - s.calls[q] > s.timeout))
  {
    InitInv(timeout, now);
    RunKeepsInv(Init(timeout, now), run);
    var s := After(Init(timeout, now), run);
    if !Doubled(s, q) {
      CollectedDistinct(s, q);
      Pigeonhole(Senders(Got(s, q)), s.sent[q].idList);
    }
  }

  // ----- file transfers -----

  /** A transfer that goes idle because its counter reached the number of targets: every target replied once, and
      each that has been registered all along reads the outcome of its own reply, given what malloc gave for it. This
      holds for every transfer whose request could be written only once. */
  lemma TransferComplete(timeout: int, now: int, run: seq<Step>)
    requires Valid(Init(timeout, now), run)
    requires Enabled(After(Init(timeout, now), run), Finish)
    ensures var s := After(Init(timeout, now), run);
      var ids, replies, s' := s.xfer.ids, Got(s, s.xfer.randomSeq), Next(s, Finish);
      !Doubled(s, s.xfer.randomSeq) ==>
        && Distinct(ids) && multiset(Senders(replies)) == multiset(ids)
        && forall i | 0 <= i < |replies| ::
             var (st, res) := GetStatus(s'.devices, replies[i].deviceID);
             && Answers(s.sent, replies[i]) && |s.allocs| == |replies|
             && (replies[i].deviceID in s.kept ==> OutcomeOf(replies[i], s.allocs[i], st, res))
  {
    InitInv(timeout, now);
    RunKeepsInv(Init(timeout, now), run);
    var s := After(Init(timeout, now), run);
    if !Doubled(s, s.xfer.randomSeq) {
      CollectedDistinct(s, s.xfer.randomSeq);
      Pigeonhole(Senders(Got(s, s.xfer.randomSeq)), s.xfer.ids);
      assert forall r | r in Got(s, s.xfer.randomSeq) && r.deviceID in s.kept ::
        Reads(s.devices, r.deviceID, Got(s, s.xfer.randomSeq), s.allocs);
    }
  }

  /** The transfer's counter never passes the number of targets, so the equality test cannot be missed. */
  lemma CounterNeverPasses(timeout: int, now: int, run: seq<Step>)
    requires Valid(Init(timeout, now), run)
    ensures var s := After(Init(timeout, now), run);
      s.xfer.running && !Doubled(s, s.xfer.randomSeq) ==> s.xfer.recvNum <= |s.xfer.ids|
  {
    InitInv(timeout, now);
    RunKeepsInv(Init(timeout, now), run);
    var s := After(Init(timeout, now), run);
    if s.xfer.running && !Doubled(s, s.xfer.randomSeq) { CollectedDistinct(s, s.xfer.randomSeq); }
  }

  /** Timing out, from any state, with any ID list and any registry: the transfer is idle, no target reads
      RUNNING, and no other status changes. */
  lemma TimeoutSound(s: Sys, id: nat)
    requires Enabled(s, Timeout)
    ensures var s' := Next(s, Timeout);
      && !s'.xfer.running
      && (id in s.xfer.ids ==> GetStatus(s'.devices, id).0 != Running)
      && (GetStatus(s.devices, id).0 != Running || id !in s.xfer.ids ==>
            GetStatus(s'.devices, id) == GetStatus(s.devices, id))
  {
    StatusAfterSweep(s.devices, s.xfer.ids, id);
  }

  // ----- non-interference -----

  /** The exchange a step works for, if it moves or takes a message. */
  function Owner(s: Sys, e: Step): Option<nat>
    requires Enabled(s, e)
  {
    match e
    case Fill(req) => Some(req.randomSeq)
    case Broadcast(q, _) => Some(Written(s, q))
    case SendReply(id) => Some(Ring(s, id)[0].randomSeq)
    case Collect(q, _) => Some(q)
    case Poll(_, _) => Some(s.xfer.randomSeq)
    case _ => None
  }

  lemma InstanceDrop(rs: seq<Reply>, i: nat, q: nat)
    requires i < |rs| && rs[i].randomSeq != q
    ensures Instance(Drop(rs, i), q) == Instance(rs, q)
  {
    assert rs == rs[..i] + ([rs[i]] + rs[i + 1..]);
    OthersConcat(rs[..i], [rs[i]] + rs[i + 1..], q);
    OthersConcat([rs[i]], rs[i + 1..], q);
    OthersConcat(rs[..i], rs[i + 1..], q);
  }

  /** Only a call that fills the same static request changes what it holds. */
  lemma CurrentStep(s: Sys, e: Step, q: nat)
    requires Enabled(s, e) && q in s.sent
    ensures q in Next(s, e).sent && Next(s, e).sent[q] == s.sent[q]
    ensures Current(Next(s, e), q) <==> Current(s, q) && !(e.Fill? && e.req.kind == s.sent[q].kind)
  {
    hide Next, Enabled;
    EnabledFacts(s, e);
    StepFrame(s, e);
  }

  /** A step of one exchange takes no reply of another, does not change what another has accepted, and does not
      change what another will accept, unless it is the filling of the same static request. */
  lemma NonInterference(s: Sys, e: Step, q: nat)
    requires Enabled(s, e) && Owner(s, e) != Some(q)
    ensures Got(Next(s, e), q) == Got(s, q)
    ensures Instance(Next(s, e).net, q) == Instance(s.net, q)
    ensures q in s.sent ==>
      && q in Next(s, e).sent
      && (Current(Next(s, e), q) <==> Current(s, q) && !(e.Fill? && e.req.kind == s.sent[q].kind))
  {
    if q in s.sent { CurrentStep(s, e, q); }
    if e.Broadcast? { BroadcastFrame(s, e.q, e.reach); }
    hide DoBroadcast, Doubled, Current, Deliver, Drop, AcceptDevices, AcceptStat, MarkRunning, Sweep,
      RegisteredOf, In, OpenOf;
    match e {
      case SendReply(id) => OthersConcat(s.net, [Ring(s, id)[0]], q);
      case Collect(_, i) => InstanceDrop(s.net, i, q);
      case Poll(i, _) => InstanceDrop(s.net, i, q);
      case _ =>
    }
  }

  /** A GET or SET call changes neither the transfer nor any device status, and the transfer changes no call:
      in a reachable state they work on different exchanges. */
  lemma CallsAndTransferApart(timeout: int, now: int, run: seq<Step>, e: Step)
    requires Valid(Init(timeout, now), run) && Enabled(After(Init(timeout, now), run), e)
    ensures var s := After(Init(timeout, now), run);
      && (e.Collect? ==> Next(s, e).xfer == s.xfer && Next(s, e).devices == s.devices)
      && (e.Poll? ==>
            forall q | q in s.calls ::
              Got(Next(s, e), q) == Got(s, q) && Instance(Next(s, e).net, q) == Instance(s.net, q))
      && (e.Collect? && s.xfer.running ==>
        Instance(Next(s, e).net, s.xfer.randomSeq) == Instance(s.net, s.xfer.randomSeq))
  {
    InitInv(timeout, now);
    RunKeepsInv(Init(timeout, now), run);
    var s := After(Init(timeout, now), run);
    if e.Poll? {
      forall q | q in s.calls
        ensures Got(Next(s, e), q) == Got(s, q) && Instance(Next(s, e).net, q) == Instance(s.net, q)
      {
        NonInterference(s, e, q);
      }
    } else if e.Collect? && s.xfer.running {
      NonInterference(s, e, s.xfer.randomSeq);
    }
  }
}
