/** Between filling the static request and writing it a call sleeps for a second, and then writes what the static
    request holds. So a request is written by every call of its function that was about to write when it was filled:
    once if there was none besides its own. Only then has its call room for the replies. */
module Overlap {
  import opened Messages
  import opened Protocol
  import opened ProtocolInvariant
  import opened ProtocolTheorems
  import opened SharedRequest
  import opened AgentRefinement
  import opened Completion

  // ----- how often a request is written -----

  /** How often a run writes number q. */
  function WritesIn(s: Sys, run: seq<Step>, q: nat): nat
    requires Valid(s, run)
    decreases |run|
  {
    if run == [] then 0 else Writes(s, run[0], q) + WritesIn(Next(s, run[0]), run[1..], q)
  }

  /** A run writes a request at most as often as calls of its function are open while the static request holds it. */
  lemma {:induction false} WritesBounded(s: Sys, run: seq<Step>, q: nat)
    requires BuffersSane(s) && OpenSane(s) && q in s.sent && Valid(s, run)
    ensures WritesIn(s, run, q) + Pending(After(s, run), q) <= Pending(s, q)
    decreases |run|
  {
    if run != [] {
      SentStays(s, run[0], q);
      PendingStep(s, run[0], q);
      BuffersKept(s, run[0]);
      OpenKept(s, run[0]);
      hide Next, Enabled, BuffersSane, OpenSane, Pending, Copies, Writes;
      WritesBounded(Next(s, run[0]), run[1..], q);
    }
  }

  /** What a write of request q by an open call of its function leaves. */
  lemma WriteNow(s: Sys, q0: nat, q: nat, reach: set<nat>)
    requires BuffersSane(s) && q in s.sent && Current(s, q) && q0 in OpenOf(s, s.sent[q].kind)
    ensures Enabled(s, Broadcast(q0, reach)) && Writes(s, Broadcast(q0, reach), q) == 1
    ensures var t := Next(s, Broadcast(q0, reach));
      && t.sent == s.sent && t.buf == s.buf && (q0 == q && CallKind(s.sent[q].kind) ==> q in t.calls)
      && (q in s.calls ==> q in t.calls) && (q in s.open && q != q0 ==> q in t.open)
      && forall id: nat :: Reqs(In(t, id), q) == Reqs(In(s, id), q) + if id in reach then 1 else 0
  {
    var e, r := Broadcast(q0, reach), s.sent[q];
    assert Enabled(s, e) && Written(s, q0) == q && r.randomSeq == q;
    BroadcastFrame(s, q0, reach);
    var t := Next(s, e);
    hide DoBroadcast, OpenOf, BuffersSane;
    forall id: nat ensures Reqs(In(t, id), q) == Reqs(In(s, id), q) + if id in reach then 1 else 0 {
      var more := if id in reach then [r] else [];
      assert In(t, id) == In(s, id) + more;
      ReqsConcat(In(s, id), more, q);
    }
  }

  /** While the static request holds number q, every open call of its function can write it, and each agent that
      they reach gets it as often. */
  lemma {:induction false} WriteAll(s: Sys, q: nat, reach: set<nat>) returns (run: seq<Step>)
    requires BuffersSane(s) && OpenSane(s) && q in s.sent && Current(s, q)
    ensures Valid(s, run) && WritesIn(s, run, q) == Pending(s, q)
    ensures var t := After(s, run);
      && q in t.sent && t.sent[q] == s.sent[q] && Current(t, q)
      && (CallKind(s.sent[q].kind) && (q in s.calls || q in s.open) ==> q in t.calls)
      && forall id: nat :: Reqs(In(t, id), q) == Reqs(In(s, id), q) + if id in reach then Pending(s, q) else 0
    decreases |OpenOf(s, s.sent[q].kind)|
  {
    var calls := OpenOf(s, s.sent[q].kind);
    assert q in s.open ==> q in calls;
    if calls == {} {
      run := [];
    } else {
      var q0 := if q in calls then q else var x :| x in calls; x;
      var e := Broadcast(q0, reach);
      WriteNow(s, q0, q, reach);
      OpenAfter(s, e, s.sent[q].kind);
      BuffersKept(s, e);
      OpenKept(s, e);
      hide Next, Enabled, BuffersSane, OpenSane, OpenOf, In, Reqs;
      var rest := WriteAll(Next(s, e), q, reach);
      run := [e] + rest;
      assert run[1..] == rest;
    }
  }

  // ----- every history, every continuation -----

  /** From the filling of request r on, the run writes its number at least n times. */
  predicate WritesAtLeast(s: Sys, r: Request, run: seq<Step>, n: nat)
    requires Enabled(s, Fill(r))
  {
    Valid(Next(s, Fill(r)), run) && WritesIn(Next(s, Fill(r)), run, r.randomSeq) >= n
  }

  lemma FillNow(s: Sys, r: Request)
    requires BuffersSane(s) && OpenSane(s) && Enabled(s, Fill(r))
    ensures var t, q := Next(s, Fill(r)), r.randomSeq;
      && BuffersSane(t) && OpenSane(t) && q in t.sent && t.sent[q] == r && q in t.open && Current(t, q)
      && Pending(t, q) == Copies(t, q) == |OpenOf(s, r.kind)| + 1
  {
    BuffersKept(s, Fill(r));
    OpenKept(s, Fill(r));
    OpenAfter(s, Fill(r), r.kind);
    hide OpenOf, BuffersSane, OpenSane;
  }

  /** After any history a request can come to be written n times if and only if n - 1 calls of its function are
      between their own fill and write when it is filled. */
  lemma WritableIff(timeout: int, now: int, before: seq<Step>, r: Request, n: nat)
    requires Valid(Init(timeout, now), before) && Enabled(After(Init(timeout, now), before), Fill(r))
    ensures var s := After(Init(timeout, now), before);
      (exists later :: WritesAtLeast(s, r, later, n)) <==> n <= |OpenOf(s, r.kind)| + 1
  {
    var s := After(Init(timeout, now), before);
    InitInv(timeout, now);
    RunKeepsInv(Init(timeout, now), before);
    FillNow(s, r);
    hide Next, Enabled, OpenOf, BuffersSane, OpenSane, Pending;
    if n <= |OpenOf(s, r.kind)| + 1 {
      var run := WriteAll(Next(s, Fill(r)), r.randomSeq, {});
      assert WritesAtLeast(s, r, run, n);
    }
    forall later | WritesAtLeast(s, r, later, n) ensures n <= |OpenOf(s, r.kind)| + 1 {
      WritesBounded(Next(s, Fill(r)), later, r.randomSeq);
    }
  }

  /** Another call of the function is between its own fill and write. */
  predicate Overlaps(s: Sys, k: Kind) {
    exists q <- s.open :: q in s.sent && s.sent[q].kind == k
  }

  /** After any history, and whatever comes later: a request counts as doubled, and can come to be written twice, if
      and only if it is filled while another call of its function is about to write. */
  lemma DoubledIffOverlap(timeout: int, now: int, before: seq<Step>, r: Request, later: seq<Step>)
    requires Valid(Init(timeout, now), before) && Enabled(After(Init(timeout, now), before), Fill(r))
    requires Valid(Next(After(Init(timeout, now), before), Fill(r)), later)
    ensures var s := After(Init(timeout, now), before);
      && (Doubled(After(Next(s, Fill(r)), later), r.randomSeq) <==> Overlaps(s, r.kind))
      && ((exists run :: WritesAtLeast(s, r, run, 2)) <==> Overlaps(s, r.kind))
  {
    var s := After(Init(timeout, now), before);
    WritableIff(timeout, now, before, r, 2);
    InitInv(timeout, now);
    RunKeepsInv(Init(timeout, now), before);
    FillNow(s, r);
    SentRun(Next(s, Fill(r)), later, r.randomSeq);
    var calls := OpenOf(s, r.kind);
    if Overlaps(s, r.kind) {
      var q :| q in s.open && q in s.sent && s.sent[q].kind == r.kind;
      assert q in calls;
    } else {
      assert calls == {};
    }
    hide Next, Enabled, OpenOf, Inv, WritesIn;
  }

  /** A call writes its own request if and only if no other call of its function fills meanwhile; otherwise its
      request, if it has not been written by then, never is. */
  lemma OwnWriteIff(timeout: int, now: int, before: seq<Step>, r: Request, gap: seq<Step>, later: seq<Step>)
    requires Valid(Init(timeout, now), before) && Enabled(After(Init(timeout, now), before), Fill(r))
    requires Valid(Next(After(Init(timeout, now), before), Fill(r)), gap)
    requires var s := After(Next(After(Init(timeout, now), before), Fill(r)), gap);
      Enabled(s, Broadcast(r.randomSeq, {})) && Valid(s, later)
    ensures var s := After(Next(After(Init(timeout, now), before), Fill(r)), gap);
      && (Written(s, r.randomSeq) == r.randomSeq <==> !Fills(gap, r.kind))
      && (Fills(gap, r.kind) ==> WritesIn(s, later, r.randomSeq) == 0)
  {
    var s0 := After(Init(timeout, now), before);
    var s1 := Next(s0, Fill(r));
    InitInv(timeout, now);
    RunKeepsInv(Init(timeout, now), before);
    StepKeepsInv(s0, Fill(r));
    RunKeepsInv(s1, gap);
    FillNow(s0, r);
    hide Next, OpenOf, BuffersSane, OpenSane, WritesIn, Fills;
    CurrentRun(s1, gap, r.randomSeq);
    WritesBounded(After(s1, gap), later, r.randomSeq);
  }

  // ----- room for the replies -----

  /** The replies of all devices but one. */
  function Without(rs: seq<Reply>, id: nat): seq<Reply> {
    if rs == [] then [] else (if rs[0].deviceID == id then [] else [rs[0]]) + Without(rs[1..], id)
  }

  lemma {:induction false} WithoutReps(rs: seq<Reply>, q: nat, id: nat, x: nat)
    requires forall r | r in rs :: r.randomSeq == q
    ensures |rs| == |Without(rs, id)| + Reps(rs, q, id)
    ensures forall r | r in Without(rs, id) :: r in rs && r.deviceID != id
    ensures x != id ==> Reps(Without(rs, id), q, x) == Reps(rs, q, x)
  {
    if rs != [] {
      WithoutReps(rs[1..], q, id, x);
      var first := if rs[0].deviceID == id then [] else [rs[0]];
      RepsConcat(first, Without(rs[1..], id), q, x);
      assert rs == [rs[0]] + rs[1..];
    }
  }

  lemma OneLess(n: nat, ids: set<nat>, id: nat)
    requires id in ids
    ensures |ids - {id}| == |ids| - 1 && n * |ids| == n * |ids - {id}| + n
  {
    var m := |ids - {id}|;
    assert |ids| == m + 1;
    hide *;
    assert n * (m + 1) == n * m + n;
  }

  /** At most n replies of each of the devices `ids`. */
  lemma {:induction false} RepsTogether(rs: seq<Reply>, q: nat, ids: set<nat>, n: nat)
    requires forall r | r in rs :: r.randomSeq == q && r.deviceID in ids
    requires forall id | id in ids :: Reps(rs, q, id) <= n
    ensures |rs| <= n * |ids|
    decreases |ids|
  {
    assert rs != [] ==> rs[0] in rs;
    if ids != {} {
      var id :| id in ids;
      WithoutReps(rs, q, id, id);
      forall x | x in ids - {id} ensures Reps(Without(rs, id), q, x) <= n { WithoutReps(rs, q, id, x); }
      OneLess(n, ids, id);
      hide Reps, Without;
      RepsTogether(Without(rs, id), q, ids - {id}, n);
    }
  }

  /** An exchange never accepts more replies than copies of its request can be answered. */
  lemma CollectedBounded(s: Sys, q: nat)
    requires Inv(s) && q in s.sent
    ensures |Got(s, q)| <= Copies(s, q) * |Elements(s.sent[q].idList)|
  {
    var got, ids := Got(s, q), Elements(s.sent[q].idList);
    forall id | id in ids ensures Reps(got, q, id) <= Copies(s, q) {
      assert Total(s, q, id) + Pending(s, q) <= Copies(s, q);
    }
    forall r | r in got ensures r.randomSeq == q && r.deviceID in ids { assert Answers(s.sent, r); }
    hide Inv, Got, Copies, Elements;
    RepsTogether(got, q, ids, Copies(s, q));
  }

  /** The call q waits, and its static request holds its number. */
  ghost predicate Collecting(s: Sys, q: nat) {
    Inv(s) && q in s.calls && q in s.sent && CallKind(s.sent[q].kind) && Current(s, q)
  }

  /** From s to t agent `id` has taken n copies of the request, and no other agent has. */
  ghost predicate Used(s: Sys, t: Sys, q: nat, id: nat, n: nat) {
    forall x: nat :: Reqs(In(t, x), q) + (if x == id then n else 0) == Reqs(In(s, x), q)
  }

  /** From s to t the call q has accepted n more replies, to copies of its request that waited at agent `id`. */
  ghost predicate Took(s: Sys, t: Sys, q: nat, id: nat, n: nat) {
    && q in s.sent && q in t.sent && t.sent[q] == s.sent[q] && |Got(t, q)| == |Got(s, q)| + n
    && Collecting(t, q) && Used(s, t, q, id, n)
  }

  lemma {:induction false} FindReq(rs: seq<Request>, q: nat) returns (i: nat)
    requires Reqs(rs, q) > 0
    ensures i < |rs| && rs[i].randomSeq == q
  {
    if rs[0].randomSeq == q {
      i := 0;
    } else {
      var j := FindReq(rs[1..], q);
      i := j + 1;
    }
  }

  lemma ExecuteReqs(s: Sys, q: nat, id: nat, i: nat, x: nat)
    requires i < |In(s, id)| && In(s, id)[i].randomSeq == q
    ensures Reqs(In(DoExecute(s, id, i, "", []), x), q) + (if x == id then 1 else 0) == Reqs(In(s, x), q)
  {
    ReqsDrop(In(s, id), i, q);
    assert In(DoExecute(s, id, i, "", []), x) == if x == id then Drop(In(s, id), i) else In(s, x);
  }

  /** An agent executes a request that waits for it and puts the reply behind everything in its ring. */
  lemma ExecuteNow(s: Sys, q: nat, id: nat, i: nat)
    requires Collecting(s, q) && id in s.sent[q].idList && i < |In(s, id)| && In(s, id)[i].randomSeq == q
    ensures var t := DoExecute(s, id, i, "", []);
      && Inv(t) && t == s.(inbox := t.inbox, ring := t.ring)
      && Ring(t, id) == Ring(s, id) + [AnswerTo(s.sent[q], id)] && Used(s, t, q, id, 1)
  {
    var t, e := DoExecute(s, id, i, "", []), Execute(id, i, "", []);
    assert In(s, id)[i] == s.sent[q] && s.sent[q].randomSeq == q;
    assert Enabled(s, e) && Next(s, e) == t;
    hide Inv, Drop, Reqs, Next, Enabled;
    StepKeepsInv(s, e);
    forall x: nat ensures Reqs(In(t, x), q) + (if x == id then 1 else 0) == Reqs(In(s, x), q) {
      ExecuteReqs(s, q, id, i, x);
    }
  }

  /** The call takes the last reply on the net. */
  lemma CollectLast(s: Sys, q: nat, id: nat)
    requires Collecting(s, q) && q in s.sent && s.net != [] && s.net[|s.net| - 1] == AnswerTo(s.sent[q], id)
    requires s.sent[q].randomSeq == q
    ensures var e := Collect(q, |s.net| - 1);
      && Enabled(s, e)
      && var t := Next(s, e);
        Collecting(t, q) && t == s.(net := t.net, got := t.got) && |Got(t, q)| == |Got(s, q)| + 1
  {
    var e := Collect(q, |s.net| - 1);
    assert Enabled(s, e) && Next(s, e) == DoCollect(s, q, |s.net| - 1);
    hide Inv, Drop, Next, Enabled;
    StepKeepsInv(s, e);
  }

  /** The agent sends everything in its ring. */
  lemma SendRing(s: Sys, q: nat, id: nat)
    requires Collecting(s, q)
    ensures var run := SendSteps(id, |Ring(s, id)|);
      && Valid(s, run)
      && var t := After(s, run);
        Collecting(t, q) && Got(t, q) == Got(s, q) && t == s.(ring := t.ring, net := s.net + Ring(s, id))
  {
    var run := SendSteps(id, |Ring(s, id)|);
    hide Inv, SendSteps, Ring, After, Valid;
    SendRun(s, id);
    RunKeepsInv(s, run);
  }

  /** The agent sends everything in its ring, and the call takes the last reply. */
  lemma SendAndCollect(s: Sys, q: nat, id: nat) returns (run: seq<Step>)
    requires Collecting(s, q) && q in s.sent && s.sent[q].randomSeq == q
    requires Ring(s, id) != [] && Ring(s, id)[|Ring(s, id)| - 1] == AnswerTo(s.sent[q], id)
    ensures Valid(s, run)
    ensures var t := After(s, run);
      Collecting(t, q) && t == s.(ring := t.ring, net := t.net, got := t.got) && |Got(t, q)| == |Got(s, q)| + 1
  {
    hide *;
    var sends := SendSteps(id, |Ring(s, id)|);
    SendRing(s, q, id);
    var t := After(s, sends);
    CollectLast(t, q, id);
    var c := Collect(q, |t.net| - 1);
    RunOne(t, c);
    RunConcat(s, sends, [c]);
    run := sends + [c];
  }

  /** An agent at which a copy of the request waits answers it, and the call takes the answer. */
  lemma AnswerOnce(s: Sys, q: nat, id: nat) returns (run: seq<Step>)
    requires Collecting(s, q) && id in s.sent[q].idList && Reqs(In(s, id), q) > 0
    ensures Valid(s, run) && Took(s, After(s, run), q, id, 1)
  {
    var i := FindReq(In(s, id), q);
    var e, t := Execute(id, i, "", []), DoExecute(s, id, i, "", []);
    assert Enabled(s, e) && Next(s, e) == t && s.sent[q].randomSeq == q;
    hide Inv, Next, DoExecute, Reqs, AnswerTo, Enabled, After, Valid;
    ExecuteNow(s, q, id, i);
    assert Collecting(t, q) && Got(t, q) == Got(s, q) && Ring(t, id) != [];
    hide *;
    RunOne(s, e);
    var rest := SendAndCollect(t, q, id);
    RunConcat(s, [e], rest);
    run := [e] + rest;
    TookOne(s, t, After(t, rest), q, id);
  }

  lemma TookOne(s: Sys, t: Sys, u: Sys, q: nat, id: nat)
    requires q in s.sent && t.sent == s.sent && Got(t, q) == Got(s, q) && Used(s, t, q, id, 1)
    requires Collecting(u, q) && u.sent == t.sent && u.inbox == t.inbox && |Got(u, q)| == |Got(t, q)| + 1
    ensures Took(s, u, q, id, 1)
  {
    hide Collecting, Reqs, Got;
    assert Used(s, u, q, id, 1);
  }

  lemma TookTwice(s: Sys, a: seq<Step>, b: seq<Step>, q: nat, id: nat, m: nat, n: nat)
    requires Valid(s, a) && Took(s, After(s, a), q, id, m)
    requires Valid(After(s, a), b) && Took(After(s, a), After(After(s, a), b), q, id, n)
    ensures Valid(s, a + b) && Took(s, After(s, a + b), q, id, m + n)
  {
    hide Collecting, Reqs, In, Got, After, Valid;
    RunConcat(s, a, b);
  }

  lemma TookNothing(s: Sys, q: nat, id: nat)
    requires Collecting(s, q) && q in s.sent
    ensures Valid(s, []) && Took(s, After(s, []), q, id, 0)
  {
    hide Collecting, Reqs, In, Got;
  }

  /** What is left for the next answer. */
  lemma TookLeaves(s: Sys, t: Sys, q: nat, id: nat, m: nat, x: nat)
    requires Took(s, t, q, id, m)
    ensures q in s.sent && q in t.sent && t.sent[q] == s.sent[q] && Collecting(t, q)
    ensures |Got(t, q)| == |Got(s, q)| + m && Reqs(In(t, x), q) + (if x == id then m else 0) == Reqs(In(s, x), q)
  {
    hide Collecting, Reqs, In, Got;
  }

  lemma {:induction false} AnswerTimes(s: Sys, q: nat, id: nat, n: nat) returns (run: seq<Step>)
    requires Collecting(s, q) && q in s.sent && id in s.sent[q].idList && Reqs(In(s, id), q) >= n
    ensures Valid(s, run) && Took(s, After(s, run), q, id, n)
    decreases n
  {
    hide *;
    if n == 0 {
      run := [];
      TookNothing(s, q, id);
    } else {
      var first := AnswerOnce(s, q, id);
      TookLeaves(s, After(s, first), q, id, 1, id);
      var rest := AnswerTimes(After(s, first), q, id, n - 1);
      TookTwice(s, first, rest, q, id, 1, n - 1);
      run := first + rest;
    }
  }

  /** At each agent of `ids`, which are on the list, n copies of the request wait. */
  predicate CopiesWait(s: Sys, q: nat, ids: set<nat>, n: nat)
    requires q in s.sent
  {
    forall id | id in ids :: id in s.sent[q].idList && Reqs(In(s, id), q) >= n
  }

  lemma CopiesLeft(s: Sys, t: Sys, q: nat, ids: set<nat>, n: nat, id: nat)
    requires q in s.sent && CopiesWait(s, q, ids, n) && id in ids && Took(s, t, q, id, n)
    ensures q in t.sent && CopiesWait(t, q, ids - {id}, n)
  {
    forall x | x in ids - {id} ensures Reqs(In(t, x), q) >= n { TookLeaves(s, t, q, id, n, x); }
    hide Collecting, Reqs, In, Got;
  }

  lemma OneWaits(s: Sys, q: nat, ids: set<nat>, n: nat, id: nat)
    requires q in s.sent && CopiesWait(s, q, ids, n) && id in ids
    ensures id in s.sent[q].idList && Reqs(In(s, id), q) >= n
  {
  }

  /** From s to t the call q has accepted n more replies. */
  ghost predicate TookAll(s: Sys, t: Sys, q: nat, n: nat) {
    q in s.sent && q in t.sent && t.sent[q] == s.sent[q] && |Got(t, q)| == |Got(s, q)| + n
  }

  /** Every agent of `ids` answers n copies, and the call takes all the answers. */
  lemma {:induction false} AnswerAll(s: Sys, q: nat, ids: set<nat>, n: nat) returns (run: seq<Step>)
    requires Collecting(s, q) && q in s.sent && CopiesWait(s, q, ids, n)
    ensures Valid(s, run) && TookAll(s, After(s, run), q, n * |ids|)
    decreases |ids|
  {
    hide *;
    if ids == {} {
      run := [];
      TookNone(s, q, n);
    } else {
      var id :| id in ids;
      OneWaits(s, q, ids, n, id);
      var first := AnswerTimes(s, q, id, n);
      var t := After(s, first);
      CopiesLeft(s, t, q, ids, n, id);
      TookLeaves(s, t, q, id, n, id);
      OneLess(n, ids, id);
      var rest := AnswerAll(t, q, ids - {id}, n);
      RunConcat(s, first, rest);
      run := first + rest;
      TookAfter(s, t, After(s, run), q, id, n, n * |ids - {id}|);
    }
  }

  lemma TookNone(s: Sys, q: nat, n: nat)
    requires q in s.sent
    ensures Valid(s, []) && TookAll(s, After(s, []), q, n * 0)
  {
    hide Got;
  }

  lemma TookAfter(s: Sys, t: Sys, u: Sys, q: nat, id: nat, m: nat, n: nat)
    requires Took(s, t, q, id, m) && TookAll(t, u, q, n)
    ensures TookAll(s, u, q, m + n)
  {
    hide Collecting, Reqs, In, Got;
  }

  /** From the filling of request r on, the run puts more replies into its call's list than there is room for. */
  predicate Overflows(s: Sys, r: Request, run: seq<Step>)
    requires Enabled(s, Fill(r))
  {
    Valid(Next(s, Fill(r)), run) && |Got(After(Next(s, Fill(r)), run), r.randomSeq)| > |r.idList|
  }

  /** After any history the list of a GET or SET call can overflow if and only if its request can be written so often
      that the distinct devices of its list together give more answers than the list is long. */
  lemma OverflowIff(timeout: int, now: int, before: seq<Step>, r: Request)
    requires Valid(Init(timeout, now), before) && Enabled(After(Init(timeout, now), before), Fill(r))
    requires CallKind(r.kind)
    ensures var s := After(Init(timeout, now), before);
      (exists later :: Overflows(s, r, later))
      <==> (|OpenOf(s, r.kind)| + 1) * |Elements(r.idList)| > |r.idList|
  {
    var s, q := After(Init(timeout, now), before), r.randomSeq;
    InitInv(timeout, now);
    RunKeepsInv(Init(timeout, now), before);
    var s1 := Next(s, Fill(r));
    StepKeepsInv(s, Fill(r));
    FillNow(s, r);
    var n, ids := |OpenOf(s, r.kind)| + 1, Elements(r.idList);
    hide Next, Enabled, OpenOf, Pending, Copies, Elements;
    if n * |ids| > |r.idList| {
      var run := OverflowRun(s1, q);
      assert Overflows(s, r, run);
    }
    forall later | Overflows(s, r, later) ensures n * |ids| > |r.idList| {
      RunKeepsInv(s1, later);
      SentRun(s1, later, q);
      CollectedBounded(After(s1, later), q);
    }
  }

  /** All open calls of the function write the request, all its devices answer, and the call takes all answers. */
  lemma OverflowRun(s: Sys, q: nat) returns (run: seq<Step>)
    requires Inv(s) && q in s.sent && q in s.open && CallKind(s.sent[q].kind) && Current(s, q)
    ensures Valid(s, run) && |Got(After(s, run), q)| >= Pending(s, q) * |Elements(s.sent[q].idList)|
  {
    var ids := Elements(s.sent[q].idList);
    assert forall id | id in ids :: id in s.sent[q].idList;
    var writes := WriteAll(s, q, ids);
    var t := After(s, writes);
    RunKeepsInv(s, writes);
    assert Collecting(t, q);
    hide Inv, Collecting, Pending, Reqs, In, Got, Elements;
    var answers := AnswerAll(t, q, ids, Pending(s, q));
    run := writes + answers;
    RunConcat(s, writes, answers);
  }

  /** For a list that names no device twice: if and only if another call of the function is about to write, and the
      list is not empty. */
  lemma DistinctOverflowIff(timeout: int, now: int, before: seq<Step>, r: Request)
    requires Valid(Init(timeout, now), before) && Enabled(After(Init(timeout, now), before), Fill(r))
    requires CallKind(r.kind) && Distinct(r.idList)
    ensures var s := After(Init(timeout, now), before);
      (exists later :: Overflows(s, r, later)) <==> Overlaps(s, r.kind) && r.idList != []
  {
    var s := After(Init(timeout, now), before);
    OverflowIff(timeout, now, before, r);
    DoubledIffOverlap(timeout, now, before, r, []);
    WritableIff(timeout, now, before, r, 2);
    ElementsSize(r.idList);
    var others, n := |OpenOf(s, r.kind)|, |r.idList|;
    hide *;
    assert (others + 1) * n == others * n + n;
  }

  /** Two GET calls for one device: if the second fills while the first is about to write, two answers can be accepted
      into its list, which has room for one. */
  lemma TwoOverlapOverflow(timeout: int, now: int)
    ensures var before, r := [Fill(GetFrom(7, 1))], GetFrom(7, 2);
      && Valid(Init(timeout, now), before) && Enabled(After(Init(timeout, now), before), Fill(r))
      && exists later :: Overflows(After(Init(timeout, now), before), r, later)
  {
    var s0, e, r := Init(timeout, now), Fill(GetFrom(7, 1)), GetFrom(7, 2);
    RunOne(s0, e);
    var s := After(s0, [e]);
    assert 1 in s.open && s.sent[1].kind == r.kind;
    DistinctOverflowIff(timeout, now, [e], r);
  }
}
