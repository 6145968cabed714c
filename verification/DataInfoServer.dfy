/** The server's side of the DataInfo exchanges: the reply reader, the waiting GET/SET calls and the file
    transfer, on mutable state. */
module DataInfoServer {
  import opened Collections
  import opened Wrappers
  import opened Messages
  import opened Devices
  import opened Registry
  import opened Transfer
  import opened SetMessage

  const CONFIG_KEY_STR_LEN := 4096

  /** The transport: the reply reader's samples and the requests written so far. */
  class Transport {
    var samples: seq<Reply>
    var requests: seq<Request>

    constructor ()
      ensures samples == [] && requests == []
    {
      samples, requests := [], [];
    }

    /** `dds_transport_send` on the request topic. */
    method Send(r: Request)
      modifies this`requests
      ensures requests == old(requests) + [r]
    {
      requests := requests + [r];
    }

    /** One `dds_take_instance`. */
    method TakeInstance(q: nat) returns (r: Option<Reply>)
      modifies this`samples
      ensures r == if Instance(old(samples), q) == [] then None else Some(Instance(old(samples), q)[0])
      ensures r.Some? ==> Instance(samples, q) == Instance(old(samples), q)[1..]
      ensures r.None? ==> samples == old(samples)
      ensures Others(samples, q) == Others(old(samples), q)
      ensures r.Some? ==> |samples| < |old(samples)|
    {
      var i := FirstOf(samples, q);
      if i == |samples| {
        return None;
      }
      TakeFirst(samples, q);
      r := Some(samples[i]);
      samples := Drop(samples, i);
    }
  }

  // ----- waiting calls -----

  function Truncate(s: string): string {
    if |s| <= CONFIG_KEY_STR_LEN then s else s[..CONFIG_KEY_STR_LEN]
  }

  /** What a reply leaves in the result list: strncpy copies at most 4096 characters. */
  function Entry(r: Reply): DataInfo {
    DataInfo(r.deviceID, Truncate(r.msg))
  }

  function Entries(rs: seq<Reply>): (ds: seq<DataInfo>)
    ensures |ds| == |rs| && forall i | 0 <= i < |rs| :: ds[i] == Entry(rs[i])
  {
    seq(|rs|, i requires 0 <= i < |rs| => Entry(rs[i]))
  }

  function OfKind(rs: seq<Reply>, kind: Kind): seq<Reply> {
    if rs == [] then [] else (if rs[0].kind == kind then [rs[0]] else []) + OfKind(rs[1..], kind)
  }

  lemma {:induction false} OfKindConcat(a: seq<Reply>, b: seq<Reply>, kind: Kind)
    ensures OfKind(a + b, kind) == OfKind(a, kind) + OfKind(b, kind)
  {
    if a == [] {
      assert a + b == b;
    } else {
      var first := if a[0].kind == kind then [a[0]] else [];
      assert (a + b)[0] == a[0] && (a + b)[1..] == a[1..] + b;
      assert OfKind(a + b, kind) == first + OfKind(a[1..] + b, kind) && OfKind(a, kind) == first + OfKind(a[1..], kind);
      hide OfKind;
      OfKindConcat(a[1..], b, kind);
      Associative(first, OfKind(a[1..], kind), OfKind(b, kind));
    }
  }

  /** The static request of one of the three functions, shared by all its calls: its type, and the number of
      the call that filled it last. */
  class StaticRequest {
    const kind: Kind
    var randomSeq: nat

    constructor (kind: Kind)
      ensures this.kind == kind
    {
      this.kind := kind;
      randomSeq := 0;
    }
  }

  /** What a call keeps of the replies of its instance: those of its type, as long as the static request
      still holds its number. */
  function Kept(rs: seq<Reply>, kind: Kind, current: bool): seq<Reply> {
    if current then OfKind(rs, kind) else []
  }

  /** A reply that matches is written behind the result list. */
  datatype Overflow = BehindList

  /** `reply_data`: the request that replies are compared with, and the result list with its counter. */
  class ReplyData {
    const req: StaticRequest
    const list: array<DataInfo>
    var num: nat

    ghost predicate Valid()
      reads this
    {
      num <= list.Length
    }

    constructor (req: StaticRequest, idNum: nat)
      ensures Valid() && fresh(list) && list.Length == idNum && num == 0 && this.req == req
    {
      this.req, num := req, 0;
      list := new DataInfo[idNum](_ => DataInfo(0, ""));
    }

    /** `recv_reply`. A reply that matches and finds the list full is written behind it. */
    method RecvReply(r: Reply) returns (ret: Result<int, Overflow>)
      requires Valid()
      modifies this`num, list
      ensures Valid()
      ensures var matches := r.kind == req.kind && r.randomSeq == req.randomSeq;
        && (ret.Err? <==> matches && old(num) == list.Length)
        && (ret.Ok? && matches ==> ret.value == 0 && list[..num] == old(list[..num]) + [Entry(r)])
        && (!matches ==> ret == Ok(-1) && num == old(num) && list[..] == old(list[..]))
    {
      if r.kind != req.kind || r.randomSeq != req.randomSeq {
        return Ok(-1);
      }
      if num == list.Length {
        return Err(BehindList);
      }
      list[num] := Entry(r);
      num := num + 1;
      ret := Ok(0);
    }

    /** `dds_transport_try_recv_instance` with `recv_reply`: takes the whole instance of the call's own number
        `q`, and keeps its replies only if the static request holds that number. It fails exactly if there are
        more to keep than the list has room for. */
    method TryRecvInstance(transport: Transport, q: nat) returns (ret: Result<int, Overflow>)
      requires Valid()
      modifies this`num, list, transport`samples
      ensures var kept := Kept(Instance(old(transport.samples), q), req.kind, req.randomSeq == q);
        && (ret.Err? <==> old(num) + |kept| > list.Length)
        && (ret.Ok? ==> Valid() && list[..num] == old(list[..num]) + Entries(kept))
        && (ret.Ok? ==> transport.samples == Others(old(transport.samples), q))
    {
      hide OfKind, Instance, Others, Entries, Entry, Kept;
      ghost var kind, current := req.kind, req.randomSeq == q;
      ghost var all, had := Kept(Instance(transport.samples, q), kind, current), list[..num];
      ghost var left := Instance(transport.samples, q);
      NothingLeft(transport.samples, q);
      var r := transport.TakeInstance(q);
      while r.Some?
        invariant Valid()
        invariant left == (if r.Some? then [r.value] else []) + Instance(transport.samples, q)
        invariant if r.Some? then r.value.randomSeq == q else Instance(transport.samples, q) == []
        invariant Others(transport.samples, q) == Others(old(transport.samples), q)
        invariant num + |Kept(left, kind, current)| == |had| + |all|
        invariant list[..num] + Entries(Kept(left, kind, current)) == had + Entries(all)
        decreases r.Some?, |transport.samples|
      {
        left := Instance(transport.samples, q);
        KeptCons(r.value, left, kind, current);
        ghost var first := if r.value.kind == kind && current then [Entry(r.value)] else [];
        Associative(list[..num], first, Entries(Kept(left, kind, current)));
        ret := RecvReply(r.value);
        if ret.Err? {
          return;
        }
        NothingLeft(transport.samples, q);
        r := transport.TakeInstance(q);
      }
      NothingLeft(transport.samples, q);
      KeptNone(kind, current);
      ret := Ok(0);
    }
  }

  lemma KeptNone(kind: Kind, current: bool)
    ensures Kept([], kind, current) == [] && Entries([]) == []
  {
  }

  lemma EntriesConcat(a: seq<Reply>, b: seq<Reply>)
    ensures Entries(a + b) == Entries(a) + Entries(b)
  {
    hide Entry;
  }

  lemma KeptCons(r: Reply, rest: seq<Reply>, kind: Kind, current: bool)
    ensures var first := if r.kind == kind && current then [r] else [];
      && Kept([r] + rest, kind, current) == first + Kept(rest, kind, current)
      && Entries(Kept([r] + rest, kind, current)) == Entries(first) + Entries(Kept(rest, kind, current))
      && Entries(first) == if r.kind == kind && current then [Entry(r)] else []
  {
    var first := if r.kind == kind && current then [r] else [];
    assert ([r] + rest)[1..] == rest;
    assert Kept([r] + rest, kind, current) == first + Kept(rest, kind, current);
    hide Kept, OfKind, Entry;
    EntriesConcat(first, Kept(rest, kind, current));
  }

  /** What one poll of a waiting call sees: replies that arrived since the last one, whether a later call of
      the same function has begun and overwritten the static request, and the clock. */
  datatype PollInput = PollInput(arrivals: seq<Reply>, later: Option<nat>, now: int)

  function Arrivals(polls: seq<PollInput>): seq<Reply> {
    if polls == [] then [] else polls[0].arrivals + Arrivals(polls[1..])
  }

  /** The polls before the first one that finds a later call. */
  function Undisturbed(polls: seq<PollInput>): (n: nat)
    ensures n <= |polls|
    ensures n == |polls| <==> forall i | 0 <= i < |polls| :: polls[i].later.None?
  {
    if polls == [] || polls[0].later.Some? then 0 else 1 + Undisturbed(polls[1..])
  }

  /** `current`: the static request holds this call's number. */
  datatype WaitState = WaitState(got: seq<Reply>, samples: seq<Reply>, current: bool, now: int)

  /** One poll: the whole instance is taken, and what matches the static request is kept. */
  function PollStep(w: WaitState, p: PollInput, kind: Kind, q: nat): WaitState {
    var all, current := w.samples + p.arrivals, w.current && p.later.None?;
    WaitState(w.got + Kept(Instance(all, q), kind, current), Others(all, q), current, p.now)
  }

  /** Draining in two rounds takes what one later round would take. */
  lemma DrainTwice(all: seq<Reply>, later: seq<Reply>, kind: Kind, q: nat)
    ensures OfKind(Instance(all + later, q), kind)
      == OfKind(Instance(all, q), kind) + OfKind(Instance(Others(all, q) + later, q), kind)
    ensures Others(all + later, q) == Others(Others(all, q) + later, q)
  {
    hide Instance, Others, OfKind;
    OthersConcat(all, later, q);
    OthersConcat(Others(all, q), later, q);
    NothingLeft(all, q);
    NothingLeft(Others(all, q), q);
    OfKindConcat(Instance(all, q), Instance(later, q), kind);
    assert [] + Instance(later, q) == Instance(later, q);
  }

  /** The loop shared by the three calls: poll until `cap` replies are collected or the time is up. */
  function Wait(w: WaitState, polls: seq<PollInput>, kind: Kind, q: nat, cap: nat, start: int, timeout: int): WaitState
    decreases |polls|
  {
    if polls == [] || |w.got| == cap || w.now - start > timeout then w
    else
      Wait(PollStep(w, polls[0], kind, q), polls[1..], kind, q, cap, start, timeout)
  }

  function PollAll(w: WaitState, polls: seq<PollInput>, kind: Kind, q: nat): WaitState
    decreases |polls|
  {
    if polls == [] then w else PollAll(PollStep(w, polls[0], kind, q), polls[1..], kind, q)
  }

  /** Two polls take what one later poll would take, unless another call begins in between. */
  lemma PollMerge(w: WaitState, a: PollInput, b: PollInput, kind: Kind, q: nat)
    requires b.later.None?
    ensures PollStep(PollStep(w, a, kind, q), b, kind, q)
      == PollStep(w, PollInput(a.arrivals + b.arrivals, a.later, b.now), kind, q)
  {
    var all := w.samples + a.arrivals;
    assert w.samples + (a.arrivals + b.arrivals) == all + b.arrivals;
    DrainTwice(all, b.arrivals, kind, q);
    hide Instance, Others, OfKind;
    var x, y := OfKind(Instance(all, q), kind), OfKind(Instance(Others(all, q) + b.arrivals, q), kind);
    Associative(w.got, x, y);
  }

  /** What a number of polls collects: the matching replies that arrived up to the last undisturbed one. */
  function Collected(w: WaitState, polls: seq<PollInput>, kind: Kind, q: nat): seq<Reply> {
    var u := Undisturbed(polls);
    if w.current && u > 0 then OfKind(Instance(w.samples + Arrivals(polls[..u]), q), kind) else []
  }

  lemma ArrivalsCons(polls: seq<PollInput>, u: nat)
    requires 0 < u <= |polls|
    ensures Arrivals(polls[..u]) == polls[0].arrivals + Arrivals(polls[1..][..u - 1])
  {
    assert polls[..u][0] == polls[0] && polls[..u][1..] == polls[1..][..u - 1];
  }

  lemma Regroup(samples: seq<Reply>, polls: seq<PollInput>, u: nat)
    requires 0 < u <= |polls|
    ensures samples + Arrivals(polls[..u]) == samples + polls[0].arrivals + Arrivals(polls[1..][..u - 1])
  {
    ArrivalsCons(polls, u);
    hide Arrivals;
    Associative(samples, polls[0].arrivals, Arrivals(polls[1..][..u - 1]));
  }

  /** What the undisturbed polls keep, and what is left for the later ones. */
  lemma CollectedMore(w: WaitState, polls: seq<PollInput>, kind: Kind, q: nat)
    requires polls != [] && w.current && Undisturbed(polls) > 0
    ensures var all, w1 := w.samples + polls[0].arrivals, PollStep(w, polls[0], kind, q);
      && w1.got == w.got + OfKind(Instance(all, q), kind)
      && Collected(w, polls, kind, q) == OfKind(Instance(all, q), kind) + Collected(w1, polls[1..], kind, q)
  {
    hide OfKind, Instance, Others, Arrivals;
    var all, u, w1 := w.samples + polls[0].arrivals, Undisturbed(polls), PollStep(w, polls[0], kind, q);
    var later := Arrivals(polls[1..][..u - 1]);
    assert w1.samples == Others(all, q) && w1.current && Undisturbed(polls[1..]) == u - 1;
    assert Collected(w1, polls[1..], kind, q)
        == if u == 1 then [] else OfKind(Instance(Others(all, q) + later, q), kind);
    Regroup(w.samples, polls, u);
    if u == 1 {
      NoArrivals(polls[1..]);
      assert all + [] == all;
    } else {
      DrainTwice(all, later, kind, q);
    }
  }

  lemma NoArrivals(polls: seq<PollInput>)
    ensures Arrivals(polls[..0]) == []
  {
  }

  lemma CollectedStep(w: WaitState, polls: seq<PollInput>, kind: Kind, q: nat)
    requires polls != []
    ensures var w1 := PollStep(w, polls[0], kind, q);
      w1.got + Collected(w1, polls[1..], kind, q) == w.got + Collected(w, polls, kind, q)
  {
    var all, w1 := w.samples + polls[0].arrivals, PollStep(w, polls[0], kind, q);
    if w.current && Undisturbed(polls) > 0 {
      CollectedMore(w, polls, kind, q);
      hide OfKind, Instance, Others, Collected, PollStep;
      Associative(w.got, OfKind(Instance(all, q), kind), Collected(w1, polls[1..], kind, q));
    } else {
      assert w1.got == w.got + [] && Collected(w1, polls[1..], kind, q) == [];
    }
  }

  /** The effect of a number of polls at once. */
  function Polled(w: WaitState, polls: seq<PollInput>, kind: Kind, q: nat): WaitState
    requires polls != []
  {
    WaitState(w.got + Collected(w, polls, kind, q), Others(w.samples + Arrivals(polls), q),
              w.current && Undisturbed(polls) == |polls|, polls[|polls| - 1].now)
  }

  lemma PolledOne(w: WaitState, p: PollInput, kind: Kind, q: nat)
    ensures Polled(w, [p], kind, q) == PollStep(w, p, kind, q)
  {
    assert [p][1..] == [] && p.arrivals + [] == p.arrivals;
    assert Arrivals([p]) == p.arrivals && (Undisturbed([p]) == 1 <==> p.later.None?);
    CollectedStep(w, [p], kind, q);
    var w1 := PollStep(w, p, kind, q);
    assert w1.got + Collected(w1, [], kind, q) == w1.got;
  }

  lemma PolledStep(w: WaitState, polls: seq<PollInput>, kind: Kind, q: nat)
    requires |polls| > 1
    ensures Polled(PollStep(w, polls[0], kind, q), polls[1..], kind, q) == Polled(w, polls, kind, q)
  {
    var w1 := PollStep(w, polls[0], kind, q);
    hide Collected, OfKind, Instance, Others, Kept;
    assert w1.got + Collected(w1, polls[1..], kind, q) == w.got + Collected(w, polls, kind, q) by {
      CollectedStep(w, polls, kind, q);
    }
    assert Others(w1.samples + Arrivals(polls[1..]), q) == Others(w.samples + Arrivals(polls), q) by {
      var all, later := w.samples + polls[0].arrivals, Arrivals(polls[1..]);
      DrainTwice(all, later, kind, q);
      assert all + later == w.samples + Arrivals(polls);
    }
    assert Undisturbed(polls) == |polls| <==> polls[0].later.None? && Undisturbed(polls[1..]) == |polls| - 1;
    hide Undisturbed, Arrivals;
  }

  /** Polling in rounds takes what one round at the end would take, up to the first later call; after that the
      replies are taken and lost. */
  lemma {:induction false} PollAllAtOnce(w: WaitState, polls: seq<PollInput>, kind: Kind, q: nat)
    requires polls != []
    ensures PollAll(w, polls, kind, q) == Polled(w, polls, kind, q)
    decreases |polls|
  {
    hide PollStep, Polled;
    if |polls| == 1 {
      assert polls == [polls[0]];
      PolledOne(w, polls[0], kind, q);
    } else {
      PolledStep(w, polls, kind, q);
      PollAllAtOnce(PollStep(w, polls[0], kind, q), polls[1..], kind, q);
    }
  }

  /** The list only grows. */
  lemma {:induction false} WaitGrows(w: WaitState, polls: seq<PollInput>, kind: Kind, q: nat, cap: nat,
          start: int, timeout: int)
    ensures w.got <= Wait(w, polls, kind, q, cap, start, timeout).got
    decreases |polls|
  {
    if polls != [] && |w.got| != cap && w.now - start <= timeout {
      hide Kept, Instance, Others;
      WaitGrows(PollStep(w, polls[0], kind, q), polls[1..], kind, q, cap, start, timeout);
    }
  }

  /** The loop stops after n polls: the first time that it has `cap` replies or is past its timeout, or when the polls
      are used up. */
  lemma {:induction false} WaitStops(w: WaitState, polls: seq<PollInput>, kind: Kind, q: nat, cap: nat,
          start: int, timeout: int)
    returns (n: nat)
    ensures n <= |polls|
    ensures var w' := Wait(w, polls, kind, q, cap, start, timeout);
      w' == PollAll(w, polls[..n], kind, q) && (|w'.got| == cap || w'.now - start > timeout || n == |polls|)
    ensures forall m: nat | m < n ::
      var v := PollAll(w, polls[..m], kind, q); |v.got| != cap && v.now - start <= timeout
    decreases |polls|
  {
    hide PollStep;
    n := 0;
    if polls != [] && |w.got| != cap && w.now - start <= timeout {
      var w1 := PollStep(w, polls[0], kind, q);
      var m := WaitStops(w1, polls[1..], kind, q, cap, start, timeout);
      n := m + 1;
      assert polls[..n][0] == polls[0] && polls[..n][1..] == polls[1..][..m];
      forall k: nat | k < n
        ensures var v := PollAll(w, polls[..k], kind, q); |v.got| != cap && v.now - start <= timeout
      {
        if k > 0 { assert polls[..k][0] == polls[0] && polls[..k][1..] == polls[1..][..k - 1]; }
      }
    }
  }

  /** The result is the replies of this kind and number that arrived, in order, in those of the first n polls
      that precede any later call of the same function; the reader keeps exactly the replies of other numbers. A
      call whose request was overwritten before it was written keeps nothing. The call waits no longer than
      needed: before each of the n polls its list was not full and its time not up. */
  lemma WaitCollects(w: WaitState, polls: seq<PollInput>, kind: Kind, q: nat, cap: nat, start: int, timeout: int)
    returns (n: nat)
    requires w.got == [] && w.now == start
    ensures n <= |polls|
    ensures var w' := Wait(w, polls, kind, q, cap, start, timeout);
      && (n == 0 ==> w' == w)
      && (n > 0 ==>
            && w'.got == Collected(w, polls[..n], kind, q)
            && w'.samples == Others(w.samples + Arrivals(polls[..n]), q) && w'.now == polls[n - 1].now)
      && (|w'.got| == cap || w'.now - start > timeout || n == |polls|)
    ensures forall m: nat | 0 < m < n ::
      |Collected(w, polls[..m], kind, q)| != cap && polls[m - 1].now - start <= timeout
    ensures n > 0 ==> cap != 0 && timeout >= 0
  {
    hide Instance, Others, OfKind, Wait, Collected;
    n := WaitStops(w, polls, kind, q, cap, start, timeout);
    if n > 0 {
      PollAllAtOnce(w, polls[..n], kind, q);
      assert polls[..0] == [] && PollAll(w, polls[..0], kind, q) == w;
    }
    forall m: nat | 0 < m < n
      ensures |Collected(w, polls[..m], kind, q)| != cap && polls[m - 1].now - start <= timeout
    {
      var v := PollAll(w, polls[..m], kind, q);
      assert |v.got| != cap && v.now - start <= timeout;
      PollAllAtOnce(w, polls[..m], kind, q);
      assert v.got == w.got + Collected(w, polls[..m], kind, q) && v.now == polls[..m][m - 1].now;
    }
  }

  /** Replies of every other number are still there after the call, in order. */
  lemma WaitKeepsOthers(w: WaitState, polls: seq<PollInput>, kind: Kind, q: nat, cap: nat, start: int,
          timeout: int, q': nat)
    returns (n: nat)
    requires q' != q && w.got == [] && w.now == start
    ensures n <= |polls|
    ensures var w' := Wait(w, polls, kind, q, cap, start, timeout);
      Instance(w'.samples, q') == Instance(w.samples + Arrivals(polls[..n]), q')
  {
    n := WaitCollects(w, polls, kind, q, cap, start, timeout);
    if n == 0 {
      assert w.samples + Arrivals(polls[..0]) == w.samples;
    } else {
      DrainKeepsOthers(w.samples + Arrivals(polls[..n]), q, q');
    }
  }

  /** A reply under the number of this call but of another kind is taken and lost; so sequence numbers must
      not be shared between exchanges. */
  lemma SharedNumberLoses(samples: seq<Reply>, r: Reply, kind: Kind, q: nat)
    requires r in samples && !(r.kind == kind && r.randomSeq == q)
    ensures r in Others(samples, q) <==> r.randomSeq != q
    ensures r !in OfKind(Instance(samples, q), kind)
  {
    InOthers(samples, r, q);
    InOfKind(samples, r, kind, q);
  }

  lemma {:induction false} InOthers(samples: seq<Reply>, r: Reply, q: nat)
    ensures r in Others(samples, q) <==> r in samples && r.randomSeq != q
  {
    if samples != [] {
      InOthers(samples[1..], r, q);
      assert samples == [samples[0]] + samples[1..];
    }
  }

  lemma {:induction false} InOfKind(samples: seq<Reply>, r: Reply, kind: Kind, q: nat)
    ensures r in OfKind(Instance(samples, q), kind) <==> r in samples && r.randomSeq == q && r.kind == kind
  {
    if samples != [] {
      InOfKind(samples[1..], r, kind, q);
      assert samples == [samples[0]] + samples[1..];
      if samples[0].randomSeq == q {
        assert Instance(samples, q)[1..] == Instance(samples[1..], q);
      }
    }
  }

  /** The state in which a call starts to wait. */
  function Waiting(samples: seq<Reply>, current: bool, start: int): WaitState {
    WaitState([], samples, current, start)
  }

  /** The waiting loop. The clock passes the timeout in the last poll, and numbers are chosen once. It fails exactly
      if more replies are kept than the list has room for. */
  method WaitForReplies(transport: Transport, replys: ReplyData, q: nat, idNum: nat, start: int, timeout: int,
          polls: seq<PollInput>)
    returns (ret: Result<int, Overflow>)
    requires replys.Valid() && replys.num == 0 && replys.list.Length == idNum
    requires polls != [] && polls[|polls| - 1].now - start > timeout
    requires forall i | 0 <= i < |polls| :: polls[i].later != Some(q)
    modifies replys`num, replys.list, replys.req`randomSeq, transport`samples
    ensures var w0 := Waiting(old(transport.samples), old(replys.req.randomSeq) == q, start);
      var w := Wait(w0, polls, replys.req.kind, q, idNum, start, timeout);
      && (ret.Err? <==> |w.got| > idNum)
      && (ret.Ok? ==>
            replys.Valid() && replys.list[..replys.num] == Entries(w.got) && transport.samples == w.samples)
  {
    hide Instance, Others, Kept, Arrivals, Entries, PollStep;
    ghost var kind := replys.req.kind;
    ghost var w := Waiting(transport.samples, replys.req.randomSeq == q, start);
    ghost var w0 := w;
    var i, now := 0, start;
    KeptNone(kind, true);
    while replys.num != idNum && now - start <= timeout
      invariant i <= |polls| && replys.Valid()
      invariant |w.got| == replys.num && replys.list[..replys.num] == Entries(w.got)
      invariant w.samples == transport.samples && w.now == now && w.current == (replys.req.randomSeq == q)
      invariant i == |polls| ==> now - start > timeout
      invariant Wait(w0, polls, kind, q, idNum, start, timeout) == Wait(w, polls[i..], kind, q, idNum, start, timeout)
      decreases |polls| - i
    {
      assert polls[i..][1..] == polls[i + 1..] && polls[i..][0] == polls[i];
      ret := PollOnce(transport, replys, q, w, polls[i]);
      w := PollStep(w, polls[i], kind, q);
      if ret.Err? {
        WaitGrows(w, polls[i + 1..], kind, q, idNum, start, timeout);
        return;
      }
      now, i := polls[i].now, i + 1;
    }
    ret := Ok(0);
  }

  /** One round of the waiting loop: another call may have overwritten the static request, and what arrived is
      drained. */
  method PollOnce(transport: Transport, replys: ReplyData, q: nat, ghost w: WaitState, p: PollInput)
    returns (ret: Result<int, Overflow>)
    requires replys.Valid() && |w.got| == replys.num && replys.list[..replys.num] == Entries(w.got)
    requires w.samples == transport.samples && w.current == (replys.req.randomSeq == q) && p.later != Some(q)
    modifies replys`num, replys.list, replys.req`randomSeq, transport`samples
    ensures var w' := PollStep(w, p, replys.req.kind, q);
      && (ret.Err? <==> |w'.got| > replys.list.Length)
      && (ret.Ok? ==>
            && replys.Valid() && |w'.got| == replys.num && replys.list[..replys.num] == Entries(w'.got)
            && w'.samples == transport.samples && w'.now == p.now && w'.current == (replys.req.randomSeq == q))
  {
    hide Kept, Instance, Others;
    if p.later.Some? {
      replys.req.randomSeq := p.later.value;
    }
    transport.samples := transport.samples + p.arrivals;
    ghost var taken := Kept(Instance(transport.samples, q), replys.req.kind, replys.req.randomSeq == q);
    ret := replys.TryRecvInstance(transport, q);
    assert Entries(w.got) + Entries(taken) == Entries(w.got + taken);
  }

  /** The exchange behind the three calls: fill the static request, sleep, write what it then holds, wait.
      `between` is what another call of the function fills in during the sleep. Returns the list and its counter
      as one sequence. */
  method Exchange(transport: Transport, shared: StaticRequest, req: Request, between: Option<Request>, start: int,
          timeout: int, polls: seq<PollInput>)
    returns (infos: Result<seq<DataInfo>, Overflow>)
    requires shared.kind == req.kind && (between.Some? ==> between.value.randomSeq != req.randomSeq)
    requires polls != [] && polls[|polls| - 1].now - start > timeout
    requires forall i | 0 <= i < |polls| :: polls[i].later != Some(req.randomSeq)
    modifies transport, shared
    ensures transport.requests == old(transport.requests) + [if between.Some? then between.value else req]
    ensures var w0 := Waiting(old(transport.samples), between.None?, start);
      var w := Wait(w0, polls, req.kind, req.randomSeq, |req.idList|, start, timeout);
      && (infos.Err? <==> |w.got| > |req.idList|)
      && (infos.Ok? ==> infos.value == Entries(w.got) && transport.samples == w.samples)
  {
    hide Wait;
    shared.randomSeq := req.randomSeq;
    var replys := new ReplyData(shared, |req.idList|);
    var written := req;
    if between.Some? {
      shared.randomSeq, written := between.value.randomSeq, between.value;
    }
    transport.Send(written);
    var ret := WaitForReplies(transport, replys, req.randomSeq, |req.idList|, start, timeout, polls);
    if ret.Err? {
      return Err(ret.error);
    }
    infos := Ok(replys.list[..replys.num]);
  }

  /** `datainfo_server_set_info`: the request carries the IDs and the '|'-joined value lists. */
  method SetInfo(transport: Transport, shared: StaticRequest, devs: seq<DataInfo>, q: nat, between: Option<Request>,
          start: int, timeout: int, polls: seq<PollInput>)
    returns (infos: Result<seq<DataInfo>, Overflow>)
    requires shared.kind == Set && (between.Some? ==> between.value.randomSeq != q)
    requires polls != [] && polls[|polls| - 1].now - start > timeout
    requires forall i | 0 <= i < |polls| :: polls[i].later != Some(q)
    modifies transport, shared
    ensures transport.requests == old(transport.requests)
      + [if between.Some? then between.value else Request(Ids(devs), Set, q, Message(Lists(devs)), [])]
    ensures var w0 := Waiting(old(transport.samples), between.None?, start);
      var w := Wait(w0, polls, Set, q, |devs|, start, timeout);
      && (infos.Err? <==> |w.got| > |devs|)
      && (infos.Ok? ==> infos.value == Entries(w.got) && transport.samples == w.samples)
  {
    var ids, buffer := Build(devs);
    infos := Exchange(transport, shared, Request(ids, Set, q, buffer, []), between, start, timeout, polls);
  }

  // ----- file transfer -----

  /** `g_file_transfer_stat` together with the registry and the transport it works on. */
  class FileTransfer {
    var running: bool
    var startTime: int
    var kind: Kind
    var randomSeq: nat
    var ids: seq<nat>
    var recvNum: nat
    const reg: DevList
    const transport: Transport

    ghost function View(): Stat
      reads this
    {
      Stat(running, startTime, kind, randomSeq, ids, recvNum)
    }

    /** `datainfo_server_init`. */
    constructor (reg: DevList, transport: Transport)
      ensures !running && recvNum == 0 && ids == [] && this.reg == reg && this.transport == transport
    {
      running, startTime, kind, randomSeq, ids, recvNum := false, 0, Get, 0, [], 0;
      this.reg, this.transport := reg, transport;
    }

    /** `recv_file_transfer_reply`. */
    method RecvFileTransferReply(r: Reply, m: Malloc) returns (ret: int)
      requires reg.Valid()
      modifies this`recvNum, reg, reg.nodes
      ensures reg.Valid() && reg.nodes == old(reg.nodes)
      ensures View() == AcceptStat(old(View()), r)
      ensures reg.contents == AcceptDevices(old(reg.contents), old(View()), r, m)
      ensures ret == if ForTransfer(old(View()), r) then 0 else -1
    {
      if r.kind != kind || r.randomSeq != randomSeq {
        return -1;
      }
      var _ := reg.SetStatusById(r.deviceID, StatusOf(r, m), ResultOf(r, m));
      recvNum := recvNum + 1;
      ret := 0;
    }

    /** `dds_transport_try_recv_instance` with `recv_file_transfer_reply`. */
    method TryRecvInstance(malloc: nat -> Malloc)
      requires reg.Valid()
      modifies this`recvNum, reg, reg.nodes, transport`samples
      ensures reg.Valid() && reg.nodes == old(reg.nodes)
      ensures (View(), reg.contents)
        == AcceptAll(old(View()), old(reg.contents), Instance(old(transport.samples), randomSeq), malloc, 0)
      ensures transport.samples == Others(old(transport.samples), randomSeq)
    {
      hide Instance, Others, AcceptStat, AcceptDevices;
      ghost var all, q := Instance(transport.samples, randomSeq), randomSeq;
      ghost var left := all;
      NothingLeft(transport.samples, q);
      var r := transport.TakeInstance(randomSeq);
      var k := 0;
      while r.Some?
        invariant reg.Valid() && reg.nodes == old(reg.nodes) && randomSeq == q
        invariant left == (if r.Some? then [r.value] else []) + Instance(transport.samples, q)
        invariant r.None? ==> Instance(transport.samples, q) == []
        invariant Others(transport.samples, q) == Others(old(transport.samples), q)
        invariant AcceptAll(old(View()), old(reg.contents), all, malloc, 0)
          == AcceptAll(View(), reg.contents, left, malloc, k)
        decreases r.Some?, |transport.samples|
      {
        assert left[0] == r.value && left[1..] == Instance(transport.samples, q);
        left := left[1..];
        var _ := RecvFileTransferReply(r.value, malloc(k));
        r := transport.TakeInstance(randomSeq);
        k := k + 1;
      }
      NothingLeft(transport.samples, q);
    }

    /** The first half of `datainfo_server_send_file` and `datainfo_server_recv_file`: refused while a transfer runs,
        else the function's static request is filled. */
    method Fill(shared: StaticRequest, req: Request) returns (ret: int)
      requires shared.kind == req.kind && (req.kind == Import || (req.kind == Export && |req.idList| == 1))
      modifies shared
      ensures ret == if running then -1 else 0
      ensures shared.randomSeq == if running then old(shared.randomSeq) else req.randomSeq
    {
      if running {
        return -1;
      }
      shared.randomSeq := req.randomSeq;
      ret := 0;
    }

    /** The second half, a second later: the static request is written as it then is, the call's own targets are
        marked, and the record starts with the number of the static request. */
    method Start(shared: StaticRequest, written: Request, targets: seq<nat>, now: int)
      requires reg.Valid() && written.kind == shared.kind && written.randomSeq == shared.randomSeq
      modifies this, reg, reg.nodes, transport
      ensures reg.Valid() && reg.nodes == old(reg.nodes)
      ensures View() == Stat(true, now, written.kind, written.randomSeq, targets, 0)
      ensures reg.contents == MarkRunning(old(reg.contents), targets)
      ensures transport.requests == old(transport.requests) + [written] && transport.samples == old(transport.samples)
    {
      hide SetStatus;
      transport.Send(written);
      for i := 0 to |targets|
        invariant reg.Valid() && reg.nodes == old(reg.nodes) && shared.randomSeq == old(shared.randomSeq)
        invariant MarkRunning(old(reg.contents), targets) == MarkRunning(reg.contents, targets[i..])
        invariant transport.requests == old(transport.requests) + [written]
        invariant transport.samples == old(transport.samples)
      {
        assert targets[i..][1..] == targets[i + 1..];
        var _ := reg.SetStatusById(targets[i], Running, EMPTY_RESULT);
      }
      running, recvNum, randomSeq, kind, ids, startTime := true, 0, shared.randomSeq, shared.kind, targets, now;
    }

    /** The timeout branch: every target that still reads RUNNING becomes AGENT_ERROR. */
    method SweepTargets()
      requires reg.Valid()
      modifies reg, reg.nodes
      ensures reg.Valid() && reg.nodes == old(reg.nodes)
      ensures reg.contents == Sweep(old(reg.contents), ids)
    {
      hide SetStatus, GetStatus;
      for i := 0 to |ids|
        invariant reg.Valid() && reg.nodes == old(reg.nodes)
        invariant Sweep(old(reg.contents), ids) == Sweep(reg.contents, ids[i..])
      {
        assert ids[i..][1..] == ids[i + 1..];
        var status, _ := reg.GetStatusById(ids[i]);
        if status == Running {
          var _ := reg.SetStatusById(ids[i], AgentError, EMPTY_RESULT);
        }
      }
    }

    /** The drain loop of a round: as many drains as replies are missing. The first one takes everything. */
    method DrainMissing(malloc: nat -> Malloc)
      requires reg.Valid()
      modifies this`recvNum, reg, reg.nodes, transport`samples
      ensures reg.Valid() && reg.nodes == old(reg.nodes)
      ensures recvNum >= old(recvNum)
      ensures var drains, pending := old(recvNum) < |ids|, Instance(old(transport.samples), randomSeq);
        && (View(), reg.contents)
           == (if drains then AcceptAll(old(View()), old(reg.contents), pending, malloc, 0)
               else (old(View()), old(reg.contents)))
        && transport.samples == if drains then Others(old(transport.samples), randomSeq) else old(transport.samples)
    {
      hide Instance, Others, AcceptAll;
      ghost var q, all := randomSeq, Instance(transport.samples, randomSeq);
      NothingLeft(transport.samples, q);
      NothingLeft(Others(transport.samples, q), q);
      AcceptNone(malloc);
      AcceptAllStat(View(), reg.contents, all, malloc, 0);
      var i := recvNum;
      while i < |ids|
        invariant old(recvNum) <= i && (i > old(recvNum) ==> old(recvNum) < |ids|)
        invariant reg.Valid() && reg.nodes == old(reg.nodes) && randomSeq == q && ids == old(ids)
        invariant i == old(recvNum) ==>
          View() == old(View()) && reg.contents == old(reg.contents) && transport.samples == old(transport.samples)
        invariant i > old(recvNum) ==>
          && (View(), reg.contents) == AcceptAll(old(View()), old(reg.contents), all, malloc, 0)
          && transport.samples == Others(old(transport.samples), q)
      {
        TryRecvInstance(malloc);
        i := i + 1;
      }
    }

    /** `dataserver_info_file_transfer_thread`: one round of the receive thread. */
    method Round(malloc: nat -> Malloc, now: int, timeout: int)
      requires reg.Valid()
      modifies this, reg, reg.nodes, transport`samples
      ensures reg.Valid() && reg.nodes == old(reg.nodes)
      ensures (View(), reg.contents, transport.samples)
        == Tick(old(View()), old(reg.contents), old(transport.samples), malloc, now, timeout)
    {
      hide AcceptAll, Sweep, Instance, Others;
      if running {
        AcceptAllStat(View(), reg.contents, Instance(transport.samples, randomSeq), malloc, 0);
        DrainMissing(malloc);
        if recvNum == |ids| {
          running := false;
        }
        if now - startTime > timeout {
          SweepTargets();
          running := false;
        }
        if !running {
          ids := [];
        }
      }
    }
  }

  lemma AcceptNone(malloc: nat -> Malloc)
    ensures forall x, ds :: AcceptAll(x, ds, [], malloc, 0) == (x, ds)
  {
  }
}
