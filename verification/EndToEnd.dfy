/** Whole calls: the server builds the message, the agents do what it asks and report, the server collects the
    reports, and the client decodes them. */
module EndToEnd {
  import opened Wrappers
  import opened CStrings
  import opened AgentTable
  import opened SetRequest
  import opened SetMessage
  import opened SetResult
  import GetReply
  import opened Messages
  import opened Transfer
  import opened Protocol
  import opened ProtocolInvariant
  import opened ProtocolTheorems
  import DataInfoServer
  import opened AgentRefinement

  /** The agents: each one's table, and how its set and get functions answer in an exchange. */
  datatype Agents = Agents(
    table: nat -> seq<Entry>,
    setFunction: (nat, nat) -> SetFunction,
    getFunction: (nat, nat) -> GetReply.GetFunction)

  /** What device `id` makes of a SET or SET_SAME_VALUE request. */
  function Applied(a: Agents, r: Request, id: nat): Result<Progress, Fault> {
    SetReply(r.msg, if r.kind == Set then IndexOf(r.idList, id) else None, a.table(id), a.setFunction(id, r.randomSeq))
  }

  /** What device `id` answers to a GET request. */
  function Read(a: Agents, r: Request, id: nat): string {
    GetReply.Reply(a.table(id), a.getFunction(id, r.randomSeq), r.msg)
  }

  /** The text is what device `id` replies to a GET or SET request. */
  predicate Says(a: Agents, r: Request, id: nat, msg: string) {
    match r.kind
    case Get => msg == Read(a, r, id)
    case Set => Applied(a, r, id).Ok? && msg == Applied(a, r, id).value.text
    case SetSameValue => Applied(a, r, id).Ok? && msg == Applied(a, r, id).value.text
    case _ => true
  }

  /** An agent that executes a request replies with what it did. */
  predicate Honest(a: Agents, s: Sys, e: Step)
    requires Enabled(s, e)
  {
    e.Execute? ==>
      var r := In(s, e.agent)[e.i];
      e.agent in r.idList ==> Says(a, r, e.agent, e.msg)
  }

  predicate HonestRun(a: Agents, s: Sys, run: seq<Step>)
    requires Valid(s, run)
    decreases |run|
  {
    run == [] || (Honest(a, s, run[0]) && HonestRun(a, Next(s, run[0]), run[1..]))
  }

  /** The reply reports what the device did. */
  predicate Reports(a: Agents, sent: map<nat, Request>, p: Reply) {
    p.randomSeq in sent ==> Says(a, sent[p.randomSeq], p.deviceID, p.msg)
  }

  predicate AllReport(a: Agents, sent: map<nat, Request>, ps: seq<Reply>) {
    forall i | 0 <= i < |ps| :: Reports(a, sent, ps[i])
  }

  ghost predicate ReportsSane(a: Agents, s: Sys) {
    AllReport(a, s.sent, s.net) && (forall id: nat :: AllReport(a, s.sent, Ring(s, id)))
    && forall q: nat :: AllReport(a, s.sent, Got(s, q))
  }

  /** A fresh request does not concern replies that answer earlier ones. */
  lemma SentGrows(a: Agents, sent: map<nat, Request>, r: Request, ps: seq<Reply>)
    requires AllReport(a, sent, ps) && r.randomSeq !in sent
    requires forall i | 0 <= i < |ps| :: Answers(sent, ps[i])
    ensures AllReport(a, sent[r.randomSeq := r], ps)
  {
    hide Says;
  }

  lemma FillReports(a: Agents, s: Sys, t: Sys, r: Request)
    requires MessagesSane(s) && ReportsSane(a, s) && r.randomSeq !in s.sent
    requires t.sent == s.sent[r.randomSeq := r] && t.net == s.net && t.ring == s.ring && t.got == s.got
    ensures ReportsSane(a, t)
  {
    hide AllReport;
    SentGrows(a, s.sent, r, s.net);
    forall id: nat ensures AllReport(a, t.sent, Ring(t, id)) { SentGrows(a, s.sent, r, Ring(s, id)); }
    forall q: nat ensures AllReport(a, t.sent, Got(t, q)) { SentGrows(a, s.sent, r, Got(s, q)); }
  }

  lemma ExecuteReports(a: Agents, s: Sys, id: nat, i: nat, msg: string, binary: seq<bv8>)
    requires MessagesSane(s) && ReportsSane(a, s) && i < |In(s, id)| && Honest(a, s, Execute(id, i, msg, binary))
    ensures ReportsSane(a, DoExecute(s, id, i, msg, binary))
  {
    var t, r := DoExecute(s, id, i, msg, binary), In(s, id)[i];
    assert s.sent[r.randomSeq] == r;
    hide Drop, Says;
    forall x: nat ensures AllReport(a, t.sent, Ring(t, x)) {
      assert AllReport(a, s.sent, Ring(s, x));
    }
    forall q: nat ensures AllReport(a, t.sent, Got(t, q)) { assert AllReport(a, s.sent, Got(s, q)); }
  }

  lemma SendReports(a: Agents, s: Sys, id: nat)
    requires ReportsSane(a, s) && Ring(s, id) != []
    ensures ReportsSane(a, DoSendReply(s, id))
  {
    var t := DoSendReply(s, id);
    hide Reports;
    assert AllReport(a, s.sent, Ring(s, id));
    forall x: nat ensures AllReport(a, t.sent, Ring(t, x)) { assert AllReport(a, s.sent, Ring(s, x)); }
    forall q: nat ensures AllReport(a, t.sent, Got(t, q)) { assert AllReport(a, s.sent, Got(s, q)); }
  }

  lemma TakeReports(a: Agents, s: Sys, t: Sys, q: nat, i: nat, ok: bool)
    requires ReportsSane(a, s) && i < |s.net|
    requires t.net == Drop(s.net, i) && t.got == Accepted(s, q, s.net[i], ok) && t.sent == s.sent && t.ring == s.ring
    ensures ReportsSane(a, t)
  {
    hide Reports;
    forall j | 0 <= j < |t.net| ensures Reports(a, t.sent, t.net[j]) {
      assert t.net[j] == s.net[if j < i then j else j + 1];
    }
    forall x: nat ensures AllReport(a, t.sent, Ring(t, x)) { assert AllReport(a, s.sent, Ring(s, x)); }
    forall x: nat ensures AllReport(a, t.sent, Got(t, x)) {
      assert AllReport(a, s.sent, Got(s, x));
      assert Reports(a, s.sent, s.net[i]);
    }
  }

  lemma SameReports(a: Agents, s: Sys, t: Sys)
    requires ReportsSane(a, s) && t.sent == s.sent && t.net == s.net && t.ring == s.ring && t.got == s.got
    ensures ReportsSane(a, t)
  {
    hide AllReport;
    forall x: nat ensures AllReport(a, t.sent, Ring(t, x)) { assert AllReport(a, s.sent, Ring(s, x)); }
    forall q: nat ensures AllReport(a, t.sent, Got(t, q)) { assert AllReport(a, s.sent, Got(s, q)); }
  }

  lemma StepReports(a: Agents, s: Sys, e: Step)
    requires Inv(s) && ReportsSane(a, s) && Enabled(s, e) && Honest(a, s, e)
    ensures ReportsSane(a, Next(s, e))
  {
    hide Honest, Reports, AllReport, Drop, StatusesSane, Bounded, ExchangesSane, DoBroadcast, OpenOf, Deliver;
    match e {
      case Fill(req) => FillReports(a, s, Next(s, e), req);
      case Broadcast(q, reach) => BroadcastFrame(s, q, reach); SameReports(a, s, Next(s, e));
      case Execute(id, i, msg, binary) => ExecuteReports(a, s, id, i, msg, binary);
      case SendReply(id) => SendReports(a, s, id);
      case Collect(q, i) => TakeReports(a, s, Next(s, e), q, i, s.net[i].kind == s.sent[q].kind && Current(s, q));
      case Poll(i, m) => TakeReports(a, s, Next(s, e), s.xfer.randomSeq, i, ForTransfer(s.xfer, s.net[i]));
      case _ => SameReports(a, s, Next(s, e));
    }
  }

  lemma {:induction false} RunReports(a: Agents, s: Sys, run: seq<Step>)
    requires Inv(s) && ReportsSane(a, s) && Valid(s, run) && HonestRun(a, s, run)
    ensures Inv(After(s, run)) && ReportsSane(a, After(s, run))
    decreases |run|
  {
    if run != [] {
      StepKeepsInv(s, run[0]);
      StepReports(a, s, run[0]);
      hide Inv, ReportsSane, Next, Enabled, Honest;
      RunReports(a, Next(s, run[0]), run[1..]);
    }
  }

  // ----- agents that work in rounds -----

  /** The executor answers the agent's requests as `SetMessage.HandleSet` and `GetReply.HandleGet` do. */
  ghost predicate Applies(a: Agents, me: nat, exec: ReplyRing.Executor, reqs: seq<Request>) {
    forall r <- reqs :: me in r.idList ==> forall k: nat :: Says(a, r, me, exec(k, r).0)
  }

  lemma {:induction false} ExecuteHonest(a: Agents, s: Sys, me: nat, exec: ReplyRing.Executor, k: nat)
    requires Applies(a, me, exec, In(s, me))
    ensures Valid(s, ExecuteSteps(me, In(s, me), exec, k)) && HonestRun(a, s, ExecuteSteps(me, In(s, me), exec, k))
    decreases |In(s, me)|
  {
    ExecuteRun(s, me, exec, k);
    var reqs, run := In(s, me), ExecuteSteps(me, In(s, me), exec, k);
    if reqs != [] {
      var k' := if ReplyRing.Addressed(me, reqs[0]) then k + 1 else k;
      var s' := Next(s, run[0]);
      assert Honest(a, s, run[0]);
      assert In(s', me) == reqs[1..] && Applies(a, me, exec, reqs[1..]);
      assert run[1..] == ExecuteSteps(me, In(s', me), exec, k');
      hide Says, DoExecute, In, Honest;
      ExecuteHonest(a, s', me, exec, k');
    }
  }

  lemma {:induction false} SendHonest(a: Agents, s: Sys, me: nat, n: nat)
    requires Valid(s, SendSteps(me, n))
    ensures HonestRun(a, s, SendSteps(me, n))
    decreases n
  {
    if n > 0 {
      assert SendSteps(me, n)[1..] == SendSteps(me, n - 1);
      SendHonest(a, DoSendReply(s, me), me, n - 1);
    }
  }

  lemma {:induction false} HonestConcat(a: Agents, s: Sys, x: seq<Step>, y: seq<Step>)
    requires Valid(s, x) && HonestRun(a, s, x) && Valid(After(s, x), y) && HonestRun(a, After(s, x), y)
    ensures Valid(s, x + y) && HonestRun(a, s, x + y)
    decreases |x|
  {
    if x == [] {
      assert x + y == y;
    } else {
      assert (x + y)[0] == x[0] && (x + y)[1..] == x[1..] + y;
      HonestConcat(a, Next(s, x[0]), x[1..], y);
    }
  }

  /** An update round of an agent that handles its requests is an honest run. */
  lemma UpdateHonest(a: Agents, s: Sys, me: nat, exec: ReplyRing.Executor)
    requires Ring(s, me) == [] && Applies(a, me, exec, In(s, me))
    ensures Valid(s, UpdateSteps(s, me, exec)) && HonestRun(a, s, UpdateSteps(s, me, exec))
  {
    hide In, ExecuteSteps, SendSteps, Applies;
    ExecuteHonest(a, s, me, exec, 0);
    ExecuteRun(s, me, exec, 0);
    var x := ExecuteSteps(me, In(s, me), exec, 0);
    var s1 := After(s, x);
    SendRun(s1, me);
    SendHonest(a, s1, me, |Ring(s1, me)|);
    HonestConcat(a, s, x, SendSteps(me, |Ring(s1, me)|));
  }

  // ----- what the client reads -----

  /** What the client decodes from an entry. */
  function Decoded(d: DataInfo): map<string, Value> {
    DecodeItems(map["deviceID" := Id(d.deviceID)], Split(d.valueList, ';'))
  }

  /** The entry decodes to the last result of each key that the device set from the value list: it made the calls
      for the pairs of the list, and the results are those of its set functions. */
  ghost predicate DecodesTo(a: Agents, d: DataInfo, q: nat, valueList: string) {
    AllWellFormed(Tokens(valueList, ';')) ==>
      exists calls :: CallsFor(a.table(d.deviceID), Tokens(valueList, ';'), calls)
        && Decoded(d) == LastResults(map["deviceID" := Id(d.deviceID)], Outcomes(a.setFunction(d.deviceID, q), calls))
  }

  /** The entry of a reply whose text fits. */
  predicate Fits(p: Reply) {
    |p.msg| <= DataInfoServer.CONFIG_KEY_STR_LEN
  }

  /** A reply that reports the application of a value list. */
  lemma ReportDecodes(a: Agents, p: Reply, q: nat, valueList: string)
    requires Fits(p) && AllWellFormed(Tokens(valueList, ';'))
    requires var f := a.setFunction(p.deviceID, q);
      p.msg == ApplyWords(a.table(p.deviceID), f, Tokens(valueList, ';'), Progress([], "")).text
    ensures DecodesTo(a, DataInfoServer.Entry(p), q, valueList)
  {
    hide Tokens, ApplySegment, ApplyWords, AllWellFormed, Split, LastResults, DecodeItems, CallsFor, Outcomes;
    SegmentCalls(a.table(p.deviceID), a.setFunction(p.deviceID, q), valueList, None);
    WellFormedSegment(a.table(p.deviceID), a.setFunction(p.deviceID, q), valueList, None, Progress([], ""));
    ClientSeesOutcomes(p.deviceID, a.table(p.deviceID), a.setFunction(p.deviceID, q), valueList, None);
  }

  // ----- SET -----

  function SetOf(devs: seq<DataInfo>, q: nat): Request {
    Request(Ids(devs), Set, q, Message(Lists(devs)), [])
  }

  /** One device of a SET request: if its list is the piece at its position, the client decodes the last result
      of each key in its own list. */
  lemma EntryDecodes(a: Agents, devs: seq<DataInfo>, q: nat, p: Reply)
    requires p.deviceID in Ids(devs) && OwnPiece(Lists(devs), IndexOf(Ids(devs), p.deviceID).value)
    ensures Fits(p) && Says(a, SetOf(devs, q), p.deviceID, p.msg) ==>
      DecodesTo(a, DataInfoServer.Entry(p), q, devs[IndexOf(Ids(devs), p.deviceID).value].valueList)
  {
    var i := IndexOf(Ids(devs), p.deviceID).value;
    var own := devs[i].valueList;
    hide Tokens, ApplyWords, AllWellFormed, Message, SetReply, OwnPiece, DecodesTo, IndexOf, Fits;
    if AllWellFormed(Tokens(own, ';')) {
      SetEndToEndCalls(devs, i, a.table(p.deviceID), a.setFunction(p.deviceID, q));
      if Fits(p) && Says(a, SetOf(devs, q), p.deviceID, p.msg) { ReportDecodes(a, p, q, own); }
    } else {
      NotWellFormed(a, DataInfoServer.Entry(p), q, own);
    }
  }

  lemma NotWellFormed(a: Agents, d: DataInfo, q: nat, valueList: string)
    ensures AllWellFormed(Tokens(valueList, ';')) || DecodesTo(a, d, q, valueList)
  {
  }

  /** The whole SET call: over every run in which agents reply with what they did, each entry whose device's
      list is the piece at its position and well formed is decoded to the last result of every key in that list;
      and if the call ends before its timeout, and no other call has got in its way, there is one entry for each
      device. */
  lemma SetCallDecodes(a: Agents, timeout: int, now: int, run: seq<Step>, devs: seq<DataInfo>, q: nat)
    requires Valid(Init(timeout, now), run) && HonestRun(a, Init(timeout, now), run)
    requires var s := After(Init(timeout, now), run); Enabled(s, Return(q)) && s.sent[q] == SetOf(devs, q)
    ensures var s := After(Init(timeout, now), run);
      && (s.now - s.calls[q] <= s.timeout && !Doubled(s, q) ==> multiset(Senders(Got(s, q))) == multiset(Ids(devs)))
      && forall p | p in Got(s, q) :: p.deviceID in Ids(devs)
           && var i := IndexOf(Ids(devs), p.deviceID).value;
             OwnPiece(Lists(devs), i) && Fits(p) ==> DecodesTo(a, DataInfoServer.Entry(p), q, devs[i].valueList)
  {
    var s := After(Init(timeout, now), run);
    CallReports(a, timeout, now, run, q);
    hide Says, DecodesTo, OwnPiece, Fits, HonestRun, After, Valid, IndexOf, Enabled, Message, Lists;
    forall p | p in Got(s, q) && OwnPiece(Lists(devs), IndexOf(Ids(devs), p.deviceID).value) && Fits(p)
      ensures DecodesTo(a, DataInfoServer.Entry(p), q, devs[IndexOf(Ids(devs), p.deviceID).value].valueList)
    {
      EntryDecodes(a, devs, q, p);
    }
  }

  /** What a call in an honest run has collected. */
  lemma CallReports(a: Agents, timeout: int, now: int, run: seq<Step>, q: nat)
    requires Valid(Init(timeout, now), run) && HonestRun(a, Init(timeout, now), run)
    requires Enabled(After(Init(timeout, now), run), Return(q))
    ensures var s := After(Init(timeout, now), run);
      var r := s.sent[q];
      && (s.now - s.calls[q] <= s.timeout && !Doubled(s, q) ==> multiset(Senders(Got(s, q))) == multiset(r.idList))
      && forall p | p in Got(s, q) :: p.deviceID in r.idList && Says(a, r, p.deviceID, p.msg)
  {
    InitInv(timeout, now);
    RunReports(a, Init(timeout, now), run);
    CallComplete(timeout, now, run, q);
    var s := After(Init(timeout, now), run);
    hide Inv, HonestRun, After, Valid, Says;
    forall p | p in Got(s, q) ensures p.deviceID in s.sent[q].idList && Says(a, s.sent[q], p.deviceID, p.msg) {
      assert AllReport(a, s.sent, Got(s, q)) && Answers(s.sent, p) && Reports(a, s.sent, p);
    }
  }

  // ----- SET_SAME_VALUE -----

  /** The whole SET_SAME_VALUE call: each entry is decoded to the last result of every key in the common value
      list. */
  lemma SameCallDecodes(a: Agents, timeout: int, now: int, run: seq<Step>, ids: seq<nat>, valueList: string, q: nat)
    requires Valid(Init(timeout, now), run) && HonestRun(a, Init(timeout, now), run)
    requires var s := After(Init(timeout, now), run);
      Enabled(s, Return(q)) && s.sent[q] == Request(ids, SetSameValue, q, valueList, [])
    ensures var s := After(Init(timeout, now), run);
      && (s.now - s.calls[q] <= s.timeout && !Doubled(s, q) ==> multiset(Senders(Got(s, q))) == multiset(ids))
      && forall p | p in Got(s, q) ::
           p.deviceID in ids && (Fits(p) ==> DecodesTo(a, DataInfoServer.Entry(p), q, valueList))
  {
    var s := After(Init(timeout, now), run);
    CallReports(a, timeout, now, run, q);
    hide DecodesTo, Fits, HonestRun, After, Valid, Enabled, ApplySegment, Tokens, AllWellFormed, ApplyWords;
    forall p | p in Got(s, q) && Fits(p) ensures DecodesTo(a, DataInfoServer.Entry(p), q, valueList) {
      if AllWellFormed(Tokens(valueList, ';')) {
        var f := a.setFunction(p.deviceID, q);
        WellFormedSegment(a.table(p.deviceID), f, valueList, None, Progress([], ""));
        ReportDecodes(a, p, q, valueList);
      } else {
        NotWellFormed(a, DataInfoServer.Entry(p), q, valueList);
      }
    }
  }

  // ----- GET -----

  /** The answers of a device to a key list. */
  function AnswersOf(a: Agents, id: nat, q: nat, keys: string): seq<GetReply.KeyValue> {
    GetReply.Answers(a.table(id), a.getFunction(id, q), [], Tokens(keys, ';'))
  }

  /** The requested keys that a device knows. */
  function KnownTo(a: Agents, id: nat, keys: string): seq<string> {
    GetReply.Known(a.table(id), Tokens(keys, ';'))
  }

  /** `key:value` for each answer, then the empty piece behind the last ';'. */
  function Items(kvs: seq<GetReply.KeyValue>): seq<string> {
    seq(|kvs|, i requires 0 <= i < |kvs| => kvs[i].0 + ":" + kvs[i].1) + [""]
  }

  /** The pieces of an entry are `items`; or the first of them, the last one perhaps in part, 4096 characters
      together, if the reply is longer. */
  predicate ShowsItems(d: DataInfo, p: Reply, items: seq<string>) {
    var pieces := Split(d.valueList, ';');
    && CutOf(pieces, items)
    && (if |p.msg| <= 4096 then pieces == items else Length(pieces) == 4096 + 1)
  }

  lemma EntryHolds(p: Reply, items: seq<string>)
    requires Split(p.msg, ';') == items
    ensures ShowsItems(DataInfoServer.Entry(p), p, items)
  {
    var n := if Fits(p) then |p.msg| else DataInfoServer.CONFIG_KEY_STR_LEN;
    assert DataInfoServer.Truncate(p.msg) == p.msg[..n];
    SplitCut(p.msg, n, ';');
    SplitLength(p.msg[..n], ';');
    hide Split, CutOf;
  }

  lemma AnswersByRow(a: Agents, id: nat, q: nat, keys: string)
    ensures var kvs, known := AnswersOf(a, id, q, keys), KnownTo(a, id, keys);
      && |kvs| == |known|
      && forall i | 0 <= i < |kvs| ::
           && kvs[i].0 == known[i]
           && GetReply.ValueByRow(a.table(id), a.getFunction(id, q), GetReply.WithGet(a.table(id), known[..i]), kvs[i])
  {
    hide Tokens, GetReply.Known, GetReply.Answers, GetReply.ValueByRow, GetReply.WithGet;
    GetReply.AnswersKeys(a.table(id), a.getFunction(id, q), [], Tokens(keys, ';'));
    GetReply.AnswersValues(a.table(id), a.getFunction(id, q), [], Tokens(keys, ';'));
    var known := KnownTo(a, id, keys);
    assert forall i | 0 <= i <= |known| ::
      [] + GetReply.WithGet(a.table(id), known[..i]) == GetReply.WithGet(a.table(id), known[..i]);
  }

  /** The whole GET call: each entry holds `key:value` for every requested key that its device knows, in request
      order, and nothing else, up to its 4096 characters. The value is that of the get function of the key's first
      row, or empty if that row has none. */
  lemma GetCallCollects(a: Agents, timeout: int, now: int, run: seq<Step>, ids: seq<nat>, keys: string, q: nat)
    requires Valid(Init(timeout, now), run) && HonestRun(a, Init(timeout, now), run)
    requires var s := After(Init(timeout, now), run);
      Enabled(s, Return(q)) && s.sent[q] == Request(ids, Get, q, keys, [])
    ensures var s := After(Init(timeout, now), run);
      && (s.now - s.calls[q] <= s.timeout && !Doubled(s, q) ==> multiset(Senders(Got(s, q))) == multiset(ids))
      && forall p | p in Got(s, q) ::
           && p.deviceID in ids
           && var kvs, known := AnswersOf(a, p.deviceID, q, keys), KnownTo(a, p.deviceID, keys);
             && |kvs| == |known|
             && (forall i | 0 <= i < |kvs| ::
                   && kvs[i].0 == known[i]
                   && GetReply.ValueByRow(a.table(p.deviceID), a.getFunction(p.deviceID, q),
                                          GetReply.WithGet(a.table(p.deviceID), known[..i]), kvs[i]))
             && (GetReply.PlainItems(kvs) ==> ShowsItems(DataInfoServer.Entry(p), p, Items(kvs)))
  {
    var s := After(Init(timeout, now), run);
    CallReports(a, timeout, now, run, q);
    hide HonestRun, After, Valid, Enabled, Tokens, Split, ShowsItems, GetReply.Known, GetReply.Answers, GetReply.Render;
    hide GetReply.ValueByRow, GetReply.WithGet;
    forall p | p in Got(s, q)
      ensures var kvs, known := AnswersOf(a, p.deviceID, q, keys), KnownTo(a, p.deviceID, keys);
        && |kvs| == |known|
        && (forall i | 0 <= i < |kvs| ::
              && kvs[i].0 == known[i]
              && GetReply.ValueByRow(a.table(p.deviceID), a.getFunction(p.deviceID, q),
                                     GetReply.WithGet(a.table(p.deviceID), known[..i]), kvs[i]))
        && (GetReply.PlainItems(kvs) ==> ShowsItems(DataInfoServer.Entry(p), p, Items(kvs)))
    {
      var kvs := AnswersOf(a, p.deviceID, q, keys);
      AnswersByRow(a, p.deviceID, q, keys);
      if GetReply.PlainItems(kvs) {
        GetReply.RenderSplits(kvs);
        EntryHolds(p, Items(kvs));
      }
    }
  }
}
