/** The server's life cycle: API calls that count themselves in, the file transfer, and the receive thread
    that stops the server, waits, and replaces the transport. Each step is atomic: the status test and the
    increment of an API entry, an exit, the start of a transfer, a round and an attempt of the receive thread. */
module Lifecycle {
  import opened Collections
  import opened Wrappers

  datatype Status = Stopped | Up

  /** A call in progress: the transport it was handed, by generation (None is NULL), and for
      `send_file`/`recv_file` whether it may still start a transfer. */
  datatype Call = Call(transport: Option<nat>, mayStart: bool)

  datatype TransferRun = NoTransfer | TransferRun(transport: Option<nat>, startTime: int)

  datatype Server = Server(
    timeout: int,
    now: int,
    status: Status,
    usingApi: int,
    transport: Option<nat>,   // generation of the current transport; None is NULL
    made: nat,                // transports made so far
    nextToken: nat,
    calls: map<nat, Call>,
    transfer: TransferRun,
    net: (string, string))    // g_rmt_runtime_cfg: interface and IP in use

  /** What the receive thread sees in one attempt: whether it looks for interface changes, the interface and
      IP it finds, and whether opening the domain and the transport would succeed. */
  datatype View = View(autoDetect: bool, interface: string, ip: string, domainOk: bool, transportOk: bool)

  datatype Step =
    | Advance(seconds: nat)
    | Enter(file: bool)
    | StartTransfer(token: nat)
    | Exit(token: nat)
    | Reinit                         // rmt_reinit_server
    | Round(replied: bool)           // file-transfer round: all targets replied?
    | Attempt(view: View)            // the second half of the receive loop

  /** `rmt_server_init` when the transport can be made. */
  function Init(timeout: int, now: int, net: (string, string)): Server {
    Server(timeout, now, Up, 0, Some(0), 1, 0, map[], NoTransfer, net)
  }

  predicate Enabled(s: Server, e: Step) {
    match e
    case StartTransfer(t) => t in s.calls && s.calls[t].mayStart
    case Exit(t) => t in s.calls
    case _ => true
  }

  /** An API entry: rejected unless the status is RUNNING. */
  function DoEnter(s: Server, file: bool): Server {
    if s.status != Up then s
    else
      s.(usingApi := s.usingApi + 1, nextToken := s.nextToken + 1,
         calls := s.calls[s.nextToken := Call(s.transport, file)])
  }

  /** The body of `send_file`/`recv_file`: refused while a transfer is running. */
  function DoStart(s: Server, t: nat): Server
    requires t in s.calls
  {
    var s' := s.(calls := s.calls[t := s.calls[t].(mayStart := false)]);
    if s.transfer.TransferRun? then s' else s'.(transfer := TransferRun(s.calls[t].transport, s.now))
  }

  /** The transfer ends when all targets replied or past its timeout. Without a transport nothing runs. */
  function DoRound(s: Server, replied: bool): Server {
    if s.transport.Some? && s.transfer.TransferRun? && (replied || s.now - s.transfer.startTime > s.timeout)
    then s.(transfer := NoTransfer)
    else s
  }

  /** Is a restart wanted? */
  predicate Wanted(s: Server, v: View) {
    (v.autoDetect || s.status == Stopped) && (v.interface != s.net.0 || v.ip != s.net.1 || s.status == Stopped)
  }

  /** Nothing is in the way of tearing down the transport. */
  predicate Idle(s: Server) {
    s.usingApi == 0 && s.transfer == NoTransfer
  }

  /** Stopped, with the transport torn down. */
  function Down(s: Server): Server {
    s.(status := Stopped, transport := None)
  }

  /** Opening the domain and making the transport, which takes more than a second, then starting. */
  function Open(s: Server, v: View): Server {
    if !v.domainOk || !v.transportOk then s
    else s.(transport := Some(s.made), made := s.made + 1, transfer := NoTransfer, net := (v.interface, v.ip),
            status := Up)
  }

  /** One attempt: stop, wait, tear down, open the domain, make the transport, start. */
  function DoAttempt(s: Server, v: View): Server {
    if !Wanted(s, v) then s
    else if !Idle(s) || v.interface == "" then s.(status := Stopped) else Open(Down(s), v)
  }

  function Next(s: Server, e: Step): Server
    requires Enabled(s, e)
  {
    match e
    case Advance(d) => s.(now := s.now + d)
    case Enter(file) => DoEnter(s, file)
    case StartTransfer(t) => DoStart(s, t)
    case Exit(t) => s.(usingApi := s.usingApi - 1, calls := s.calls - {t})
    case Reinit => s.(status := Stopped)
    case Round(replied) => DoRound(s, replied)
    case Attempt(v) => DoAttempt(s, v)
  }

  predicate Valid(s: Server, run: seq<Step>)
    decreases |run|
  {
    run == [] || (Enabled(s, run[0]) && Valid(Next(s, run[0]), run[1..]))
  }

  function After(s: Server, run: seq<Step>): Server
    requires Valid(s, run)
    decreases |run|
  {
    if run == [] then s else After(Next(s, run[0]), run[1..])
  }

  // ----- safety -----

  /** The counter counts the calls, RUNNING has a transport, and every call and the transfer use the current one. */
  predicate Inv(s: Server) {
    && s.usingApi == |s.calls|
    && (s.status == Up ==> s.transport.Some?)
    && (s.transport.Some? ==> s.transport.value < s.made)
    && (forall t | t in s.calls :: t < s.nextToken && s.calls[t].transport == s.transport && s.transport.Some?)
    && (s.transfer.TransferRun? ==> s.transfer.transport == s.transport && s.transport.Some?)
  }

  lemma EnterKeepsInv(s: Server, file: bool)
    requires Inv(s)
    ensures Inv(DoEnter(s, file))
  {
    assert s.nextToken !in s.calls;
  }

  lemma StartKeepsInv(s: Server, t: nat)
    requires Inv(s) && t in s.calls
    ensures Inv(DoStart(s, t))
  {
    assert s.calls[t := s.calls[t].(mayStart := false)].Keys == s.calls.Keys;
  }

  lemma ExitKeepsInv(s: Server, t: nat)
    requires Inv(s) && t in s.calls
    ensures Inv(Next(s, Exit(t)))
  {
    assert s.calls.Keys == (s.calls - {t}).Keys + {t};
  }

  lemma AttemptKeepsInv(s: Server, v: View)
    requires Inv(s)
    ensures Inv(DoAttempt(s, v))
  {
    if Idle(s) { assert s.calls == map[]; }
  }

  lemma StepKeepsInv(s: Server, e: Step)
    requires Inv(s) && Enabled(s, e)
    ensures Inv(Next(s, e))
  {
    match e {
      case Enter(file) => EnterKeepsInv(s, file);
      case StartTransfer(t) => StartKeepsInv(s, t);
      case Exit(t) => ExitKeepsInv(s, t);
      case Attempt(v) => AttemptKeepsInv(s, v);
      case _ =>
    }
  }

  lemma {:induction false} RunKeepsInv(s: Server, run: seq<Step>)
    requires Inv(s) && Valid(s, run)
    ensures Inv(After(s, run))
    decreases |run|
  {
    if run != [] {
      StepKeepsInv(s, run[0]);
      RunKeepsInv(Next(s, run[0]), run[1..]);
    }
  }

  /** In every reachable state the counter is the number of calls in progress, RUNNING has a transport, and
      every call and the transfer hold the current transport. */
  lemma ReachableSafe(timeout: int, now: int, net: (string, string), run: seq<Step>)
    requires Valid(Init(timeout, now, net), run)
    ensures Inv(After(Init(timeout, now, net), run))
  {
    RunKeepsInv(Init(timeout, now, net), run);
  }

  // ----- the start -----

  /** A number of attempts of the receive thread. */
  function Attempts(s: Server, vs: seq<View>): Server
    decreases |vs|
  {
    if vs == [] then s else Attempts(DoAttempt(s, vs[0]), vs[1..])
  }

  /** The attempt gets as far as tearing down the transport. */
  predicate Acts(s: Server, v: View) {
    Wanted(s, v) && Idle(s) && v.interface != ""
  }

  /** Whether the last attempt that acts makes a transport; None if no attempt acts. */
  function LastActing(s: Server, vs: seq<View>): Option<bool>
    decreases |vs|
  {
    if vs == [] then None
    else
      match LastActing(DoAttempt(s, vs[0]), vs[1..])
      case Some(b) => Some(b)
      case None => if Acts(s, vs[0]) then Some(vs[0].domainOk && vs[0].transportOk) else None
  }

  /** Nothing has been called yet. */
  predicate Untouched(s: Server) {
    && s.calls == map[] && s.usingApi == 0 && s.transfer == NoTransfer
    && (s.transport.Some? ==> s.transport.value < s.made)
  }

  lemma {:induction false} AttemptsLeave(s: Server, vs: seq<View>)
    requires Untouched(s)
    ensures var t := Attempts(s, vs);
      Untouched(t) && (t.transport.Some?
        <==> if LastActing(s, vs).Some? then LastActing(s, vs).value else s.transport.Some?)
    decreases |vs|
  {
    if vs != [] { AttemptsLeave(DoAttempt(s, vs[0]), vs[1..]); }
  }

  /** The start is not one step in the code: the receive thread runs before counter and status are set. Whatever
      attempts it makes in between, the server is sound afterwards exactly if no attempt acted or the last one
      that did succeeded; otherwise it is RUNNING without a transport. */
  lemma InitWindow(timeout: int, now: int, net: (string, string), vs: seq<View>)
    ensures var started := Init(timeout, now, net).(status := Stopped);
      Inv(Attempts(started, vs).(usingApi := 0, status := Up)) <==> LastActing(started, vs) != Some(false)
  {
    AttemptsLeave(Init(timeout, now, net).(status := Stopped), vs);
  }

  /** The status may also be set in the middle of an attempt, after the transport has been torn down. Until the attempt
      ends the server is RUNNING without a transport, and a call that gets in holds NULL; with nothing called, the
      server is sound when the attempt ends exactly if it succeeds. */
  lemma InitMidAttempt(timeout: int, now: int, net: (string, string), vs: seq<View>, v: View)
    requires Acts(Attempts(Init(timeout, now, net).(status := Stopped), vs), v)
    ensures var s := Attempts(Init(timeout, now, net).(status := Stopped), vs);
      var mid := Down(s).(usingApi := 0, status := Up);
      && !Inv(mid) && (Inv(Open(mid, v)) <==> v.domainOk && v.transportOk)
      && forall file :: mid.nextToken in DoEnter(mid, file).calls
                        && DoEnter(mid, file).calls[mid.nextToken].transport == None
  {
    AttemptsLeave(Init(timeout, now, net).(status := Stopped), vs);
  }

  /** A single attempt that finds an interface and cannot open the domain. */
  lemma FailedAttemptUnsound(timeout: int, now: int, net: (string, string))
    ensures var started := Init(timeout, now, net).(status := Stopped);
      !Inv(Attempts(started, [View(true, "eth0", "10.0.0.1", false, true)]).(usingApi := 0, status := Up))
  {
    var started, v := Init(timeout, now, net).(status := Stopped), View(true, "eth0", "10.0.0.1", false, true);
    assert [v][1..] == [] && LastActing(DoAttempt(started, v), []) == None && Acts(started, v);
    InitWindow(timeout, now, net, [v]);
  }

  /** Something is using the transport: a call or the transfer. */
  predicate Busy(s: Server) {
    s.calls != map[] || s.transfer.TransferRun?
  }

  lemma StepKeepsTransport(s: Server, e: Step)
    requires Inv(s) && Enabled(s, e) && Busy(s)
    ensures Next(s, e).transport == s.transport
  {
    if s.calls != map[] {
      var t :| t in s.calls;
      assert s.calls.Keys != {};
    }
  }

  /** The call `t` is in progress in every state of the run. */
  predicate CallLasts(s: Server, run: seq<Step>, t: nat)
    requires Valid(s, run)
    decreases |run|
  {
    t in s.calls && (run != [] ==> CallLasts(Next(s, run[0]), run[1..], t))
  }

  /** A transfer is running in every state of the run. */
  predicate TransferLasts(s: Server, run: seq<Step>)
    requires Valid(s, run)
    decreases |run|
  {
    s.transfer.TransferRun? && (run != [] ==> TransferLasts(Next(s, run[0]), run[1..]))
  }

  /** From its entry to its exit a call sees one and the same transport. */
  lemma {:induction false} CallSeesOneTransport(s: Server, run: seq<Step>, t: nat)
    requires Inv(s) && Valid(s, run) && CallLasts(s, run, t)
    ensures After(s, run).transport == s.transport == s.calls[t].transport && s.transport.Some?
    decreases |run|
  {
    if run != [] {
      StepKeepsInv(s, run[0]);
      StepKeepsTransport(s, run[0]);
      CallSeesOneTransport(Next(s, run[0]), run[1..], t);
    }
  }

  /** From its start to its end a file transfer sees one and the same transport. */
  lemma {:induction false} TransferSeesOneTransport(s: Server, run: seq<Step>)
    requires Inv(s) && Valid(s, run) && TransferLasts(s, run)
    ensures After(s, run).transport == s.transport == s.transfer.transport && s.transport.Some?
    ensures After(s, run).transfer == s.transfer
    decreases |run|
  {
    if run != [] {
      StepKeepsInv(s, run[0]);
      StepKeepsTransport(s, run[0]);
      TransferSeesOneTransport(Next(s, run[0]), run[1..]);
    }
  }

  /** The transport changes only in an attempt that finds no call and no transfer. */
  lemma TransportChangesWhenIdle(s: Server, e: Step)
    requires Inv(s) && Enabled(s, e) && Next(s, e).transport != s.transport
    ensures e.Attempt? && s.calls == map[] && s.transfer == NoTransfer && s.usingApi == 0
  {
    if Busy(s) { StepKeepsTransport(s, e); }
  }

  // ----- what the steps do -----

  /** An attempt of the receive thread while the server is up. If it looks for changes and finds another interface or
      IP, it stops the server; with a call or a transfer in progress, or no interface, the transport stays and the next
      call is refused; otherwise the transport is replaced, or, if that fails, gone. In all other cases nothing
      changes. */
  lemma AttemptWhileUp(s: Server, v: View, file: bool)
    requires Inv(s) && s.status == Up
    ensures var t := DoAttempt(s, v);
      var changed := v.autoDetect && (v.interface != s.net.0 || v.ip != s.net.1);
      var busy := s.usingApi != 0 || s.transfer != NoTransfer || v.interface == "";
      && (!changed ==> t == s)
      && (changed && busy ==> t == s.(status := Stopped) && DoEnter(t, file) == t)
      && (changed && !busy && v.domainOk && v.transportOk ==>
            && t.status == Up && t.transport == Some(s.made) && t.made == s.made + 1
            && t.net == (v.interface, v.ip) && t.calls == s.calls && t.transfer == NoTransfer)
      && (changed && !busy && !(v.domainOk && v.transportOk) ==>
            t == s.(status := Stopped, transport := None) && DoEnter(t, file) == t)
  {
  }

  /** An attempt while the server is stopped: it tries whatever the interface is, with or without looking for
      changes. */
  lemma AttemptWhileStopped(s: Server, v: View)
    requires Inv(s) && s.status == Stopped
    ensures var t := DoAttempt(s, v);
      var busy := s.usingApi != 0 || s.transfer != NoTransfer || v.interface == "";
      && (busy ==> t == s)
      && (!busy && v.domainOk && v.transportOk ==>
            && t.status == Up && t.transport == Some(s.made) && t.made == s.made + 1
            && t.net == (v.interface, v.ip) && t.calls == s.calls && t.transfer == NoTransfer)
      && (!busy && !(v.domainOk && v.transportOk) ==> t == s.(transport := None))
  {
  }

  /** A request to start again only stops the server, and the clock only moves on. */
  lemma ReinitStops(s: Server, d: nat)
    ensures Next(s, Reinit) == s.(status := Stopped) && Next(s, Advance(d)) == s.(now := s.now + d)
  {
  }

  /** A round of the file transfer ends it exactly if there is a transport, a transfer, and all targets replied or
      its time is up; nothing else changes. */
  lemma RoundEndsTransfer(s: Server, replied: bool)
    ensures var t := DoRound(s, replied);
      && t == s.(transfer := t.transfer) && (t.transfer == s.transfer || t.transfer == NoTransfer)
      && (s.transfer.TransferRun? ==>
            (t.transfer == NoTransfer <==>
               s.transport.Some? && (replied || s.now - s.transfer.startTime > s.timeout)))
  {
  }

  /** A call that starts a transfer: refused while one runs; otherwise it runs from now on, on the call's transport. A
      call starts at most one, and nothing else changes. */
  lemma StartOnce(s: Server, c: nat)
    requires c in s.calls
    ensures var t := DoStart(s, c);
      && t == s.(calls := t.calls, transfer := t.transfer)
      && t.calls.Keys == s.calls.Keys && (forall x | x in s.calls && x != c :: t.calls[x] == s.calls[x])
      && t.calls[c].transport == s.calls[c].transport && !t.calls[c].mayStart
      && (s.transfer != NoTransfer ==> t.transfer == s.transfer)
      && (s.transfer == NoTransfer ==> t.transfer == TransferRun(s.calls[c].transport, s.now))
  {
  }

  /** A call gets in exactly if the server is up; it is counted, and holds the transport of that moment until it leaves,
      which counts it out. */
  lemma EntryAndExit(s: Server, file: bool)
    requires Inv(s)
    ensures var t := DoEnter(s, file);
      && (s.status == Stopped ==> t == s)
      && (s.status == Up ==>
            && s.nextToken !in s.calls && s.nextToken in t.calls && t.calls.Keys == s.calls.Keys + {s.nextToken}
            && t.calls[s.nextToken] == Call(s.transport, file) && t.usingApi == s.usingApi + 1
            && (forall x | x in s.calls :: t.calls[x] == s.calls[x])
            && Next(t, Exit(s.nextToken)) == s.(nextToken := t.nextToken))
  {
    if s.status == Up {
      assert DoEnter(s, file).calls - {s.nextToken} == s.calls;
    }
  }

  // ----- progress -----

  /** Calls that may still start a transfer. */
  function Openers(s: Server): set<nat> {
    set t | t in s.calls && s.calls[t].mayStart
  }

  /** What still has to end before a restart: calls, transfers they may start, and the running transfer. */
  function Measure(s: Server): nat {
    |s.calls.Keys| + |Openers(s)| + if s.transfer.TransferRun? then 1 else 0
  }

  /** While the server is stopped no call gets in, and the measure never grows; it drops with every exit and
      at the end of a transfer. Only a successful attempt, which needs measure zero, starts the server. */
  lemma StoppedStep(s: Server, e: Step)
    requires Inv(s) && Enabled(s, e) && s.status == Stopped
    ensures var s' := Next(s, e);
      && s'.calls.Keys <= s.calls.Keys
      && Measure(s') <= Measure(s)
      && (e.Exit? ==> Measure(s') < Measure(s))
      && (s.transfer.TransferRun? && s'.transfer == NoTransfer ==> Measure(s') < Measure(s))
      && (s'.status == Up ==> e.Attempt? && Measure(s) == 0)
  {
    match e {
      case StartTransfer(t) => StartMeasure(s, t);
      case Exit(t) => ExitMeasure(s, t);
      case Attempt(v) =>
        if Idle(s) { assert s.calls.Keys == {} && Openers(s) == {}; }
      case _ =>
    }
  }

  /** A call that starts a transfer hands its weight over to it. */
  lemma StartMeasure(s: Server, t: nat)
    requires t in s.calls && s.calls[t].mayStart
    ensures DoStart(s, t).calls.Keys == s.calls.Keys && Measure(DoStart(s, t)) <= Measure(s)
  {
    var s' := DoStart(s, t);
    assert Openers(s) == Openers(s') + {t} && t !in Openers(s');
    assert s'.calls.Keys == s.calls.Keys;
    hide DoStart, Openers;
  }

  lemma ExitMeasure(s: Server, t: nat)
    requires t in s.calls
    ensures var s' := Next(s, Exit(t)); s'.calls.Keys <= s.calls.Keys && Measure(s') < Measure(s)
  {
    var s' := Next(s, Exit(t));
    assert s.calls.Keys == s'.calls.Keys + {t} && t !in s'.calls.Keys;
    SubsetSize(Openers(s'), Openers(s));
    hide Openers;
  }

  /** The server is stopped in every state of the run but perhaps the last. */
  predicate StaysStopped(s: Server, run: seq<Step>)
    requires Valid(s, run)
    decreases |run|
  {
    s.status == Stopped && (run != [] ==> StaysStopped(Next(s, run[0]), run[1..]))
  }

  /** Exits and transfer ends along a run. */
  function Ends(s: Server, run: seq<Step>): nat
    requires Valid(s, run)
    decreases |run|
  {
    if run == [] then 0
    else
      var s' := Next(s, run[0]);
      (if run[0].Exit? || (s.transfer.TransferRun? && s'.transfer == NoTransfer) then 1 else 0) + Ends(s', run[1..])
  }

  /** A stopped server lets no new call in, and waits for at most `Measure` exits and transfer ends. */
  lemma {:induction false} StoppedRun(s: Server, run: seq<Step>)
    requires Inv(s) && Valid(s, run) && StaysStopped(s, run)
    ensures var s' := After(s, run);
      Inv(s') && s'.calls.Keys <= s.calls.Keys && Measure(s') + Ends(s, run) <= Measure(s) && s'.status == Stopped
    decreases |run|
  {
    if run != [] {
      StepKeepsInv(s, run[0]);
      StoppedStep(s, run[0]);
      StoppedRun(Next(s, run[0]), run[1..]);
    }
  }

  /** Progress: once every call that was in progress has returned and a round finds the clock past the
      transfer's timeout, nothing is in the way; an attempt that finds an interface and a working network
      then brings the server up on a new transport. */
  lemma ReinitProgress(s: Server, run: seq<Step>, replied: bool, v: View)
    requires Inv(s) && Valid(s, run) && StaysStopped(s, run)
    requires forall t | t in s.calls :: t !in After(s, run).calls
    requires var s1 := After(s, run); s1.transfer.TransferRun? ==>
      replied || s1.now - s1.transfer.startTime > s1.timeout
    requires v.interface != "" && v.domainOk && v.transportOk
    ensures var s1 := After(s, run);
      var s2 := Next(s1, Round(replied));
      var s3 := Next(s2, Attempt(v));
      Idle(s2) && s3.status == Up && s3.transport == Some(s.made) && s3.made == s.made + 1
  {
    StoppedRun(s, run);
    MadeUnchanged(s, run);
    var s1 := After(s, run);
    assert s1.calls.Keys == {};
  }

  /** While the server is stopped no transport is made. */
  lemma {:induction false} MadeUnchanged(s: Server, run: seq<Step>)
    requires Inv(s) && Valid(s, run) && StaysStopped(s, run)
    ensures After(s, run).made == s.made
    decreases |run|
  {
    if run != [] {
      StepKeepsInv(s, run[0]);
      MadeUnchanged(Next(s, run[0]), run[1..]);
    }
  }

  // ----- the server object -----

  /** `g_svr_info` with the state of the file transfer and the network in use. */
  class ServerInfo {
    const timeout: int
    var now: int
    var status: Status
    var usingApi: int
    var transport: Option<nat>
    var made: nat
    var nextToken: nat
    var calls: map<nat, Call>
    var transfer: TransferRun
    var net: (string, string)

    ghost function Abs(): Server
      reads this
    {
      Server(timeout, now, status, usingApi, transport, made, nextToken, calls, transfer, net)
    }

    /** `rmt_server_init`. */
    constructor (timeout: int, now: int, net: (string, string))
      ensures Abs() == Init(timeout, now, net) && Inv(Abs())
      ensures status == Up && usingApi == 0 && calls == map[] && transfer == NoTransfer && this.net == net
    {
      this.timeout, this.now, this.net := timeout, now, net;
      status, usingApi, transport, made, nextToken := Up, 0, Some(0), 1, 0;
      calls, transfer := map[], NoTransfer;
    }

    /** The guard of every API entry. */
    method Enter(file: bool) returns (token: Option<nat>)
      requires Inv(Abs())
      modifies this
      ensures Abs() == DoEnter(old(Abs()), file) && Inv(Abs())
      ensures token.Some? <==> old(status) == Up
      ensures token.Some? ==> token.value in calls
    {
      StepKeepsInv(Abs(), Step.Enter(file));
      if status != Up {
        return None;
      }
      usingApi := usingApi + 1;
      calls := calls[nextToken := Call(transport, file)];
      token := Some(nextToken);
      nextToken := nextToken + 1;
    }

    /** The end of every API entry. */
    method Exit(t: nat)
      requires Inv(Abs()) && t in calls
      modifies this`usingApi, this`calls
      ensures Abs() == Next(old(Abs()), Step.Exit(t)) && Inv(Abs())
    {
      StepKeepsInv(Abs(), Step.Exit(t));
      usingApi := usingApi - 1;
      calls := calls - {t};
    }

    /** The body of `rmt_server_send_file` and `rmt_server_recv_file`. */
    method StartTransfer(t: nat) returns (ret: int)
      requires Inv(Abs()) && t in calls && calls[t].mayStart
      modifies this`calls, this`transfer
      ensures Abs() == DoStart(old(Abs()), t) && Inv(Abs())
      ensures ret == if old(transfer) == NoTransfer then 0 else -1
    {
      StepKeepsInv(Abs(), Step.StartTransfer(t));
      var call := calls[t];
      calls := calls[t := call.(mayStart := false)];
      if transfer != NoTransfer {
        return -1;
      }
      transfer := TransferRun(call.transport, now);
      ret := 0;
    }

    /** `rmt_reinit_server`. */
    method RequestReinit()
      requires Inv(Abs())
      modifies this`status
      ensures Abs() == Next(old(Abs()), Step.Reinit) && Inv(Abs())
    {
      status := Stopped;
    }

    /** The file-transfer round of the receive loop, if there is a transport. */
    method TransferRound(replied: bool)
      requires Inv(Abs())
      modifies this`transfer
      ensures Abs() == DoRound(old(Abs()), replied) && Inv(Abs())
    {
      StepKeepsInv(Abs(), Step.Round(replied));
      if transport.Some? {
        if transfer.TransferRun? && (replied || now - transfer.startTime > timeout) {
          transfer := NoTransfer;
        }
      }
    }

    /** The interface check of the receive loop: if a restart is wanted, stop; if nothing is in the way, tear
        down, open the domain, make the transport and start. */
    method CheckInterface(v: View)
      requires Inv(Abs())
      modifies this
      ensures Abs() == DoAttempt(old(Abs()), v) && Inv(Abs())
    {
      StepKeepsInv(Abs(), Step.Attempt(v));
      if v.autoDetect || status == Stopped {
        if v.interface != net.0 || v.ip != net.1 || status == Stopped {
          if status == Up {
            status := Stopped;
          }
          if usingApi != 0 || transfer != NoTransfer {
            return;
          }
          if |v.interface| == 0 {
            return;
          }
          if transport.Some? {
            transport := None;
          }
          if !v.domainOk {
            return;
          }
          transport := if v.transportOk then Some(made) else None;
          if transport.None? {
            return;
          }
          made := made + 1;
          transfer := NoTransfer;
          net := (v.interface, v.ip);
          status := Up;
        }
      }
    }

    /** One turn of `recv_thread_func`. */
    method Turn(replied: bool, v: View)
      requires Inv(Abs())
      modifies this
      ensures Abs() == DoAttempt(DoRound(old(Abs()), replied), v) && Inv(Abs())
    {
      hide DoRound, DoAttempt, Inv;
      TransferRound(replied);
      CheckInterface(v);
    }
  }
}
