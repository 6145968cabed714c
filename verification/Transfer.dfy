/** The file-transfer record of the server as a value: start, reply, poll and timeout. */
module Transfer {
  import opened Wrappers
  import opened Decimal
  import opened Messages
  import opened Devices

  /** `g_file_transfer_stat`. */
  datatype Stat = Stat(running: bool, startTime: int, kind: Kind, randomSeq: nat, ids: seq<nat>, recvNum: nat)

  /** What malloc gives while a reply is handled: success, and the bytes of the length field it leaves unset
      on failure. */
  datatype Malloc = Malloc(ok: bool, junkLen: nat)

  function StatusOf(r: Reply, m: Malloc): TransferStatus {
    if r.kind == Export && !m.ok then ServerError else Done
  }

  function ResultOf(r: Reply, m: Malloc): TransferResult {
    if r.kind != Export then TransferResult(Atoi(r.msg), None, 0)
    else if m.ok then TransferResult(Atoi(r.msg), Some(r.binary), |r.binary|)
    else TransferResult(Atoi(r.msg), None, m.junkLen)
  }

  predicate ForTransfer(x: Stat, r: Reply) {
    r.kind == x.kind && r.randomSeq == x.randomSeq
  }

  /** Marking the targets of a new transfer. */
  function MarkRunning(ds: seq<Device>, ids: seq<nat>): seq<Device>
    decreases |ids|
  {
    if ids == [] then ds else MarkRunning(SetStatus(ds, ids[0], Running, EMPTY_RESULT), ids[1..])
  }

  /** `recv_file_transfer_reply` on the registry and the record. */
  function AcceptDevices(ds: seq<Device>, x: Stat, r: Reply, m: Malloc): seq<Device> {
    if ForTransfer(x, r) then SetStatus(ds, r.deviceID, StatusOf(r, m), ResultOf(r, m)) else ds
  }

  function AcceptStat(x: Stat, r: Reply): Stat {
    if ForTransfer(x, r) then x.(recvNum := x.recvNum + 1) else x
  }

  /** Timing out: every target that still reads RUNNING becomes AGENT_ERROR. */
  function Sweep(ds: seq<Device>, ids: seq<nat>): seq<Device>
    decreases |ids|
  {
    if ids == [] then ds
    else
      var ds' := if GetStatus(ds, ids[0]).0 == Running then SetStatus(ds, ids[0], AgentError, EMPTY_RESULT) else ds;
      Sweep(ds', ids[1..])
  }

  /** Draining replies `rs`; the k-th one taken finds malloc in state `malloc(k)`. */
  function AcceptAll(x: Stat, ds: seq<Device>, rs: seq<Reply>, malloc: nat -> Malloc, k: nat): (Stat, seq<Device>)
    decreases |rs|
  {
    if rs == [] then (x, ds)
    else AcceptAll(AcceptStat(x, rs[0]), AcceptDevices(ds, x, rs[0], malloc(k)), rs[1..], malloc, k + 1)
  }

  /** One round of the receive thread: drain, test for completion, test for the timeout, clear. */
  function Tick(x: Stat, ds: seq<Device>, samples: seq<Reply>, malloc: nat -> Malloc, now: int, timeout: int)
    : (Stat, seq<Device>, seq<Reply>)
  {
    if !x.running then (x, ds, samples)
    else
      var drains := x.recvNum < |x.ids|;
      var (x1, ds1) := if drains then AcceptAll(x, ds, Instance(samples, x.randomSeq), malloc, 0) else (x, ds);
      var late := now - x.startTime > timeout;
      (if late || x1.recvNum == |x.ids| then x1.(running := false, ids := []) else x1,
       if late then Sweep(ds1, x.ids) else ds1,
       if drains then Others(samples, x.randomSeq) else samples)
  }

  // ----- one reply -----

  /** The outcome that a reply stands for: an IMPORT is done; an EXPORT is done with the file if malloc gives room for
      it, and otherwise a server error without a file. The code is the one printed in the reply. */
  predicate OutcomeOf(r: Reply, m: Malloc, st: TransferStatus, res: TransferResult) {
    && res.code == Atoi(r.msg)
    && (r.kind == Import ==> st == Done && res.file == None && res.fileLen == 0)
    && (r.kind == Export && m.ok ==> st == Done && res.file == Some(r.binary) && res.fileLen == |r.binary|)
    && (r.kind == Export && !m.ok ==> st == ServerError && res.file == None)
  }

  /** A reply of the running transfer sets its device's status and result to its outcome and counts one. */
  lemma ReplyOutcome(ds: seq<Device>, x: Stat, r: Reply, m: Malloc)
    requires r.kind == x.kind && r.randomSeq == x.randomSeq && (r.kind == Import || r.kind == Export)
    ensures AcceptStat(x, r) == x.(recvNum := x.recvNum + 1)
    ensures var (st, res) := GetStatus(AcceptDevices(ds, x, r, m), r.deviceID);
      Registered(ds, r.deviceID) ==>
        && res.code == Atoi(r.msg)
        && (r.kind == Import ==> st == Done && res.file == None && res.fileLen == 0)
        && (r.kind == Export && m.ok ==> st == Done && res.file == Some(r.binary) && res.fileLen == |r.binary|)
        && (r.kind == Export && !m.ok ==> st == ServerError && res.file == None)
  {
    StatusAfterSet(ds, r.deviceID, StatusOf(r, m), ResultOf(r, m), r.deviceID);
  }

  /** A reply of another kind or number changes nothing, and no reply changes another device. */
  lemma OtherReply(ds: seq<Device>, x: Stat, r: Reply, m: Malloc, id: nat)
    ensures r.kind != x.kind || r.randomSeq != x.randomSeq ==> AcceptStat(x, r) == x && AcceptDevices(ds, x, r, m) == ds
    ensures id != r.deviceID ==> GetStatus(AcceptDevices(ds, x, r, m), id) == GetStatus(ds, id)
    ensures Registered(AcceptDevices(ds, x, r, m), id) == Registered(ds, id)
  {
    StatusAfterSet(ds, r.deviceID, StatusOf(r, m), ResultOf(r, m), id);
  }

  // ----- lookups after updates -----

  lemma StatusAfterSet(ds: seq<Device>, id: nat, st: TransferStatus, res: TransferResult, x: nat)
    ensures var ds' := SetStatus(ds, id, st, res);
      && Registered(ds', x) == Registered(ds, x)
      && GetStatus(ds', x) == if x == id && Registered(ds, id) then (st, res) else GetStatus(ds, x)
  {
    if Find(ds, id).Some? {
      FindAfterUpdate(ds, Find(ds, id).value, ds[Find(ds, id).value].(status := st, result := res), x);
    }
  }

  lemma {:induction false} StatusAfterMark(ds: seq<Device>, ids: seq<nat>, x: nat)
    ensures var ds' := MarkRunning(ds, ids);
      && Registered(ds', x) == Registered(ds, x)
      && GetStatus(ds', x) ==
           if x in ids && Registered(ds, x) then (Running, TransferResult(0, None, 0)) else GetStatus(ds, x)
    decreases |ids|
  {
    if ids != [] {
      hide Registered, GetStatus, SetStatus;
      StatusAfterSet(ds, ids[0], Running, EMPTY_RESULT, x);
      StatusAfterMark(SetStatus(ds, ids[0], Running, EMPTY_RESULT), ids[1..], x);
    }
  }

  /** The sweep turns exactly the running targets into AGENT_ERROR, whatever the ID list and the registry. */
  lemma {:induction false} StatusAfterSweep(ds: seq<Device>, ids: seq<nat>, x: nat)
    ensures var ds' := Sweep(ds, ids);
      && Registered(ds', x) == Registered(ds, x)
      && GetStatus(ds', x) ==
        if x in ids && GetStatus(ds, x).0 == Running then (AgentError, TransferResult(0, None, 0)) else GetStatus(ds, x)
    decreases |ids|
  {
    if ids != [] {
      var running := GetStatus(ds, ids[0]).0 == Running;
      assert running ==> Registered(ds, ids[0]);
      StatusAfterSet(ds, ids[0], AgentError, EMPTY_RESULT, x);
      hide Registered, GetStatus, SetStatus;
      StatusAfterSweep(if running then SetStatus(ds, ids[0], AgentError, EMPTY_RESULT) else ds, ids[1..], x);
    }
  }

  lemma {:induction false} MarkUnique(ds: seq<Device>, ids: seq<nat>)
    requires Unique(ds)
    ensures Unique(MarkRunning(ds, ids))
    decreases |ids|
  {
    if ids != [] {
      SetStatusCommutes(ds, ids[0], Running, EMPTY_RESULT);
      hide Unique, SetStatus;
      MarkUnique(SetStatus(ds, ids[0], Running, EMPTY_RESULT), ids[1..]);
    }
  }

  lemma {:induction false} SweepUnique(ds: seq<Device>, ids: seq<nat>)
    requires Unique(ds)
    ensures Unique(Sweep(ds, ids))
    decreases |ids|
  {
    if ids != [] {
      SetStatusCommutes(ds, ids[0], AgentError, EMPTY_RESULT);
      hide Unique, SetStatus, GetStatus;
      var running := GetStatus(ds, ids[0]).0 == Running;
      SweepUnique(if running then SetStatus(ds, ids[0], AgentError, EMPTY_RESULT) else ds, ids[1..]);
    }
  }

  /** An announcement keeps every transfer status of a registered device. */
  lemma StatusAfterAdd(ds: seq<Device>, info: Info, handle: nat, junk: (TransferStatus, TransferResult), x: nat)
    requires Registered(ds, x)
    ensures Registered(Add(ds, info, handle, junk), x) && GetStatus(Add(ds, info, handle, junk), x) == GetStatus(ds, x)
  {
    match Find(ds, info.deviceID)
    case Some(i) => FindAfterUpdate(ds, i, ds[i].(info := info, handle := handle), x);
    case None =>
      var d := Device(info, junk.0, junk.1, handle);
      assert ([d] + ds)[1..] == ds;
  }

  /** A loss keeps the transfer status of every device that stays registered, and registers none. */
  lemma StatusAfterRemove(ds: seq<Device>, sel: Selector, x: nat)
    requires Unique(ds)
    ensures Registered(RemoveFirst(ds, sel), x) ==> Registered(ds, x)
    ensures Registered(RemoveFirst(ds, sel), x) ==> GetStatus(RemoveFirst(ds, sel), x) == GetStatus(ds, x)
  {
    hide Unique, Find, MatchIndex, Matches;
    if MatchIndex(ds, sel).Some? {
      FindAfterRemove(ds, MatchIndex(ds, sel).value, x);
    }
  }

  // ----- one round -----

  /** Draining changes only the counter of the record, which grows, and the registry. */
  lemma {:induction false} AcceptAllStat(x: Stat, ds: seq<Device>, rs: seq<Reply>, malloc: nat -> Malloc, k: nat)
    ensures AcceptAll(x, ds, rs, malloc, k).0.(recvNum := x.recvNum) == x
    ensures AcceptAll(x, ds, rs, malloc, k).0.recvNum >= x.recvNum
    decreases |rs|
  {
    if rs != [] {
      AcceptAllStat(AcceptStat(x, rs[0]), AcceptDevices(ds, x, rs[0], malloc(k)), rs[1..], malloc, k + 1);
    }
  }

  /** A device none of whose replies is drained keeps its status; any other one keeps it or reads DONE or
      SERVER_ERROR. */
  lemma {:induction false} AcceptAllStatus(x: Stat, ds: seq<Device>, rs: seq<Reply>, malloc: nat -> Malloc,
          k: nat, id: nat)
    ensures var after := GetStatus(AcceptAll(x, ds, rs, malloc, k).1, id);
      && (after == GetStatus(ds, id) || after.0 == Done || after.0 == ServerError)
      && ((forall r | r in rs :: r.deviceID != id || !ForTransfer(x, r)) ==> after == GetStatus(ds, id))
    decreases |rs|
  {
    if rs != [] {
      var r := rs[0];
      StatusAfterSet(ds, r.deviceID, StatusOf(r, malloc(k)), ResultOf(r, malloc(k)), id);
      hide GetStatus, SetStatus, ResultOf;
      AcceptAllStatus(AcceptStat(x, r), AcceptDevices(ds, x, r, malloc(k)), rs[1..], malloc, k + 1, id);
    }
  }

  /** Any round past the timeout, with any ID list, registry and pending replies: the transfer is idle, no
      target reads RUNNING, and a device that read DONE or SERVER_ERROR still does, with the same result
      unless a reply of its own for this transfer was pending. */
  lemma TickTimeoutSound(x: Stat, ds: seq<Device>, samples: seq<Reply>, malloc: nat -> Malloc, now: int,
          timeout: int, id: nat)
    requires x.running && now - x.startTime > timeout
    ensures var (x', ds', _) := Tick(x, ds, samples, malloc, now, timeout);
      var before, after := GetStatus(ds, id), GetStatus(ds', id);
      && !x'.running
      && (id in x.ids ==> after.0 != Running)
      && (before.0 == Done || before.0 == ServerError ==> after.0 == Done || after.0 == ServerError)
      && ((before.0 == Done || before.0 == ServerError)
            && (forall r | r in Instance(samples, x.randomSeq) :: r.deviceID != id || !ForTransfer(x, r))
          ==> after == before)
  {
    hide GetStatus, AcceptAll, Sweep, Instance, Others;
    var rs := Instance(samples, x.randomSeq);
    AcceptAllStat(x, ds, rs, malloc, 0);
    AcceptAllStatus(x, ds, rs, malloc, 0, id);
    StatusAfterSweep(if x.recvNum < |x.ids| then AcceptAll(x, ds, rs, malloc, 0).1 else ds, x.ids, id);
  }

  /** The replies of a kind and number in the reader. */
  function RepliesFor(samples: seq<Reply>, kind: Kind, q: nat): nat {
    if samples == [] then 0
    else (if samples[0].kind == kind && samples[0].randomSeq == q then 1 else 0) + RepliesFor(samples[1..], kind, q)
  }

  lemma {:induction false} AcceptAllCounts(x: Stat, ds: seq<Device>, rs: seq<Reply>, malloc: nat -> Malloc, k: nat)
    ensures AcceptAll(x, ds, rs, malloc, k).0.recvNum == x.recvNum + RepliesFor(rs, x.kind, x.randomSeq)
    decreases |rs|
  {
    if rs != [] {
      hide AcceptDevices;
      AcceptAllCounts(AcceptStat(x, rs[0]), AcceptDevices(ds, x, rs[0], malloc(k)), rs[1..], malloc, k + 1);
    }
  }

  lemma {:induction false} RepliesForInstance(samples: seq<Reply>, kind: Kind, q: nat)
    ensures RepliesFor(Instance(samples, q), kind, q) == RepliesFor(samples, kind, q)
  {
    if samples != [] {
      RepliesForInstance(samples[1..], kind, q);
      if samples[0].randomSeq == q { assert Instance(samples, q)[1..] == Instance(samples[1..], q); }
    }
  }

  /** When a round ends the transfer: exactly if it is past the timeout or all targets have replied. A round counts
      every pending reply of the transfer, unless the count was reached before; and one that is not late changes no
      status but those of devices with a pending reply. */
  lemma RoundEnds(x: Stat, ds: seq<Device>, samples: seq<Reply>, malloc: nat -> Malloc, now: int, timeout: int, id: nat)
    requires x.running
    ensures var (x', ds', left) := Tick(x, ds, samples, malloc, now, timeout);
      var pending := if x.recvNum < |x.ids| then RepliesFor(samples, x.kind, x.randomSeq) else 0;
      && x'.recvNum == x.recvNum + pending
      && (x'.running <==> now - x.startTime <= timeout && x.recvNum + pending != |x.ids|)
      && x'.ids == (if x'.running then x.ids else [])
      && x'.startTime == x.startTime && x'.kind == x.kind && x'.randomSeq == x.randomSeq
      && (now - x.startTime <= timeout && GetStatus(ds', id) != GetStatus(ds, id) ==>
            && x.recvNum < |x.ids| && (GetStatus(ds', id).0 == Done || GetStatus(ds', id).0 == ServerError)
            && exists r <- Instance(samples, x.randomSeq) :: r.deviceID == id && r.kind == x.kind)
  {
    var rs := Instance(samples, x.randomSeq);
    AcceptAllStat(x, ds, rs, malloc, 0);
    AcceptAllCounts(x, ds, rs, malloc, 0);
    RepliesForInstance(samples, x.kind, x.randomSeq);
    AcceptAllStatus(x, ds, rs, malloc, 0, id);
    hide GetStatus, AcceptAll, Sweep, Instance, Others, RepliesFor;
  }
}
