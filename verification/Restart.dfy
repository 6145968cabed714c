/** An agent restarts under a fresh writer handle: loss reports of its old writer and its new announcement reach the
    registry in any order, with any operations that concern other devices in between. */
module Restart {
  import opened Wrappers
  import opened Devices

  /** The record of a device. */
  function Mine(ds: seq<Device>, id: nat): Option<Device> {
    if ds == [] then None else if ds[0].info.deviceID == id then Some(ds[0]) else Mine(ds[1..], id)
  }

  /** All other records, in list order. */
  function Rest(ds: seq<Device>, id: nat): seq<Device> {
    if ds == [] then []
    else if ds[0].info.deviceID == id then Rest(ds[1..], id)
    else [ds[0]] + Rest(ds[1..], id)
  }

  // ----- the operations, from the head of the list on -----

  /** Replacing the first record of a device. */
  function Replace(ds: seq<Device>, x: nat, u: Device -> Device): seq<Device> {
    if ds == [] then [] else if ds[0].info.deviceID == x then [u(ds[0])] + ds[1..] else [ds[0]] + Replace(ds[1..], x, u)
  }

  function Remove(ds: seq<Device>, sel: Selector): seq<Device> {
    if ds == [] then [] else if Matches(sel, ds[0]) then ds[1..] else [ds[0]] + Remove(ds[1..], sel)
  }

  lemma {:induction false} ReplaceIs(ds: seq<Device>, x: nat, u: Device -> Device)
    ensures Find(ds, x).Some? <==> Mine(ds, x).Some?
    ensures match Find(ds, x)
      case None => Replace(ds, x, u) == ds
      case Some(i) => Replace(ds, x, u) == ds[i := u(ds[i])] && Mine(ds, x) == Some(ds[i])
  {
    if ds != [] { ReplaceIs(ds[1..], x, u); }
  }

  lemma {:induction false} RemoveIs(ds: seq<Device>, sel: Selector)
    ensures RemoveFirst(ds, sel) == Remove(ds, sel)
  {
    hide Matches;
    if ds != [] { RemoveIs(ds[1..], sel); }
  }

  /** Replacing a record of one device leaves the others', and their order. */
  lemma {:induction false} ReplaceRest(ds: seq<Device>, x: nat, u: Device -> Device, id: nat)
    requires forall d :: u(d).info.deviceID == d.info.deviceID || u(d).info.deviceID == x
    ensures x == id ==> Rest(Replace(ds, x, u), id) == Rest(ds, id)
    ensures x != id ==> Rest(Replace(ds, x, u), id) == Replace(Rest(ds, id), x, u)
    ensures x != id ==> Mine(Replace(ds, x, u), id) == Mine(ds, id)
    ensures x == id && Mine(ds, id).Some? && u(Mine(ds, id).value).info.deviceID == id ==>
      Mine(Replace(ds, x, u), id) == Some(u(Mine(ds, id).value))
  {
    if ds != [] {
      var rest := Rest(ds[1..], id);
      assert ([ds[0]] + rest)[1..] == rest && ([u(ds[0])] + ds[1..])[1..] == ds[1..];
      ReplaceRest(ds[1..], x, u, id);
      assert ([ds[0]] + Replace(ds[1..], x, u))[1..] == Replace(ds[1..], x, u);
    }
  }

  /** A loss that does not match the device's record concerns the others only. */
  lemma {:induction false} RemoveRest(ds: seq<Device>, sel: Selector, id: nat)
    requires Unique(ds) && (Mine(ds, id).Some? ==> !Matches(sel, Mine(ds, id).value))
    ensures Rest(Remove(ds, sel), id) == Remove(Rest(ds, id), sel) && Mine(Remove(ds, sel), id) == Mine(ds, id)
  {
    hide Matches;
    if ds != [] {
      if ds[0].info.deviceID == id { NotMine(ds, id); }
      assert ([ds[0]] + Rest(ds[1..], id))[1..] == Rest(ds[1..], id);
      assert ([ds[0]] + Remove(ds[1..], sel))[1..] == Remove(ds[1..], sel);
      if !Matches(sel, ds[0]) { RemoveRest(ds[1..], sel, id); }
    }
  }

  /** A device has one record. */
  lemma NotMine(ds: seq<Device>, id: nat)
    requires Unique(ds) && ds != [] && ds[0].info.deviceID == id
    ensures Mine(ds[1..], id) == None
  {
    ReplaceIs(ds[1..], id, d => d);
  }

  /** A loss that matches the device's record and no other removes just that. */
  lemma {:induction false} RemoveMine(ds: seq<Device>, sel: Selector, id: nat)
    requires Unique(ds) && Mine(ds, id).Some? && Matches(sel, Mine(ds, id).value)
    requires forall i | 0 <= i < |ds| && ds[i].info.deviceID != id :: !Matches(sel, ds[i])
    ensures Rest(Remove(ds, sel), id) == Rest(ds, id) && Mine(Remove(ds, sel), id) == None
  {
    hide Matches;
    if ds[0].info.deviceID == id {
      NotMine(ds, id);
    } else {
      RemoveMine(ds[1..], sel, id);
    }
  }

  lemma {:induction false} NoneMatches(ds: seq<Device>, sel: Selector)
    requires forall i | 0 <= i < |ds| :: !Matches(sel, ds[i])
    ensures Remove(ds, sel) == ds
  {
    hide Matches;
    if ds != [] { NoneMatches(ds[1..], sel); }
  }

  // ----- operations that concern others -----

  /** The operation concerns neither the device nor its writers; `texts` are the devinfo texts the device has
      had. */
  predicate Elsewhere(op: Op, id: nat, handles: set<nat>, texts: set<string>) {
    match op
    case Announce(info, handle, _) => info.deviceID != id && handle !in handles
    case Lose(ByHandle(handle)) => handle !in handles
    case Lose(ByRobot(robot)) => forall t <- texts :: !Contains(t, robot)
    case Status(x, _, _) => x != id
    case Clear => false
  }

  /** The record is one that the device has had. */
  predicate Known(d: Option<Device>, handles: set<nat>, texts: set<string>) {
    d.Some? ==> d.value.handle in handles && d.value.info.devinfo in texts
  }

  lemma ElsewhereStep(ds: seq<Device>, op: Op, id: nat, handles: set<nat>, texts: set<string>)
    requires Unique(ds) && Elsewhere(op, id, handles, texts) && Known(Mine(ds, id), handles, texts)
    ensures Mine(Apply(ds, op), id) == Mine(ds, id) && Rest(Apply(ds, op), id) == Apply(Rest(ds, id), op)
  {
    match op
    case Announce(info, handle, junk) =>
      var u := (d: Device) => d.(info := info, handle := handle);
      ReplaceIs(ds, info.deviceID, u);
      ReplaceIs(Rest(ds, id), info.deviceID, u);
      ReplaceRest(ds, info.deviceID, u, id);
      MineOther(ds, info.deviceID, id);
    case Lose(sel) =>
      RemoveIs(ds, sel);
      RemoveIs(Rest(ds, id), sel);
      RemoveRest(ds, sel, id);
    case Status(x, st, res) =>
      var u := (d: Device) => d.(status := st, result := res);
      ReplaceIs(ds, x, u);
      ReplaceIs(Rest(ds, id), x, u);
      ReplaceRest(ds, x, u, id);
  }

  lemma {:induction false} MineOther(ds: seq<Device>, x: nat, id: nat)
    requires x != id
    ensures Mine(Rest(ds, id), x) == Mine(ds, x)
  {
    if ds != [] {
      assert ([ds[0]] + Rest(ds[1..], id))[1..] == Rest(ds[1..], id);
      MineOther(ds[1..], x, id);
    }
  }

  // ----- runs around the announcement -----

  /** Only loss reports of writer h, and operations that concern others. */
  predicate Around(ops: seq<Op>, id: nat, h: nat, handles: set<nat>, texts: set<string>) {
    ops == [] ||
    ((ops[0] == Lose(ByHandle(h)) || Elsewhere(ops[0], id, handles, texts)) && Around(ops[1..], id, h, handles, texts))
  }

  /** The operations that concern others. */
  function Foreign(ops: seq<Op>, h: nat): seq<Op> {
    if ops == [] then []
    else if ops[0] == Lose(ByHandle(h)) then Foreign(ops[1..], h)
    else [ops[0]] + Foreign(ops[1..], h)
  }

  /** The device's record after the loss of h: gone if h announced it last. */
  function AfterLoss(d: Option<Device>, h: nat): Option<Device> {
    if d.Some? && d.value.handle == h then None else d
  }

  lemma LossStep(ds: seq<Device>, h: nat, id: nat)
    requires Unique(ds) && OnlyDevice(ds, h, id)
    ensures var ds' := RemoveFirst(ds, ByHandle(h));
      && Unique(ds') && OnlyDevice(ds', h, id)
      && Rest(ds', id) == Rest(ds, id) && Mine(ds', id) == AfterLoss(Mine(ds, id), h)
  {
    LoseOld(ds, h, id);
    RemoveIs(ds, ByHandle(h));
    if Mine(ds, id).Some? && Mine(ds, id).value.handle == h {
      RemoveMine(ds, ByHandle(h), id);
    } else {
      RemoveRest(ds, ByHandle(h), id);
      ReplaceIs(ds, id, d => d);
      assert forall i | 0 <= i < |ds| :: ds[i].handle != h;
      NoneMatches(ds, ByHandle(h));
    }
  }

  lemma ElsewhereKeeps(ds: seq<Device>, op: Op, id: nat, h: nat, handles: set<nat>, texts: set<string>)
    requires Unique(ds) && OnlyDevice(ds, h, id) && h in handles && Elsewhere(op, id, handles, texts)
    ensures Unique(Apply(ds, op)) && OnlyDevice(Apply(ds, op), h, id)
  {
    match op
    case Announce(info, handle, junk) => AddCommutes(ds, info, handle, junk);
    case Lose(sel) => RemoveCommutes(ds, sel);
    case Status(x, st, res) => SetStatusCommutes(ds, x, st, res);
  }

  /** Whatever happens around: others get what they would have got alone, and the device loses its record exactly
      if h announced it last and is reported lost. */
  lemma {:induction false} AroundRun(ds: seq<Device>, ops: seq<Op>, id: nat, h: nat, handles: set<nat>,
          texts: set<string>)
    requires Unique(ds) && OnlyDevice(ds, h, id) && h in handles && Known(Mine(ds, id), handles, texts)
    requires Around(ops, id, h, handles, texts)
    ensures var ds' := Run(ds, ops);
      && Unique(ds') && OnlyDevice(ds', h, id)
      && Rest(ds', id) == Run(Rest(ds, id), Foreign(ops, h))
      && Mine(ds', id) == if Lose(ByHandle(h)) in ops then AfterLoss(Mine(ds, id), h) else Mine(ds, id)
    decreases |ops|
  {
    if ops != [] {
      var ds1 := Apply(ds, ops[0]);
      assert ops == [ops[0]] + ops[1..];
      if ops[0] == Lose(ByHandle(h)) {
        LossStep(ds, h, id);
      } else {
        ElsewhereStep(ds, ops[0], id, handles, texts);
        ElsewhereKeeps(ds, ops[0], id, h, handles, texts);
        assert ([ops[0]] + Foreign(ops[1..], h))[1..] == Foreign(ops[1..], h);
      }
      hide Unique, OnlyDevice, Elsewhere, Apply, Mine, Rest;
      AroundRun(ds1, ops[1..], id, h, handles, texts);
    }
  }

  lemma AnnounceStep(ds: seq<Device>, h: nat, info: Info, h': nat, junk: (TransferStatus, TransferResult))
    requires Unique(ds) && OnlyDevice(ds, h, info.deviceID) && h' != h
    ensures var ds', id := Add(ds, info, h', junk), info.deviceID;
      && Unique(ds') && OnlyDevice(ds', h, id) && Rest(ds', id) == Rest(ds, id)
      && Mine(ds', id) == match Mine(ds, id)
        case None => Some(Device(info, junk.0, junk.1, h'))
        case Some(d) => Some(d.(info := info, handle := h'))
  {
    var u := (d: Device) => d.(info := info, handle := h');
    AnnounceKeeps(ds, h, info, h', junk);
    hide Unique, OnlyDevice;
    ReplaceIs(ds, info.deviceID, u);
    ReplaceRest(ds, info.deviceID, u, info.deviceID);
    var d := Device(info, junk.0, junk.1, h');
    assert ([d] + ds)[1..] == ds;
  }

  lemma AnnounceKeeps(ds: seq<Device>, h: nat, info: Info, h': nat, junk: (TransferStatus, TransferResult))
    requires Unique(ds) && OnlyDevice(ds, h, info.deviceID) && h' != h
    ensures Unique(Add(ds, info, h', junk)) && OnlyDevice(Add(ds, info, h', junk), h, info.deviceID)
  {
    AddCommutes(ds, info, h', junk);
    hide Unique, Abs, MapAdd;
  }

  /** Re-announcement, whatever the order: the loss of the old writer h may be reported any number of times
      before and after the new announcement, with any operations that concern neither the device nor its writers
      in between. The device ends up registered once, with the new handle and info, and all other records are,
      in order, what those operations alone make of them. Only the transfer status depends on the order: a loss
      reported before the announcement makes it a new record. */
  lemma Reannounce(ds: seq<Device>, h: nat, info: Info, h': nat, junk: (TransferStatus, TransferResult),
          before: seq<Op>, later: seq<Op>, texts: set<string>)
    requires Unique(ds) && OnlyDevice(ds, h, info.deviceID) && h' != h
    requires Mine(ds, info.deviceID).Some? && Mine(ds, info.deviceID).value.handle == h
    requires Mine(ds, info.deviceID).value.info.devinfo in texts && info.devinfo in texts
    requires Around(before, info.deviceID, h, {h, h'}, texts) && Around(later, info.deviceID, h, {h, h'}, texts)
    ensures var ds', id := Run(ds, before + [Announce(info, h', junk)] + later), info.deviceID;
      var was := Mine(ds, id).value;
      && Unique(ds')
      && Mine(ds', id) == Some(if Lose(ByHandle(h)) in before then Device(info, junk.0, junk.1, h')
                               else was.(info := info, handle := h'))
      && Rest(ds', id) == Run(Rest(ds, id), Foreign(before, h) + Foreign(later, h))
  {
    var id, e := info.deviceID, Announce(info, h', junk);
    var ds1 := Run(ds, before);
    var ds2 := Apply(ds1, e);
    AroundRun(ds, before, id, h, {h, h'}, texts);
    AnnounceStep(ds1, h, info, h', junk);
    AroundRun(ds2, later, id, h, {h, h'}, texts);
    hide Mine, Rest, Run, Unique, OnlyDevice, Around, Add;
    OpsConcat(ds, before, [e]);
    OpsConcat(ds, before + [e], later);
    OpsConcat(Rest(ds, id), Foreign(before, h), Foreign(later, h));
  }
}
