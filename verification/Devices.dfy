/** The device registry as a value: what each registry operation does to the list of records, and the
    ordered map that this list represents. */
module Devices {
  import opened Wrappers

  datatype Info = Info(deviceID: nat, model: string, host: string, ip: string, mac: string,
                       rmtVersion: string, devinfo: string)

  datatype TransferStatus = Done | Running | ServerError | AgentError

  datatype TransferResult = TransferResult(code: int, file: Option<seq<bv8>>, fileLen: nat)

  const EMPTY_RESULT := TransferResult(0, None, 0)

  /** One record. `handle` is the DDS writer handle of the announcement (`internal_id`). */
  datatype Device = Device(info: Info, status: TransferStatus, result: TransferResult, handle: nat)

  /** Which record a loss notification removes. */
  datatype Selector = ByHandle(handle: nat) | ByRobot(robotId: string)

  /** strstr(s, t) != NULL. */
  predicate Contains(s: string, t: string) {
    t <= s || (s != "" && Contains(s[1..], t))
  }

  predicate OccursAt(s: string, t: string, i: nat) {
    i + |t| <= |s| && forall k | 0 <= k < |t| :: s[i + k] == t[k]
  }

  lemma OccursShift(s: string, t: string, i: nat)
    requires 0 < i <= |s|
    ensures OccursAt(s, t, i) <==> OccursAt(s[1..], t, i - 1)
  {
    if OccursAt(s, t, i) {
      forall k | 0 <= k < |t| ensures s[1..][i - 1 + k] == t[k] { assert s[i + k] == t[k]; }
    }
    if OccursAt(s[1..], t, i - 1) {
      forall k | 0 <= k < |t| ensures s[i + k] == t[k] { assert s[1..][i - 1 + k] == t[k]; }
    }
  }

  /** That is, the text occurs at some position. */
  lemma {:induction false} ContainsIff(s: string, t: string)
    ensures Contains(s, t) <==> exists i | 0 <= i <= |s| :: OccursAt(s, t, i)
    decreases |s|
  {
    assert t <= s <==> OccursAt(s, t, 0);
    if s != "" {
      ContainsIff(s[1..], t);
      forall i | 0 < i <= |s| ensures OccursAt(s, t, i) <==> OccursAt(s[1..], t, i - 1) { OccursShift(s, t, i); }
      if Contains(s[1..], t) {
        var i :| 0 <= i <= |s[1..]| && OccursAt(s[1..], t, i);
        assert OccursAt(s, t, i + 1);
      }
    }
  }

  predicate Matches(sel: Selector, d: Device) {
    match sel
    case ByHandle(h) => d.handle == h
    case ByRobot(r) => Contains(d.info.devinfo, r)
  }

  predicate Unique(ds: seq<Device>) {
    forall i, j | 0 <= i < j < |ds| :: ds[i].info.deviceID != ds[j].info.deviceID
  }

  // ----- operations on the list of records -----

  /** Index of the first record of a device. */
  function Find(ds: seq<Device>, id: nat): (r: Option<nat>)
    ensures r.Some? ==> r.value < |ds| && ds[r.value].info.deviceID == id
    ensures r.Some? ==> forall i | 0 <= i < r.value :: ds[i].info.deviceID != id
    ensures r.None? ==> forall i | 0 <= i < |ds| :: ds[i].info.deviceID != id
  {
    if ds == [] then None
    else if ds[0].info.deviceID == id then Some(0)
    else match Find(ds[1..], id) case Some(i) => Some(i + 1) case None => None
  }

  /** An announcement: update in place, or a new record at the head, whose transfer status is whatever
      malloc returned. */
  function Add(ds: seq<Device>, info: Info, handle: nat, junk: (TransferStatus, TransferResult)): seq<Device> {
    match Find(ds, info.deviceID)
    case Some(i) => ds[i := ds[i].(info := info, handle := handle)]
    case None => [Device(info, junk.0, junk.1, handle)] + ds
  }

  /** Index of the record a loss notification removes. */
  function MatchIndex(ds: seq<Device>, sel: Selector): (r: Option<nat>)
    ensures r.Some? ==> r.value < |ds| && Matches(sel, ds[r.value])
    ensures r.Some? ==> forall i | 0 <= i < r.value :: !Matches(sel, ds[i])
    ensures r.None? ==> forall i | 0 <= i < |ds| :: !Matches(sel, ds[i])
  {
    if ds == [] then None
    else if Matches(sel, ds[0]) then Some(0)
    else match MatchIndex(ds[1..], sel) case Some(i) => Some(i + 1) case None => None
  }

  /** Only the first matching record is unlinked. */
  function RemoveFirst(ds: seq<Device>, sel: Selector): seq<Device> {
    match MatchIndex(ds, sel)
    case Some(k) => ds[..k] + ds[k + 1..]
    case None => ds
  }

  function SetStatus(ds: seq<Device>, id: nat, status: TransferStatus, result: TransferResult): seq<Device> {
    match Find(ds, id)
    case Some(i) => ds[i := ds[i].(status := status, result := result)]
    case None => ds
  }

  function GetStatus(ds: seq<Device>, id: nat): (TransferStatus, TransferResult) {
    match Find(ds, id)
    case Some(i) => (ds[i].status, ds[i].result)
    case None => (AgentError, EMPTY_RESULT)
  }

  predicate Registered(ds: seq<Device>, id: nat) {
    Find(ds, id).Some?
  }

  // ----- where the operations act -----

  /** An announcement of a known device replaces info and handle of its first record and keeps its transfer fields; one
      of an unknown device puts a record in front of all others, with the transfer fields that malloc left there. */
  lemma AddPlaces(ds: seq<Device>, info: Info, handle: nat, junk: (TransferStatus, TransferResult))
    ensures var ds' := Add(ds, info, handle, junk);
      && (forall i | 0 <= i < |ds| && ds[i].info.deviceID == info.deviceID
                     && (forall j | 0 <= j < i :: ds[j].info.deviceID != info.deviceID) ::
            ds' == ds[i := Device(info, ds[i].status, ds[i].result, handle)])
      && ((forall i | 0 <= i < |ds| :: ds[i].info.deviceID != info.deviceID) ==>
            ds' == [Device(info, junk.0, junk.1, handle)] + ds)
  {
    hide Find;
  }

  /** The first matching record is the one removed. */
  lemma RemovesAt(ds: seq<Device>, sel: Selector, k: nat)
    requires k < |ds| && Matches(sel, ds[k]) && forall i | 0 <= i < k :: !Matches(sel, ds[i])
    ensures RemoveFirst(ds, sel) == ds[..k] + ds[k + 1..]
    ensures k == 0 ==> RemoveFirst(ds, sel) == ds[1..]
  {
    hide Matches;
  }

  lemma RemovesNone(ds: seq<Device>, sel: Selector)
    requires forall i | 0 <= i < |ds| :: !Matches(sel, ds[i])
    ensures RemoveFirst(ds, sel) == ds
  {
    hide Matches;
  }

  /** A loss of a writer removes the first record with its handle, and nothing if there is none. */
  lemma LossOfWriter(ds: seq<Device>, h: nat)
    ensures forall i | 0 <= i < |ds| && ds[i].handle == h && (forall j | 0 <= j < i :: ds[j].handle != h) ::
      RemoveFirst(ds, ByHandle(h)) == ds[..i] + ds[i + 1..]
    ensures (forall i | 0 <= i < |ds| :: ds[i].handle != h) ==> RemoveFirst(ds, ByHandle(h)) == ds
  {
    hide RemoveFirst, MatchIndex;
    forall i: nat | i < |ds| && ds[i].handle == h && forall j | 0 <= j < i :: ds[j].handle != h {
      RemovesAt(ds, ByHandle(h), i);
    }
    if forall i | 0 <= i < |ds| :: ds[i].handle != h { RemovesNone(ds, ByHandle(h)); }
  }

  /** A lost robot removes the first record whose devinfo text has the robot's ID in it, and nothing if there is
      none. */
  lemma LossOfRobot(ds: seq<Device>, robot: string)
    ensures forall i | 0 <= i < |ds| && Contains(ds[i].info.devinfo, robot)
                       && (forall j | 0 <= j < i :: !Contains(ds[j].info.devinfo, robot)) ::
      RemoveFirst(ds, ByRobot(robot)) == ds[..i] + ds[i + 1..]
    ensures (forall i | 0 <= i < |ds| :: !Contains(ds[i].info.devinfo, robot)) ==> RemoveFirst(ds, ByRobot(robot)) == ds
  {
    hide RemoveFirst, MatchIndex, Contains;
    forall i: nat | i < |ds| && Contains(ds[i].info.devinfo, robot)
                    && forall j | 0 <= j < i :: !Contains(ds[j].info.devinfo, robot)
    {
      RemovesAt(ds, ByRobot(robot), i);
    }
    if forall i | 0 <= i < |ds| :: !Contains(ds[i].info.devinfo, robot) { RemovesNone(ds, ByRobot(robot)); }
  }

  // ----- the ordered map -----

  /** Keys in list order and the record of each key. */
  datatype OrderedMap = OrderedMap(keys: seq<nat>, at: map<nat, Device>)

  function Keys(ds: seq<Device>): (r: seq<nat>)
    ensures |r| == |ds| && forall i | 0 <= i < |ds| :: r[i] == ds[i].info.deviceID
  {
    seq(|ds|, i requires 0 <= i < |ds| => ds[i].info.deviceID)
  }

  function Records(ds: seq<Device>): map<nat, Device> {
    if ds == [] then map[] else Records(ds[1..])[ds[0].info.deviceID := ds[0]]
  }

  function Abs(ds: seq<Device>): OrderedMap {
    OrderedMap(Keys(ds), Records(ds))
  }

  function MapAdd(m: OrderedMap, info: Info, handle: nat, junk: (TransferStatus, TransferResult)): OrderedMap {
    var id := info.deviceID;
    if id in m.at then m.(at := m.at[id := m.at[id].(info := info, handle := handle)])
    else OrderedMap([id] + m.keys, m.at[id := Device(info, junk.0, junk.1, handle)])
  }

  /** The first key whose record matches. */
  function FirstMatch(m: OrderedMap, sel: Selector): Option<nat>
    decreases |m.keys|
  {
    if m.keys == [] then None
    else if m.keys[0] in m.at && Matches(sel, m.at[m.keys[0]]) then Some(m.keys[0])
    else FirstMatch(m.(keys := m.keys[1..]), sel)
  }

  function Without(keys: seq<nat>, k: nat): seq<nat> {
    if keys == [] then [] else (if keys[0] == k then [] else [keys[0]]) + Without(keys[1..], k)
  }

  function MapRemove(m: OrderedMap, sel: Selector): OrderedMap {
    match FirstMatch(m, sel)
    case None => m
    case Some(k) => OrderedMap(Without(m.keys, k), m.at - {k})
  }

  function MapSetStatus(m: OrderedMap, id: nat, status: TransferStatus, result: TransferResult): OrderedMap {
    if id in m.at then m.(at := m.at[id := m.at[id].(status := status, result := result)]) else m
  }

  // ----- the list refines the map -----

  /** The records of a list with unique IDs, element by element. */
  lemma {:induction false} RecordsAt(ds: seq<Device>, id: nat)
    requires Unique(ds)
    ensures id in Records(ds) <==> Find(ds, id).Some?
    ensures id in Records(ds) ==> Records(ds)[id] == ds[Find(ds, id).value]
  {
    if ds != [] { RecordsAt(ds[1..], id); }
  }

  /** Replacing a record under its own ID. */
  lemma UpdateCommutes(ds: seq<Device>, i: nat, d: Device)
    requires Unique(ds) && i < |ds| && d.info.deviceID == ds[i].info.deviceID
    ensures Unique(ds[i := d]) && Keys(ds[i := d]) == Keys(ds)
    ensures Records(ds[i := d]) == Records(ds)[d.info.deviceID := d]
  {
    var ds' := ds[i := d];
    assert Keys(ds') == Keys(ds);
    assert Unique(ds') by {
      forall a, b | 0 <= a < b < |ds'| ensures ds'[a].info.deviceID != ds'[b].info.deviceID {
        assert Keys(ds')[a] == Keys(ds)[a] && Keys(ds')[b] == Keys(ds)[b];
      }
    }
    forall id ensures id in Records(ds') <==> id in Records(ds) || id == d.info.deviceID {
      RecordsAt(ds, id);
      RecordsAt(ds', id);
    }
    forall id | id in Records(ds') ensures Records(ds')[id] == Records(ds)[d.info.deviceID := d][id] {
      RecordsAt(ds, id);
      RecordsAt(ds', id);
    }
  }

  lemma AddCommutes(ds: seq<Device>, info: Info, handle: nat, junk: (TransferStatus, TransferResult))
    requires Unique(ds)
    ensures Unique(Add(ds, info, handle, junk))
    ensures Abs(Add(ds, info, handle, junk)) == MapAdd(Abs(ds), info, handle, junk)
  {
    RecordsAt(ds, info.deviceID);
    match Find(ds, info.deviceID)
    case Some(i) => UpdateCommutes(ds, i, ds[i].(info := info, handle := handle));
    case None => InsertCommutes(ds, Device(info, junk.0, junk.1, handle));
  }

  lemma InsertUnique(ds: seq<Device>, d: Device)
    requires Unique(ds) && Find(ds, d.info.deviceID).None?
    ensures Unique([d] + ds)
  {
    hide Find;
    var ds' := [d] + ds;
    assert forall i | 0 < i < |ds'| :: ds'[i] == ds[i - 1];
  }

  lemma InsertCommutes(ds: seq<Device>, d: Device)
    requires Unique(ds) && Find(ds, d.info.deviceID).None?
    ensures Unique([d] + ds) && Keys([d] + ds) == [d.info.deviceID] + Keys(ds)
    ensures Records([d] + ds) == Records(ds)[d.info.deviceID := d]
  {
    InsertUnique(ds, d);
    hide Unique, Find;
    var ds' := [d] + ds;
    assert ds'[0] == d && ds'[1..] == ds;
    assert Records(ds') == Records(ds)[d.info.deviceID := d];
    hide Records;
    forall i | 0 <= i < |ds| ensures Keys(ds')[i + 1] == Keys(ds)[i] { assert ds'[i + 1] == ds[i]; }
  }

  lemma SetStatusCommutes(ds: seq<Device>, id: nat, status: TransferStatus, result: TransferResult)
    requires Unique(ds)
    ensures Unique(SetStatus(ds, id, status, result))
    ensures Abs(SetStatus(ds, id, status, result)) == MapSetStatus(Abs(ds), id, status, result)
  {
    RecordsAt(ds, id);
    match Find(ds, id)
    case Some(i) => UpdateCommutes(ds, i, ds[i].(status := status, result := result));
    case None =>
  }

  lemma {:induction false} WithoutAt(keys: seq<nat>, i: nat)
    requires i < |keys| && forall a, b | 0 <= a < b < |keys| :: keys[a] != keys[b]
    ensures Without(keys, keys[i]) == keys[..i] + keys[i + 1..]
  {
    if i == 0 {
      WithoutNone(keys[1..], keys[0]);
      assert keys[..0] + keys[1..] == keys[1..];
    } else {
      WithoutAt(keys[1..], i - 1);
    }
  }

  lemma {:induction false} WithoutNone(keys: seq<nat>, k: nat)
    requires k !in keys
    ensures Without(keys, k) == keys
  {
    if keys != [] { WithoutNone(keys[1..], k); }
  }

  lemma {:induction false} FirstMatchIs(ds: seq<Device>, at: map<nat, Device>, sel: Selector)
    requires forall i | 0 <= i < |ds| :: ds[i].info.deviceID in at && at[ds[i].info.deviceID] == ds[i]
    ensures var k := MatchIndex(ds, sel);
      FirstMatch(OrderedMap(Keys(ds), at), sel) == if k.Some? then Some(ds[k.value].info.deviceID) else None
  {
    hide Matches;
    if ds != [] && !Matches(sel, ds[0]) {
      FirstMatchIs(ds[1..], at, sel);
      assert Keys(ds)[1..] == Keys(ds[1..]);
    }
  }

  lemma RemoveCommutes(ds: seq<Device>, sel: Selector)
    requires Unique(ds)
    ensures Unique(RemoveFirst(ds, sel))
    ensures Abs(RemoveFirst(ds, sel)) == MapRemove(Abs(ds), sel)
  {
    forall i | 0 <= i < |ds|
      ensures ds[i].info.deviceID in Records(ds) && Records(ds)[ds[i].info.deviceID] == ds[i]
    {
      RecordsAt(ds, ds[i].info.deviceID);
    }
    FirstMatchIs(ds, Records(ds), sel);
    if MatchIndex(ds, sel).Some? {
      RemoveAtCommutes(ds, MatchIndex(ds, sel).value);
    }
  }

  lemma RemoveAtCommutes(ds: seq<Device>, k: nat)
    requires Unique(ds) && k < |ds|
    ensures var ds', id := ds[..k] + ds[k + 1..], ds[k].info.deviceID;
      Unique(ds') && Keys(ds') == Without(Keys(ds), id) && Records(ds') == Records(ds) - {id}
  {
    var ds', id := ds[..k] + ds[k + 1..], ds[k].info.deviceID;
    assert forall i | 0 <= i < |ds'| :: ds'[i] == ds[if i < k then i else i + 1];
    WithoutAt(Keys(ds), k);
    assert Keys(ds') == Keys(ds)[..k] + Keys(ds)[k + 1..];
    forall x ensures x in Records(ds') <==> x in Records(ds) - {id} {
      RecordsAt(ds, x);
      RecordsAt(ds', x);
      FindAfterRemove(ds, k, x);
    }
    forall x | x in Records(ds') ensures Records(ds')[x] == Records(ds)[x] {
      RecordsAt(ds, x);
      RecordsAt(ds', x);
      FindAfterRemove(ds, k, x);
    }
  }

  lemma FindAfterRemove(ds: seq<Device>, k: nat, x: nat)
    requires Unique(ds) && k < |ds|
    ensures var ds' := ds[..k] + ds[k + 1..];
      if x == ds[k].info.deviceID then Find(ds', x) == None
      else match Find(ds, x)
        case None => Find(ds', x) == None
        case Some(i) => Find(ds', x).Some? && ds'[Find(ds', x).value] == ds[i]
  {
    hide Find;
    var ds' := ds[..k] + ds[k + 1..];
    var g := (i: int) => if i < k then i else i + 1;
    assert forall i | 0 <= i < |ds'| :: ds'[i] == ds[g(i)];
    if Find(ds, x).Some? {
      var i := Find(ds, x).value;
      if i < k { assert ds'[i] == ds[i]; }
      if i > k { assert ds'[i - 1] == ds[i]; }
    }
  }

  lemma FindAfterUpdate(ds: seq<Device>, i: nat, d: Device, x: nat)
    requires i < |ds| && d.info.deviceID == ds[i].info.deviceID
    ensures Find(ds[i := d], x) == Find(ds, x)
  {
    hide Find;
    var a, b := Find(ds, x), Find(ds[i := d], x);
    assert forall j | 0 <= j < |ds| :: ds[i := d][j].info.deviceID == ds[j].info.deviceID;
    if a.Some? { assert ds[i := d][a.value].info.deviceID == x; }
    if b.Some? { assert ds[b.value].info.deviceID == x; }
  }

  // ----- whole runs -----

  datatype Op =
    | Announce(info: Info, handle: nat, junk: (TransferStatus, TransferResult))
    | Lose(sel: Selector)
    | Status(id: nat, status: TransferStatus, result: TransferResult)
    | Clear

  function Apply(ds: seq<Device>, op: Op): seq<Device> {
    match op
    case Announce(info, handle, junk) => Add(ds, info, handle, junk)
    case Lose(sel) => RemoveFirst(ds, sel)
    case Status(id, status, result) => SetStatus(ds, id, status, result)
    case Clear => []
  }

  function MapApply(m: OrderedMap, op: Op): OrderedMap {
    match op
    case Announce(info, handle, junk) => MapAdd(m, info, handle, junk)
    case Lose(sel) => MapRemove(m, sel)
    case Status(id, status, result) => MapSetStatus(m, id, status, result)
    case Clear => OrderedMap([], map[])
  }

  function Run(ds: seq<Device>, ops: seq<Op>): seq<Device>
    decreases |ops|
  {
    if ops == [] then ds else Run(Apply(ds, ops[0]), ops[1..])
  }

  function MapRun(m: OrderedMap, ops: seq<Op>): OrderedMap
    decreases |ops|
  {
    if ops == [] then m else MapRun(MapApply(m, ops[0]), ops[1..])
  }

  /** Every run of registry operations keeps IDs unique and commutes with the ordered map. */
  lemma {:induction false} RunRefines(ds: seq<Device>, ops: seq<Op>)
    requires Unique(ds)
    ensures Unique(Run(ds, ops)) && Abs(Run(ds, ops)) == MapRun(Abs(ds), ops)
    decreases |ops|
  {
    if ops != [] {
      match ops[0] {
        case Announce(info, handle, junk) => AddCommutes(ds, info, handle, junk);
        case Lose(sel) => RemoveCommutes(ds, sel);
        case Status(id, status, result) => SetStatusCommutes(ds, id, status, result);
        case Clear => assert Keys([]) == [];
      }
      RunRefines(Apply(ds, ops[0]), ops[1..]);
    }
  }

  /** Lookups agree with the map. */
  lemma GetStatusIsLookup(ds: seq<Device>, id: nat)
    requires Unique(ds)
    ensures GetStatus(ds, id) ==
      if id in Abs(ds).at then (Abs(ds).at[id].status, Abs(ds).at[id].result)
      else (AgentError, TransferResult(0, None, 0))
  {
    RecordsAt(ds, id);
  }

  // ----- re-announcement under a fresh writer handle -----

  /** No device but `id` was announced by writer `h`. */
  ghost predicate OnlyDevice(ds: seq<Device>, h: nat, id: nat) {
    forall i | 0 <= i < |ds| :: ds[i].handle == h ==> ds[i].info.deviceID == id
  }

  ghost predicate NoHandle(ds: seq<Device>, h: nat) {
    forall i | 0 <= i < |ds| :: ds[i].handle != h
  }

  lemma LoseOld(ds: seq<Device>, h: nat, id: nat)
    requires Unique(ds) && OnlyDevice(ds, h, id)
    ensures var ds' := RemoveFirst(ds, ByHandle(h));
      && Unique(ds') && NoHandle(ds', h)
      && Records(ds') - {id} == Records(ds) - {id}
      && (NoHandle(ds, h) ==> ds' == ds)
      && (Find(ds, id).Some? && ds[Find(ds, id).value].handle == h ==> Find(ds', id).None?)
  {
    hide Records, Keys, Without, Find;
    var ds', k := RemoveFirst(ds, ByHandle(h)), MatchIndex(ds, ByHandle(h));
    if k.Some? {
      assert ds[k.value].info.deviceID == id;
      RemoveAtCommutes(ds, k.value);
      FindAfterRemove(ds, k.value, id);
      forall i | 0 <= i < |ds'| ensures ds'[i].handle != h {
        var j := if i < k.value then i else i + 1;
        assert ds'[i] == ds[j] && ds[j].info.deviceID != id;
      }
    } else {
      assert forall i | 0 <= i < |ds| :: !Matches(ByHandle(h), ds[i]);
    }
  }

  lemma {:induction false} OpsConcat(ds: seq<Device>, a: seq<Op>, b: seq<Op>)
    ensures Run(ds, a + b) == Run(Run(ds, a), b)
    decreases |a|
  {
    if a == [] {
      assert a + b == b;
    } else {
      assert (a + b)[1..] == a[1..] + b;
      OpsConcat(Apply(ds, a[0]), a[1..], b);
    }
  }

  /** The fresh handle is needed: with a reused one, a late loss report removes the restarted device. */
  lemma ReannounceNeedsFreshHandle(ds: seq<Device>, h: nat, info: Info, h': nat, junk: (TransferStatus, TransferResult))
    requires Unique(ds) && OnlyDevice(ds, h, info.deviceID)
    requires Find(ds, info.deviceID).Some? && ds[Find(ds, info.deviceID).value].handle == h
    ensures Registered(Run(ds, [Announce(info, h', junk)] + [Lose(ByHandle(h))]), info.deviceID) <==> h' != h
  {
    var announced := Add(ds, info, h', junk);
    AddCommutes(ds, info, h', junk);
    OpsConcat(ds, [Announce(info, h', junk)], [Lose(ByHandle(h))]);
    hide Run, Add;
    LostIffCurrent(announced, h, info.deviceID);
  }

  /** A loss report removes a device exactly if the device was announced by that writer. */
  lemma LostIffCurrent(ds: seq<Device>, h: nat, id: nat)
    requires Unique(ds) && OnlyDevice(ds, h, id) && Find(ds, id).Some?
    ensures Registered(RemoveFirst(ds, ByHandle(h)), id) <==> ds[Find(ds, id).value].handle != h
  {
    LoseOld(ds, h, id);
  }
}
