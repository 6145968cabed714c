/** The device registry of the server: a heap linked list with a separate counter. */
module Registry {
  import opened Wrappers
  import opened Devices

  class DevNode {
    var next: DevNode?
    var info: Info
    var status: TransferStatus
    var result: TransferResult
    var internalId: nat

    constructor (info: Info, status: TransferStatus, result: TransferResult, internalId: nat, next: DevNode?)
      ensures this.info == info && this.status == status && this.result == result
      ensures this.internalId == internalId && this.next == next
    {
      this.info, this.status, this.result, this.internalId, this.next := info, status, result, internalId, next;
    }

    function Record(): (d: Device)
      reads this
      ensures d == Device(info, status, result, internalId)
    {
      Device(info, status, result, internalId)
    }
  }

  /** A message taken by the reader: announced device, writer handle, and what malloc would return for a
      new record's transfer fields. */
  type Announcement = op: Op | op.Announce?
    witness Announce(Info(0, "", "", "", "", "", ""), 0, (Done, EMPTY_RESULT))

  /** The i-th node, or null behind the end. */
  ghost function At(nodes: seq<DevNode>, i: nat): DevNode? {
    if i < |nodes| then nodes[i] else null
  }

  class DevList {
    var head: DevNode?
    var num: nat
    ghost var nodes: seq<DevNode>
    ghost var contents: seq<Device>

    /** The list from `head` is exactly `nodes` and ends, so it has no cycle; the counter is its length. */
    ghost predicate Linked()
      reads this, nodes
    {
      && num == |nodes|
      && head == At(nodes, 0)
      && (forall i {:trigger nodes[i].next} | 0 <= i < |nodes| :: nodes[i].next == At(nodes, i + 1))
      && |contents| == |nodes|
      && (forall i {:trigger contents[i]} {:trigger nodes[i]} | 0 <= i < |nodes| ::
            contents[i] == Device(nodes[i].info, nodes[i].status, nodes[i].result, nodes[i].internalId))
    }

    ghost predicate Valid()
      reads this, nodes
    {
      Linked() && Unique(contents)
    }

    /** Unique device IDs keep the nodes apart. */
    lemma Distinct(k: nat)
      requires Valid() && k < |nodes|
      ensures forall i | 0 <= i < |nodes| && i != k :: nodes[i] != nodes[k]
    {
      forall i | 0 <= i < |nodes| && i != k ensures nodes[i] != nodes[k] {
        assert contents[i].info.deviceID != contents[k].info.deviceID;
      }
    }

    /** `devinfo_server_init`: the globals start from an empty list. */
    constructor ()
      ensures Valid() && contents == [] && nodes == []
    {
      head, num, nodes, contents := null, 0, [], [];
    }

    /** The search loop shared by the announcement handler: follow `next` until the ID is found. */
    method FindNode(id: nat) returns (p: DevNode?, ghost k: nat)
      requires Valid()
      ensures k <= |nodes| && p == At(nodes, k)
      ensures Find(contents, id) == if p == null then None else Some(k)
    {
      p, k := head, 0;
      while p != null && p.info.deviceID != id
        invariant k <= |nodes| && p == At(nodes, k)
        invariant forall i | 0 <= i < k :: contents[i].info.deviceID != id
        decreases |nodes| - k
      {
        assert p == nodes[k];
        p, k := p.next, k + 1;
      }
    }

    /** Putting a node at the head. */
    method PushHead(p: DevNode)
      requires Linked() && p !in nodes && p.next == head
      modifies this
      ensures Linked() && nodes == [p] + old(nodes) && contents == [p.Record()] + old(contents)
    {
      nodes, contents := [p] + nodes, [p.Record()] + contents;
      head := p;
      num := num + 1;
    }

    /** Dropping the node at the head. */
    method PopHead()
      requires Linked() && head != null
      modifies this
      ensures Linked() && nodes == old(nodes)[1..] && contents == old(contents)[1..]
    {
      assert head == nodes[0];
      head := head.next;
      num := num - 1;
      nodes, contents := nodes[1..], contents[1..];
    }

    /** Dropping the node behind `p`. */
    method UnlinkAfter(p: DevNode, ghost k: nat)
      requires Valid() && k + 1 < |nodes| && p == nodes[k]
      modifies this, p
      ensures Linked() && nodes == old(nodes[..k + 1] + nodes[k + 2..])
      ensures contents == old(contents[..k + 1] + contents[k + 2..])
    {
      Distinct(k);
      hide Unique;
      p.next := p.next.next;
      num := num - 1;
      nodes, contents := nodes[..k + 1] + nodes[k + 2..], contents[..k + 1] + contents[k + 2..];
    }

    /** Writing the announcement's fields into the k-th node. */
    method WriteInfo(p: DevNode, ghost k: nat, info: Info, handle: nat)
      requires Valid() && k < |nodes| && p == nodes[k]
      modifies p, this`contents
      ensures Linked() && contents == old(contents[k := contents[k].(info := info, handle := handle)])
    {
      Distinct(k);
      hide Unique;
      p.info := info;
      p.internalId := handle;
      contents := contents[k := contents[k].(info := info, handle := handle)];
    }

    /** Writing the transfer fields into the k-th node. */
    method WriteStatus(p: DevNode, ghost k: nat, status: TransferStatus, result: TransferResult)
      requires Valid() && k < |nodes| && p == nodes[k]
      modifies p, this`contents
      ensures Linked() && contents == old(contents[k := contents[k].(status := status, result := result)])
    {
      Distinct(k);
      hide Unique;
      p.status := status;
      p.result := result;
      contents := contents[k := contents[k].(status := status, result := result)];
    }

    /** `add_device`: update the record of the device in place, or put a new record at the head. */
    method AddDevice(info: Info, handle: nat, junk: (TransferStatus, TransferResult))
      requires Valid()
      modifies this, nodes
      ensures Valid() && contents == Add(old(contents), info, handle, junk)
      ensures forall i | 0 <= i < |nodes| :: nodes[i] in old(nodes) || fresh(nodes[i])
    {
      ghost var before := contents;
      AddCommutes(before, info, handle, junk);
      hide Unique, Find;
      var p, k := FindNode(info.deviceID);
      if p == null {
        p := new DevNode(info, junk.0, junk.1, handle, head);
        PushHead(p);
      } else {
        WriteInfo(p, k, info, handle);
      }
    }

    /** `del_device` and `devinfo_server_del_device_callback_robot_id`: unlink the first matching record. */
    method DelDevice(sel: Selector)
      requires Valid()
      modifies this, nodes
      ensures Valid() && contents == RemoveFirst(old(contents), sel)
    {
      hide Unique, Matches, MatchIndex, Contains, Abs, MapRemove, DevNode.Record, RemoveFirst;
      ghost var before := contents;
      RemoveCommutes(before, sel);
      if head == null {
        RemovesNone(before, sel);
        return;
      }
      if Matches(sel, head.Record()) {
        RemovesAt(before, sel, 0);
        PopHead();
        return;
      }
      var p := head;
      ghost var k := 0;
      while p.next != null
        invariant 0 <= k < |nodes| && p == nodes[k]
        invariant forall i | 0 <= i <= k :: !Matches(sel, before[i])
        decreases |nodes| - k
      {
        assert p.next == nodes[k + 1];
        if Matches(sel, p.next.Record()) {
          RemovesAt(before, sel, k + 1);
          UnlinkAfter(p, k);
          return;
        }
        p, k := p.next, k + 1;
      }
      RemovesNone(before, sel);
    }

    /** `devinfo_server_set_status_by_id`: the walk is driven by the counter, not by the end of the list. */
    method SetStatusById(id: nat, status: TransferStatus, result: TransferResult) returns (ret: int)
      requires Valid()
      modifies this, nodes
      ensures Valid() && nodes == old(nodes)
      ensures contents == SetStatus(old(contents), id, status, result)
      ensures ret == if Registered(old(contents), id) then 0 else -1
    {
      ghost var before := contents;
      SetStatusCommutes(before, id, status, result);
      hide Unique, Find;
      ret := -1;
      var p := head;
      for i := 0 to num
        invariant p == At(nodes, i)
        invariant forall j | 0 <= j < i :: before[j].info.deviceID != id
      {
        assert p == nodes[i];
        if id == p.info.deviceID {
          WriteStatus(p, i, status, result);
          return 0;
        }
        p := p.next;
      }
    }

    /** `devinfo_server_get_status_by_id`. */
    method GetStatusById(id: nat) returns (status: TransferStatus, result: TransferResult)
      requires Valid()
      ensures (status, result) == GetStatus(contents, id)
    {
      var p := head;
      for i := 0 to num
        invariant p == At(nodes, i)
        invariant forall j | 0 <= j < i :: contents[j].info.deviceID != id
      {
        assert p == nodes[i];
        if id == p.info.deviceID {
          return p.status, p.result;
        }
        p := p.next;
      }
      status, result := AgentError, EMPTY_RESULT;
    }

    /** `devinfo_server_update`: drain the announcements in `queue`, until none is left or a take fails. */
    method Update(queue: seq<Announcement>, fails: bool) returns (ret: int)
      requires Valid()
      modifies this, nodes
      ensures Valid() && contents == Run(old(contents), queue)
      ensures forall i | 0 <= i < |nodes| :: nodes[i] in old(nodes) || fresh(nodes[i])
      ensures ret == if fails then -1 else 0
    {
      for i := 0 to |queue|
        invariant Valid() && Run(old(contents), queue) == Run(contents, queue[i..])
        invariant forall i | 0 <= i < |nodes| :: nodes[i] in old(nodes) || fresh(nodes[i])
      {
        assert queue[i..][0] == queue[i] && queue[i..][1..] == queue[i + 1..];
        hide Add, Unique;
        AddDevice(queue[i].info, queue[i].handle, queue[i].junk);
      }
      ret := if fails then -1 else 0;
    }

    /** The counter-driven copy of the records. */
    method CopyOut() returns (dev: seq<Info>)
      requires Valid()
      ensures |dev| == |contents| && forall i | 0 <= i < |dev| :: dev[i] == contents[i].info
    {
      hide Unique;
      dev := [];
      var p := head;
      for i := 0 to num
        invariant p == At(nodes, i) && |dev| == i
        invariant forall j | 0 <= j < i :: dev[j] == contents[j].info
      {
        assert p == nodes[i];
        dev := dev + [p.info];
        p := p.next;
      }
    }

    /** `devinfo_server_create_list`: drain the announcements, then copy the records out. Without success of the
        drain neither output is set; without memory only the number is. */
    method CreateList(queue: seq<Announcement>, fails: bool, memory: bool)
      returns (ret: int, dev: Option<seq<Info>>, count: Option<nat>)
      requires Valid()
      modifies this, nodes
      ensures Valid() && contents == Run(old(contents), queue)
      ensures ret == if fails || !memory then -1 else 0
      ensures count == if fails then None else Some(|contents|)
      ensures dev.Some? <==> ret == 0
      ensures dev.Some? ==> |dev.value| == |contents|
      ensures dev.Some? ==> forall i | 0 <= i < |dev.value| :: dev.value[i] == contents[i].info
    {
      ret := Update(queue, fails);
      dev, count := None, None;
      if ret != 0 {
        return;
      }
      count := Some(num);
      if !memory {
        return -1, None, count;
      }
      var infos := CopyOut();
      dev := Some(infos);
    }

    /** `devinfo_server_deinit`: pop every node; the counter ends at zero. */
    method Deinit()
      requires Valid()
      modifies this
      ensures Valid() && contents == [] && num == 0
    {
      while head != null
        invariant Valid()
        decreases |nodes|
      {
        PopHead();
      }
    }
  }

  /** The announcements of one device in a queue. */
  function InfosOf(queue: seq<Announcement>, id: nat): seq<Info> {
    if queue == [] then []
    else (if queue[0].info.deviceID == id then [queue[0].info] else []) + InfosOf(queue[1..], id)
  }

  /** What a lookup of the device's info finds. */
  function InfoFor(ds: seq<Device>, id: nat): Option<Info> {
    match Find(ds, id)
    case None => None
    case Some(i) => Some(ds[i].info)
  }

  lemma FindAfterAdd(ds: seq<Device>, a: Announcement, id: nat)
    ensures InfoFor(Add(ds, a.info, a.handle, a.junk), id)
         == if a.info.deviceID == id then Some(a.info) else InfoFor(ds, id)
  {
    match Find(ds, a.info.deviceID)
    case Some(i) => FindAfterUpdate(ds, i, ds[i].(info := a.info, handle := a.handle), id);
    case None => assert Add(ds, a.info, a.handle, a.junk)[1..] == ds;
  }

  /** After a drain the registry holds the last announcement of every device that was announced, whatever
      other devices announced in between; a device without one keeps its info. */
  lemma {:induction false} DrainKeepsLast(ds: seq<Device>, queue: seq<Announcement>, id: nat)
    ensures var mine := InfosOf(queue, id);
      InfoFor(Run(ds, queue), id) == if mine == [] then InfoFor(ds, id) else Some(mine[|mine| - 1])
    decreases |queue|
  {
    if queue != [] {
      FindAfterAdd(ds, queue[0], id);
      hide InfoFor, Add;
      DrainKeepsLast(Add(ds, queue[0].info, queue[0].handle, queue[0].junk), queue[1..], id);
    }
  }
}
