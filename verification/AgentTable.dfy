/** The agent's table of data keys (`datainfo_func`) and what the agent does with C strings in it. */
module AgentTable {
  import opened Wrappers
  import opened CStrings

  /** One row: the key and whether it has a get and a set function. A NULL table is the empty one. */
  datatype Entry = Entry(key: string, hasGet: bool, hasSet: bool)

  /** The first row with the given key. */
  function FirstRow(table: seq<Entry>, key: string): (r: Option<nat>)
    ensures r.Some? ==>
      r.value < |table| && table[r.value].key == key && forall i | 0 <= i < r.value :: table[i].key != key
    ensures r.None? ==> forall i | 0 <= i < |table| :: table[i].key != key
  {
    if table == [] then None
    else if table[0].key == key then Some(0)
    else match FirstRow(table[1..], key) case Some(i) => Some(i + 1) case None => None
  }

  predicate Settable(table: seq<Entry>, key: string) {
    FirstRow(table, key).Some? && table[FirstRow(table, key).value].hasSet
  }

  predicate Gettable(table: seq<Entry>, key: string) {
    FirstRow(table, key).Some? && table[FirstRow(table, key).value].hasGet
  }

  /** Row j is the first one with the key. */
  predicate IsFirst(table: seq<Entry>, key: string, j: nat) {
    j < |table| && table[j].key == key && forall i | 0 <= i < j :: table[i].key != key
  }

  /** The first row with a key decides: whether it has a get function, and whether it has a set function. A key
      without a row has neither. */
  lemma FunctionsByRow(table: seq<Entry>, key: string)
    ensures forall j: nat | IsFirst(table, key, j) ::
      && FirstRow(table, key) == Some(j)
      && (Gettable(table, key) <==> table[j].hasGet) && (Settable(table, key) <==> table[j].hasSet)
    ensures (forall i | 0 <= i < |table| :: table[i].key != key) ==>
      FirstRow(table, key).None? && !Gettable(table, key) && !Settable(table, key)
  {
    hide FirstRow;
  }

  /** The table scan of the request handler. */
  method FindRow(table: seq<Entry>, key: string) returns (r: Option<nat>)
    ensures r == FirstRow(table, key)
  {
    var i := 0;
    while i < |table| && table[i].key != key
      invariant i <= |table|
      invariant forall j | 0 <= j < i :: table[j].key != key
    {
      i := i + 1;
    }
    r := if i < |table| then Some(i) else None;
  }

  /** What a callback or strcmp sees behind a pointer. */
  method ReadString(mem: array<char>, p: nat, ghost s: string) returns (r: string)
    requires Holds(mem[..], p, s)
    ensures r == s
  {
    r := "";
    var q: nat := p;
    ghost var t := s;
    while mem[q] != NUL
      invariant Holds(mem[..], q, t) && s == r + t
      decreases |t|
    {
      assert t == [t[0]] + t[1..];
      r, q, t := r + [mem[q]], q + 1, t[1..];
    }
  }

  /** The position at which an agent finds its ID in a request. */
  function IndexOf(ids: seq<nat>, me: nat): (r: Option<nat>)
    ensures r.Some? <==> me in ids
    ensures r.Some? ==> r.value < |ids| && ids[r.value] == me && me !in ids[..r.value]
  {
    if ids == [] then None
    else if ids[0] == me then Some(0)
    else
      match IndexOf(ids[1..], me)
      case Some(i) => assert ids[..i + 1] == [ids[0]] + ids[1..][..i]; Some(i + 1)
      case None => None
  }

  /** The ID scan of `recv_request`; -1 in the source is None here. */
  method FindId(ids: seq<nat>, me: nat) returns (r: Option<nat>)
    ensures r == IndexOf(ids, me)
  {
    for i := 0 to |ids|
      invariant me !in ids[..i]
    {
      if me == ids[i] {
        assert me in ids;
        assert ids[..IndexOf(ids, me).value] < ids[..i] || ids[..i] <= ids[..IndexOf(ids, me).value];
        return Some(i);
      }
    }
    assert ids[..|ids|] == ids;
    r := None;
  }
}
