/** The request and reply messages of the DataInfo topics, and the reply reader keyed by `random_seq`. */
module Messages {
  datatype Kind = Get | Set | SetSameValue | Import | Export | Unknown

  datatype Request = Request(idList: seq<nat>, kind: Kind, randomSeq: nat, msg: string, binary: seq<bv8>)

  datatype Reply = Reply(deviceID: nat, kind: Kind, randomSeq: nat, msg: string, binary: seq<bv8>)

  /** One device and its text, in SET requests and in call results. */
  datatype DataInfo = DataInfo(deviceID: nat, valueList: string)

  /** The replies of one instance (key), in arrival order. */
  function Instance(rs: seq<Reply>, q: nat): seq<Reply> {
    if rs == [] then []
    else if rs[0].randomSeq == q then [rs[0]] + Instance(rs[1..], q)
    else Instance(rs[1..], q)
  }

  /** The replies of all other instances, in arrival order. */
  function Others(rs: seq<Reply>, q: nat): seq<Reply> {
    if rs == [] then []
    else if rs[0].randomSeq == q then Others(rs[1..], q)
    else [rs[0]] + Others(rs[1..], q)
  }

  /** Position of the sample that the next take of an instance returns. */
  function FirstOf(rs: seq<Reply>, q: nat): (i: nat)
    ensures i <= |rs|
    ensures i < |rs| ==> rs[i].randomSeq == q
    ensures i < |rs| <==> Instance(rs, q) != []
  {
    if rs == [] || rs[0].randomSeq == q then 0 else 1 + FirstOf(rs[1..], q)
  }

  function Drop<T>(xs: seq<T>, i: nat): seq<T>
    requires i < |xs|
  {
    xs[..i] + xs[i + 1..]
  }

  /** One take removes the first reply of the instance and nothing else. */
  lemma {:induction false} TakeFirst(rs: seq<Reply>, q: nat)
    requires Instance(rs, q) != []
    ensures var i := FirstOf(rs, q);
      && Instance(rs, q) == [rs[i]] + Instance(Drop(rs, i), q)
      && Others(rs, q) == Others(Drop(rs, i), q)
  {
    var i := FirstOf(rs, q);
    if i == 0 {
      assert Drop(rs, 0) == rs[1..];
    } else {
      TakeFirst(rs[1..], q);
      assert Drop(rs, i) == [rs[0]] + Drop(rs[1..], i - 1);
      assert Drop(rs, i)[1..] == Drop(rs[1..], i - 1);
    }
  }

  lemma {:induction false} NothingLeft(rs: seq<Reply>, q: nat)
    ensures Instance(rs, q) == [] ==> Others(rs, q) == rs
    ensures Instance(Others(rs, q), q) == []
    ensures forall r | r in Instance(rs, q) :: r in rs && r.randomSeq == q
  {
    if rs != [] { NothingLeft(rs[1..], q); }
  }

  lemma {:induction false} OthersConcat(a: seq<Reply>, b: seq<Reply>, q: nat)
    ensures Others(a + b, q) == Others(a, q) + Others(b, q)
    ensures Instance(a + b, q) == Instance(a, q) + Instance(b, q)
  {
    if a == [] {
      assert a + b == b;
    } else {
      assert (a + b)[1..] == a[1..] + b;
      OthersConcat(a[1..], b, q);
    }
  }

  /** Draining one key leaves the replies of every other key exactly as they were. */
  lemma {:induction false} DrainKeepsOthers(rs: seq<Reply>, q: nat, q': nat)
    requires q != q'
    ensures Instance(Others(rs, q), q') == Instance(rs, q')
  {
    if rs != [] { DrainKeepsOthers(rs[1..], q, q'); }
  }

  /** Nothing is lost or made up by splitting off an instance. */
  lemma {:induction false} DrainConserves(rs: seq<Reply>, q: nat)
    ensures multiset(rs) == multiset(Instance(rs, q)) + multiset(Others(rs, q))
  {
    if rs != [] {
      DrainConserves(rs[1..], q);
      assert rs == [rs[0]] + rs[1..];
    }
  }
}
