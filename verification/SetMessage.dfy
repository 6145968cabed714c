/** SET end to end: the '|'-joined message of the server, the segment selection of the agent and the reply. */
module SetMessage {
  import opened Wrappers
  import opened CStrings
  import opened AgentTable
  import opened SetRequest
  import opened Messages

  // ----- server: build -----

  function Ids(devs: seq<DataInfo>): (r: seq<nat>)
    ensures |r| == |devs| && forall i | 0 <= i < |devs| :: r[i] == devs[i].deviceID
  {
    seq(|devs|, i requires 0 <= i < |devs| => devs[i].deviceID)
  }

  function Lists(devs: seq<DataInfo>): (r: seq<string>)
    ensures |r| == |devs| && forall i | 0 <= i < |devs| :: r[i] == devs[i].valueList
  {
    seq(|devs|, i requires 0 <= i < |devs| => devs[i].valueList)
  }

  function Message(lists: seq<string>): string {
    if lists == [] then "" else lists[0] + "|" + Message(lists[1..])
  }

  lemma {:induction false} MessageSnoc(lists: seq<string>, l: string)
    ensures Message(lists + [l]) == Message(lists) + l + "|"
  {
    if lists == [] {
      assert [l][1..] == [];
    } else {
      assert (lists + [l])[1..] == lists[1..] + [l];
      MessageSnoc(lists[1..], l);
    }
  }

  /** The loop of `datainfo_server_set_info` that fills the ID list and appends to the message buffer. */
  method Build(devs: seq<DataInfo>) returns (ids: seq<nat>, buffer: string)
    ensures ids == Ids(devs) && buffer == Message(Lists(devs))
  {
    ids, buffer := [], "";
    for i := 0 to |devs|
      invariant ids == Ids(devs[..i])
      invariant buffer == Message(Lists(devs[..i]))
    {
      assert Ids(devs[..i + 1]) == Ids(devs[..i]) + [devs[i].deviceID];
      assert Lists(devs[..i + 1]) == Lists(devs[..i]) + [devs[i].valueList];
      MessageSnoc(Lists(devs[..i]), devs[i].valueList);
      ids := ids + [devs[i].deviceID];
      buffer := buffer + devs[i].valueList;
      buffer := buffer + "|";
    }
    assert devs[..|devs|] == devs;
  }

  // ----- agent: select a segment -----

  /** The token of the (i+1)-th call of strtok(…, "|") and what the memory holds behind its terminator. */
  function SegmentAt(msg: string, i: nat): Option<(string, Option<string>)>
    decreases i
  {
    if !HasToken(msg, '|') then None
    else if i == 0 then Some((Token(msg, '|'), if TokenEnd(msg, '|') < |msg| then Some(Rest(msg, '|')) else None))
    else SegmentAt(Rest(msg, '|'), i - 1)
  }

  /** The pointer `seg` denotes the selection `sel`. */
  ghost predicate Selected(mem: seq<char>, seg: Option<nat>, sel: Option<(string, Option<string>)>) {
    match sel
    case None => seg == None
    case Some((s, after)) => seg.Some? && Holds(mem, seg.value, s) && Followed(mem, seg.value, s, after)
  }

  /** The pointers after a call of strtok on `t` at address `q`, where the message ends the buffer. */
  ghost predicate AtToken(mem: seq<char>, q: nat, t: string, seg: Option<nat>, save: nat) {
    && q + |t| + 1 == |mem| && save == q + |t| - |Rest(t, '|')|
    && seg == (if HasToken(t, '|') then Some(q + Skip(t, '|')) else None)
    && Holds(mem, q + Skip(t, '|'), Token(t, '|')) && Holds(mem, save, Rest(t, '|'))
  }

  /** Once strtok has given NULL it keeps giving NULL. */
  lemma SegmentStep(t: string, k: nat)
    requires k > 0
    ensures SegmentAt(t, k) == SegmentAt(Rest(t, '|'), k - 1)
  {
  }

  /** One call of strtok(…, "|"). */
  method NextSegment(mem: array<char>, q: nat, ghost t: string) returns (seg: Option<nat>, save: nat)
    requires Holds(mem[..], q, t) && mem.Length == q + |t| + 1
    modifies mem
    ensures AtToken(mem[..], q, t, seg, save)
  {
    seg, save := NextToken(mem, q, '|', t);
  }

  /** The strtok("|") loop of the request handler. */
  method SelectSegment(mem: array<char>, p: nat, ghost msg: string, idx: nat) returns (seg: Option<nat>)
    requires Holds(mem[..], p, msg) && mem.Length == p + |msg| + 1
    modifies mem
    ensures Selected(mem[..], seg, SegmentAt(msg, idx))
  {
    hide HasToken, Skip, TokenEnd, Token, Rest, Holds;
    ghost var t, q: nat := msg, p;
    var k, save := idx, p;
    seg, save := NextSegment(mem, p, msg);
    while k != 0
      invariant SegmentAt(msg, idx) == SegmentAt(t, k)
      invariant AtToken(mem[..], q, t, seg, save)
    {
      ghost var rest := Rest(t, '|');
      SegmentStep(t, k);
      q, t, k := save, rest, k - 1;
      seg, save := NextSegment(mem, save, rest);
    }
  }

  /** The SET branch of the request handler as a function of the message: `idx` is the agent's position in
      the ID list for SET, and None for SET_SAME_VALUE. */
  function SetReply(msg: string, idx: Option<nat>, table: seq<Entry>, f: SetFunction): Result<Progress, Fault> {
    match idx
    case None => ApplySegment(table, f, msg, None, Progress([], ""))
    case Some(i) =>
      match SegmentAt(msg, i)
      case None => Err(NoSegment)
      case Some((s, after)) => ApplySegment(table, f, s, after, Progress([], ""))
  }

  /** The SET branch run on the message buffer. */
  method HandleSet(mem: array<char>, ghost msg: string, idx: Option<nat>, table: seq<Entry>, f: SetFunction)
    returns (r: Result<Progress, Fault>)
    requires Holds(mem[..], 0, msg) && mem.Length == |msg| + 1
    modifies mem
    ensures r == SetReply(msg, idx, table, f)
  {
    if idx.None? {
      r := ApplySegmentInPlace(mem, 0, msg, None, table, f);
    } else {
      var seg := SelectSegment(mem, 0, msg, idx.value);
      if seg.None? {
        return Err(NoSegment);
      }
      ghost var (segment, after) := SegmentAt(msg, idx.value).value;
      r := ApplySegmentInPlace(mem, seg.value, segment, after, table, f);
    }
  }

  // ----- end to end -----

  ghost predicate BarFree(lists: seq<string>) {
    forall i | 0 <= i < |lists| :: '|' !in lists[i]
  }

  /** Index of the (i+1)-th non-empty list. */
  function Source(lists: seq<string>, i: nat): (r: Option<nat>)
    ensures r.Some? ==> r.value < |lists| && lists[r.value] != ""
  {
    if lists == [] then None
    else if lists[0] != "" && i == 0 then Some(0)
    else
      match Source(lists[1..], if lists[0] == "" then i else i - 1)
      case None => None
      case Some(j) => Some(j + 1)
  }

  /** A leading delimiter changes no selection. */
  lemma SegmentSkip(s: string, i: nat)
    ensures SegmentAt(['|'] + s, i) == SegmentAt(s, i)
  {
    SkipDelimiter(s, '|');
    hide Token, Rest, HasToken, TokenEnd;
  }

  /** Selecting from a message that starts with a '|'-free list. */
  lemma SegmentCons(l: string, m: string, i: nat)
    requires '|' !in l
    ensures SegmentAt(l + "|" + m, i) ==
      if l == "" then SegmentAt(m, i) else if i == 0 then Some((l, Some(m))) else SegmentAt(m, i - 1)
  {
    if l == "" {
      assert l + "|" + m == ['|'] + m;
      SegmentSkip(m, i);
    } else {
      assert l + "|" + m == l + (['|'] + m) && (['|'] + m)[1..] == m;
      TokenAt(l, ['|'] + m, '|');
    }
  }

  /** The agent at position i selects exactly the i-th non-empty list of the server's message. */
  lemma {:induction false} SegmentIsSource(lists: seq<string>, i: nat)
    requires BarFree(lists)
    ensures SegmentAt(Message(lists), i) ==
      match Source(lists, i)
      case None => None
      case Some(j) => Some((lists[j], Some(Message(lists[j + 1..]))))
  {
    if lists != [] {
      SegmentCons(lists[0], Message(lists[1..]), i);
      assert Message(lists) == lists[0] + "|" + Message(lists[1..]);
      hide SegmentAt, Message;
      if lists[0] == "" || i > 0 {
        var i' := if lists[0] == "" then i else i - 1;
        SegmentIsSource(lists[1..], i');
        var j := Source(lists[1..], i');
        if j.Some? { assert lists[1..][j.value + 1..] == lists[j.value + 2..]; }
      }
    }
  }

  /** An agent gets its own list exactly if no list up to its own is empty. */
  lemma {:induction false} SourceIsOwn(lists: seq<string>, i: nat)
    requires i < |lists|
    ensures Source(lists, i) == Some(i) <==> forall j | 0 <= j <= i :: lists[j] != ""
    ensures Source(lists, i).Some? ==> Source(lists, i).value >= i
  {
    if lists[0] != "" {
      if i > 0 {
        SourceIsOwn(lists[1..], i - 1);
        assert forall j | 0 < j <= i :: lists[j] == lists[1..][j - 1];
        assert forall j | 0 <= j <= i - 1 :: lists[1..][j] == lists[j + 1];
      }
    } else if i < |lists| - 1 {
      SourceIsOwn(lists[1..], i);
    } else {
      SourceBound(lists[1..], i);
    }
  }

  lemma {:induction false} SourceBound(lists: seq<string>, i: nat)
    ensures i >= |lists| ==> Source(lists, i) == None
  {
    if lists != [] {
      SourceBound(lists[1..], if lists[0] == "" then i else if i == 0 then 0 else i - 1);
    }
  }

  // ----- any value lists -----

  /** The pieces between bars of all lists: a list may have none, one, or, with bars in it, several. */
  function Pieces(lists: seq<string>): seq<string> {
    if lists == [] then [] else Tokens(lists[0], '|') + Pieces(lists[1..])
  }

  /** The tokens of the server's message are the pieces of its lists. */
  lemma {:induction false} MessageTokens(lists: seq<string>)
    ensures Tokens(Message(lists), '|') == Pieces(lists)
  {
    if lists != [] {
      TokensConcat(lists[0], Message(lists[1..]), '|');
      MessageTokens(lists[1..]);
    }
  }

  /** The (i+1)-th call of strtok returns the i-th token. */
  lemma {:induction false} SegmentIsToken(msg: string, i: nat)
    ensures SegmentAt(msg, i).Some? <==> i < |Tokens(msg, '|')|
    ensures SegmentAt(msg, i).Some? ==> SegmentAt(msg, i).value.0 == Tokens(msg, '|')[i]
    decreases i
  {
    hide HasToken, Token, Rest;
    if HasToken(msg, '|') && i > 0 { SegmentIsToken(Rest(msg, '|'), i - 1); }
  }

  predicate EndsWithBar(msg: string) {
    msg == "" || msg[|msg| - 1] == '|'
  }

  lemma {:induction false} MessageEnds(lists: seq<string>)
    ensures EndsWithBar(Message(lists))
  {
    if lists != [] { MessageEnds(lists[1..]); }
  }

  lemma RestEndsWithBar(msg: string)
    requires EndsWithBar(msg) && HasToken(msg, '|')
    ensures TokenEnd(msg, '|') < |msg| && EndsWithBar(Rest(msg, '|'))
  {
    var t, e := Token(msg, '|'), TokenEnd(msg, '|');
    TokenClean(msg, '|');
    assert msg[e - 1] == t[|t| - 1] && t[|t| - 1] in t;
    hide Token, TokenEnd, Skip;
  }

  /** In the server's message every segment is followed by something. */
  lemma {:induction false} SegmentFollowed(msg: string, i: nat)
    requires EndsWithBar(msg) && SegmentAt(msg, i).Some?
    ensures SegmentAt(msg, i).value.1.Some?
    decreases i
  {
    hide Token, Rest, TokenEnd, HasToken, EndsWithBar;
    RestEndsWithBar(msg);
    if i > 0 { SegmentFollowed(Rest(msg, '|'), i - 1); }
  }

  /** For any value lists: the agent at position i selects the i-th piece of all lists, if there are so many. */
  lemma SegmentIsPiece(lists: seq<string>, i: nat)
    ensures var sel := SegmentAt(Message(lists), i);
      && (sel.Some? <==> i < |Pieces(lists)|)
      && (sel.Some? ==> sel.value.0 == Pieces(lists)[i] && sel.value.1.Some?)
  {
    hide SegmentAt, Tokens, Pieces, Message;
    MessageTokens(lists);
    SegmentIsToken(Message(lists), i);
    MessageEnds(lists);
    if SegmentAt(Message(lists), i).Some? { SegmentFollowed(Message(lists), i); }
  }

  /** Which token of which list the k-th piece is. */
  function Origin(lists: seq<string>, k: nat): (r: Option<(nat, nat)>)
    ensures r.Some? ==> r.value.0 < |lists| && r.value.1 < |Tokens(lists[r.value.0], '|')|
  {
    if lists == [] then None
    else if k < |Tokens(lists[0], '|')| then Some((0, k))
    else
      match Origin(lists[1..], k - |Tokens(lists[0], '|')|)
      case None => None
      case Some((j, o)) => Some((j + 1, o))
  }

  /** The k-th piece is token o of list j exactly if k counts the pieces of the lists before j and then o. */
  lemma {:induction false} OriginIff(lists: seq<string>, k: nat, j: nat, o: nat)
    requires j < |lists| && o < |Tokens(lists[j], '|')|
    ensures Origin(lists, k) == Some((j, o)) <==> k == |Pieces(lists[..j])| + o
    ensures Origin(lists, k) == Some((j, o)) ==> k < |Pieces(lists)| && Pieces(lists)[k] == Tokens(lists[j], '|')[o]
  {
    hide Tokens;
    var n := |Tokens(lists[0], '|')|;
    if j == 0 {
      assert Pieces(lists[..0]) == [];
    } else {
      assert lists[..j][0] == lists[0] && lists[..j][1..] == lists[1..][..j - 1];
      if k >= n { OriginIff(lists[1..], k - n, j - 1, o); }
    }
  }

  /** List i is the i-th piece: it is one piece by itself, and the lists before it have i pieces together. */
  predicate OwnPiece(lists: seq<string>, i: nat) {
    i < |lists| && |Pieces(lists[..i])| == i && Tokens(lists[i], '|') == [lists[i]]
  }

  /** The agent at position i selects its own whole list, from its own place in the message, exactly in that
      case. */
  lemma OwnPieceIff(lists: seq<string>, i: nat)
    requires i < |lists|
    ensures OwnPiece(lists, i) <==> Origin(lists, i) == Some((i, 0)) && Tokens(lists[i], '|')[0] == lists[i]
    ensures OwnPiece(lists, i) ==> i < |Pieces(lists)| && Pieces(lists)[i] == lists[i]
  {
    if Tokens(lists[i], '|') != [] {
      OriginIff(lists, i, i, 0);
    }
  }

  /** Without bars, that is: no list up to its own is empty. */
  lemma {:induction false} OwnPieceBarFree(lists: seq<string>, i: nat)
    requires i < |lists| && BarFree(lists[..i + 1])
    ensures OwnPiece(lists, i) <==> forall j | 0 <= j <= i :: lists[j] != ""
  {
    assert lists[..i + 1][i] == lists[i];
    assert forall j | 0 <= j < i :: lists[..i + 1][j] == lists[..i][j];
    TokensWord(lists[i], '|');
    PiecesBarFree(lists[..i]);
  }

  lemma {:induction false} PiecesBarFree(lists: seq<string>)
    requires BarFree(lists)
    ensures |Pieces(lists)| <= |lists|
    ensures |Pieces(lists)| == |lists| <==> forall j | 0 <= j < |lists| :: lists[j] != ""
  {
    if lists != [] {
      TokensWord(lists[0], '|');
      PiecesBarFree(lists[1..]);
      assert forall j | 0 < j < |lists| :: lists[j] == lists[1..][j - 1];
      assert forall j | 0 <= j < |lists| - 1 :: lists[1..][j] == lists[j + 1];
    }
  }

  /** A bar in the first of two lists: the second device selects the second half of the first list. */
  lemma BarShifts(a: string, b: string, c: string)
    requires a != "" && '|' !in a && b != "" && '|' !in b
    ensures var sel := SegmentAt(Message([a + "|" + b, c]), 1); sel.Some? && sel.value.0 == b
  {
    var lists := [a + "|" + b, c];
    TokensConcat(a, b, '|');
    TokensWord(a, '|');
    TokensWord(b, '|');
    assert Pieces(lists)[1] == b;
    SegmentIsPiece(lists, 1);
  }

  /** End to end: an agent whose list is the piece at its position treats it as if that list had been sent to it
      alone with SET_SAME_VALUE, exactly if the list does not end in a bare settable key. */
  lemma SetEndToEnd(devs: seq<DataInfo>, me: nat, table: seq<Entry>, f: SetFunction)
    requires me in Ids(devs) && OwnPiece(Lists(devs), IndexOf(Ids(devs), me).value)
    ensures var i := IndexOf(Ids(devs), me);
      SetReply(Message(Lists(devs)), i, table, f) == SetReply(devs[i.value].valueList, None, table, f)
      <==> !OpenEnded(table, devs[i.value].valueList)
  {
    hide HasToken, OpenWords, ApplySegment, Message, Pieces, SegmentAt, Tokens;
    var i := IndexOf(Ids(devs), me).value;
    OwnPieceIff(Lists(devs), i);
    SegmentIsPiece(Lists(devs), i);
    AfterMatters(table, f, devs[i].valueList, SegmentAt(Message(Lists(devs)), i).value.1, Progress([], ""));
  }

  /** With well-formed pairs the set functions are called on the device's own pairs, in order: one call for each
      pair the first row of whose key has a set function. */
  lemma SetEndToEndCalls(devs: seq<DataInfo>, i: nat, table: seq<Entry>, f: SetFunction)
    requires i < |devs| && OwnPiece(Lists(devs), i) && AllWellFormed(Tokens(devs[i].valueList, ';'))
    ensures var r, own := SetReply(Message(Lists(devs)), Some(i), table, f), Tokens(devs[i].valueList, ';');
      r == Ok(ApplyWords(table, f, own, Progress([], ""))) && CallsFor(table, own, r.value.calls)
  {
    hide HasToken, Tokens, ApplySegment, ApplyWords, AllWellFormed, Message, Pieces, SegmentAt, CallsFor;
    OwnPieceIff(Lists(devs), i);
    SegmentIsPiece(Lists(devs), i);
    var after := SegmentAt(Message(Lists(devs)), i).value.1;
    WellFormedSegment(table, f, devs[i].valueList, after, Progress([], ""));
    SegmentCalls(table, f, devs[i].valueList, after);
  }

  /** When an agent can handle its part of the server's message, and how it fails, for any value lists: with
      fewer pieces than its position it has no segment; with a pair of colons only it has a NULL key; nothing
      else goes wrong. */
  lemma SetReplyOkIff(lists: seq<string>, i: nat, table: seq<Entry>, f: SetFunction)
    ensures var r, pieces := SetReply(Message(lists), Some(i), table, f), Pieces(lists);
      && (r.Ok? <==> i < |pieces| && AllKeyed(Tokens(pieces[i], ';')))
      && (r == Err(NoSegment) <==> i >= |pieces|)
      && (r == Err(NullKey) <==> i < |pieces| && !AllKeyed(Tokens(pieces[i], ';')))
  {
    hide HasToken, ApplySegment, Message, Pieces, AllKeyed, OpenEnded, Tokens, SegmentAt;
    SegmentIsPiece(lists, i);
    if i < |Pieces(lists)| {
      SegmentOkIff(table, f, Pieces(lists)[i], SegmentAt(Message(lists), i).value.1, Progress([], ""));
    }
  }

  /** The i-th non-empty list, in terms of the list of non-empty ones. */
  lemma {:induction false} SourceIsNonEmpty(lists: seq<string>, i: nat)
    ensures Source(lists, i).Some? <==> i < |NonEmpty(lists)|
    ensures Source(lists, i).Some? ==> lists[Source(lists, i).value] == NonEmpty(lists)[i]
  {
    if lists != [] {
      SourceIsNonEmpty(lists[1..], if lists[0] == "" then i else if i == 0 then 0 else i - 1);
    }
  }

  /** Two devices, and nothing to set on the first: the second finds no segment. */
  lemma EmptyListFails(v: string, table: seq<Entry>, f: SetFunction)
    requires v != "" && '|' !in v
    ensures SetReply(Message(["", v]), Some(1), table, f) == Err(NoSegment)
  {
    TokensWord("", '|');
    TokensWord(v, '|');
    assert Pieces([v][1..]) == [];
    assert Pieces(["", v]) == [] + ([v] + []);
    SetReplyOkIff(["", v], 1, table, f);
  }
}
