/** GET requests: the agent's reply builder with its growing result buffer. */
module GetReply {
  import opened CStrings
  import opened AgentTable

  /** Get functions may depend on everything read before: text for a key, given the earlier keys read. */
  type GetFunction = (seq<string>, string) -> string

  type KeyValue = (string, string)

  const UINT_RANGE: nat := 0x1_0000_0000

  /** One answered key: rows without a get function leave the value buffer empty. */
  function Answer(table: seq<Entry>, get: GetFunction, asked: seq<string>, key: string): KeyValue {
    (key, if Gettable(table, key) then get(asked, key) else "")
  }

  /** The keys of a request that the table knows, in request order. */
  function Known(table: seq<Entry>, words: seq<string>): seq<string> {
    if words == [] then []
    else (if FirstRow(table, words[0]).Some? then [words[0]] else []) + Known(table, words[1..])
  }

  /** The answers to the known keys of a request. */
  function Answers(table: seq<Entry>, get: GetFunction, asked: seq<string>, words: seq<string>): seq<KeyValue>
    decreases |words|
  {
    if words == [] then []
    else if FirstRow(table, words[0]).None? then Answers(table, get, asked, words[1..])
    else
      var asked' := if Gettable(table, words[0]) then asked + [words[0]] else asked;
      [Answer(table, get, asked, words[0])] + Answers(table, get, asked', words[1..])
  }

  /** `key:value;` for each answer. */
  function Render(kvs: seq<KeyValue>): string {
    if kvs == [] then "" else kvs[0].0 + ":" + kvs[0].1 + ";" + Render(kvs[1..])
  }

  /** The reply text for a GET message. */
  function Reply(table: seq<Entry>, get: GetFunction, msg: string): string {
    Render(Answers(table, get, [], Tokens(msg, ';')))
  }

  /** The known keys are answered, each once per request, in request order; no other key is. */
  lemma {:induction false} AnswersKeys(table: seq<Entry>, get: GetFunction, asked: seq<string>, words: seq<string>)
    ensures |Answers(table, get, asked, words)| == |Known(table, words)|
    ensures forall i | 0 <= i < |Known(table, words)| ::
      Answers(table, get, asked, words)[i].0 == Known(table, words)[i]
    decreases |words|
  {
    if words != [] {
      var asked' := if Gettable(table, words[0]) then asked + [words[0]] else asked;
      AnswersKeys(table, get, if FirstRow(table, words[0]).None? then asked else asked', words[1..]);
    }
  }

  lemma KnownCons(table: seq<Entry>, words: seq<string>)
    requires words != []
    ensures Known(table, words)
         == (if FirstRow(table, words[0]).Some? then [words[0]] else []) + Known(table, words[1..])
  {
  }

  /** A request with one more key knows one more exactly if a row has that key. */
  lemma {:induction false} KnownSnoc(table: seq<Entry>, words: seq<string>, w: string)
    ensures Known(table, words + [w])
         == Known(table, words) + if exists i :: 0 <= i < |table| && table[i].key == w then [w] else []
  {
    hide FirstRow;
    if words == [] {
      assert words + [w] == [w] && [w][1..] == [];
    } else {
      assert (words + [w])[0] == words[0] && (words + [w])[1..] == words[1..] + [w];
      hide *;
      KnownCons(table, words);
      KnownCons(table, words + [w]);
      KnownSnoc(table, words[1..], w);
    }
  }

  /** Some function is called for the key: the first row with it has a get function. */
  predicate HasGetter(table: seq<Entry>, key: string) {
    exists j | 0 <= j < |table| :: IsFirst(table, key, j) && table[j].hasGet
  }

  /** The keys for which a get function is called. */
  function WithGet(table: seq<Entry>, keys: seq<string>): seq<string> {
    if keys == [] then [] else (if HasGetter(table, keys[0]) then [keys[0]] else []) + WithGet(table, keys[1..])
  }

  lemma GetterByRow(table: seq<Entry>, key: string)
    ensures Gettable(table, key) <==> HasGetter(table, key)
  {
    FunctionsByRow(table, key);
    if Gettable(table, key) { assert IsFirst(table, key, FirstRow(table, key).value); }
  }

  /** The value of an answer, by the first row of its key: what its get function returns after the calls `asked`, or
      nothing if it has no get function. */
  predicate ValueByRow(table: seq<Entry>, get: GetFunction, asked: seq<string>, kv: KeyValue) {
    forall j | 0 <= j < |table| && IsFirst(table, kv.0, j) ::
      kv.1 == if table[j].hasGet then get(asked, kv.0) else ""
  }

  lemma AnswerByRow(table: seq<Entry>, get: GetFunction, asked: seq<string>, key: string)
    ensures ValueByRow(table, get, asked, Answer(table, get, asked, key))
  {
    FunctionsByRow(table, key);
  }

  /** The calls before the i-th answer are those of the earlier keys. */
  lemma AskedBefore(table: seq<Entry>, asked: seq<string>, w: string, keys: seq<string>, i: nat)
    requires i <= |keys|
    ensures var known, asked' := [w] + keys, if Gettable(table, w) then asked + [w] else asked;
      asked + WithGet(table, known[..i + 1]) == asked' + WithGet(table, keys[..i])
  {
    GetterByRow(table, w);
    var known := [w] + keys;
    assert known[..i + 1][0] == w && known[..i + 1][1..] == keys[..i];
    hide Gettable, HasGetter;
    var rest := WithGet(table, keys[..i]);
    assert WithGet(table, known[..i + 1]) == (if HasGetter(table, w) then [w] else []) + rest;
    hide WithGet;
    assert asked + ([w] + rest) == asked + [w] + rest && asked + ([] + rest) == asked + rest;
  }

  /** Every answer has the value that its key's first row gives, after the get calls for the earlier keys. */
  lemma {:induction false} AnswersValues(table: seq<Entry>, get: GetFunction, asked: seq<string>, words: seq<string>)
    ensures var kvs, known := Answers(table, get, asked, words), Known(table, words);
      && |kvs| == |known|
      && forall i | 0 <= i < |kvs| :: ValueByRow(table, get, asked + WithGet(table, known[..i]), kvs[i])
    decreases |words|
  {
    AnswersKeys(table, get, asked, words);
    if words != [] {
      var w, rest := words[0], words[1..];
      if FirstRow(table, w).None? {
        AnswersValues(table, get, asked, rest);
        assert [] + Known(table, rest) == Known(table, rest);
      } else {
        var asked' := if Gettable(table, w) then asked + [w] else asked;
        var kvs, keys := Answers(table, get, asked', rest), Known(table, rest);
        AnswersValues(table, get, asked', rest);
        AnswerByRow(table, get, asked, w);
        assert Answers(table, get, asked, words) == [Answer(table, get, asked, w)] + kvs;
        assert Known(table, words) == [w] + keys;
        hide Gettable, FirstRow, Answer, Answers, Known, ValueByRow;
        ValuesMore(table, get, asked, asked', Answer(table, get, asked, w), w, kvs, keys);
      }
    }
  }

  lemma ValuesMore(table: seq<Entry>, get: GetFunction, asked: seq<string>, asked': seq<string>, kv: KeyValue,
          w: string, kvs: seq<KeyValue>, keys: seq<string>)
    requires asked' == (if Gettable(table, w) then asked + [w] else asked) && |kvs| == |keys|
    requires ValueByRow(table, get, asked, kv)
    requires forall i | 0 <= i < |kvs| :: ValueByRow(table, get, asked' + WithGet(table, keys[..i]), kvs[i])
    ensures var all, known := [kv] + kvs, [w] + keys;
      forall i | 0 <= i < |all| :: ValueByRow(table, get, asked + WithGet(table, known[..i]), all[i])
  {
    var all, known := [kv] + kvs, [w] + keys;
    assert known[..0] == [] && WithGet(table, []) == [] && asked + [] == asked;
    hide Gettable, ValueByRow, WithGet;
    forall i | 0 <= i < |all| ensures ValueByRow(table, get, asked + WithGet(table, known[..i]), all[i]) {
      if i > 0 { AskedBefore(table, asked, w, keys, i - 1); }
    }
  }

  ghost predicate PlainItems(kvs: seq<KeyValue>) {
    forall i | 0 <= i < |kvs| :: ';' !in kvs[i].0 && ';' !in kvs[i].1
  }

  /** A client that splits the reply at ';' gets back `key:value` for each answer, then an empty piece. */
  lemma {:induction false} RenderSplits(kvs: seq<KeyValue>)
    requires PlainItems(kvs)
    ensures Split(Render(kvs), ';') == seq(|kvs|, i requires 0 <= i < |kvs| => kvs[i].0 + ":" + kvs[i].1) + [""]
  {
    hide Split;
    if kvs == [] {
      SplitWord("", ';');
    } else {
      var item, tail := kvs[0].0 + ":" + kvs[0].1, kvs[1..];
      assert Render(kvs) == item + ";" + Render(tail);
      SplitCons(item, Render(tail), ';');
      RenderSplits(tail);
      var f := seq(|kvs|, i requires 0 <= i < |kvs| => kvs[i].0 + ":" + kvs[i].1);
      assert f == [item] + seq(|tail|, i requires 0 <= i < |tail| => tail[i].0 + ":" + tail[i].1);
    }
  }

  // ----- the buffer -----

  lemma {:induction false} HoldsChars(mem: seq<char>, p: nat, s: string)
    ensures Holds(mem, p, s) <==>
      p + |s| < |mem| && mem[p + |s|] == NUL && NulFree(s) && mem[p..p + |s|] == s
    decreases |s|
  {
    if s != "" {
      HoldsChars(mem, p + 1, s[1..]);
      assert s == [s[0]] + s[1..];
      if p + |s| < |mem| {
        assert mem[p..p + |s|] == [mem[p]] + mem[p + 1..p + |s|];
      }
    }
  }

  /** strlen of the string at the start of a buffer. */
  method Strlen(buf: array<char>, ghost cur: string) returns (n: nat)
    requires Holds(buf[..], 0, cur)
    ensures n == |cur|
  {
    n := 0;
    ghost var t := cur;
    while buf[n] != NUL
      invariant n + |t| == |cur| && Holds(buf[..], n, t)
      decreases |t|
    {
      n, t := n + 1, t[1..];
    }
  }

  /** strcat onto a buffer that is large enough. */
  method Strcat(buf: array<char>, ghost cur: string, s: string)
    requires Holds(buf[..], 0, cur) && NulFree(s) && |cur| + |s| < buf.Length
    modifies buf
    ensures Holds(buf[..], 0, cur + s)
  {
    HoldsChars(buf[..], 0, cur);
    var e := Strlen(buf, cur);
    for i := 0 to |s|
      invariant buf[..e + i] == cur + s[..i]
    {
      buf[e + i] := s[i];
      assert buf[..e + i + 1] == cur + s[..i] + [s[i]];
      assert s[..i + 1] == s[..i] + [s[i]];
    }
    buf[e + |s|] := NUL;
    assert s[..|s|] == s && buf[..][0..|cur + s|] == cur + s;
    HoldsChars(buf[..], 0, cur + s);
  }

  /** realloc to a larger size: the contents move along. */
  method Realloc(buf: array<char>, size: nat, ghost cur: string) returns (r: array<char>)
    requires Holds(buf[..], 0, cur) && buf.Length <= size
    ensures fresh(r) && r.Length == size && Holds(r[..], 0, cur)
  {
    r := new char[size];
    for i := 0 to buf.Length
      invariant r[..i] == buf[..i]
    {
      r[i] := buf[i];
    }
    HoldsChars(buf[..], 0, cur);
    assert r[..buf.Length] == buf[..];
    assert r[..][0..|cur|] == buf[..][0..|cur|];
    HoldsChars(r[..], 0, cur);
  }

  /** The four appends of one answer, with the compare-and-double growth before them. The size arithmetic
      is that of C's `unsigned int`. */
  method AppendAnswer(buf: array<char>, ghost cur: string, key: string, value: string) returns (r: array<char>)
    requires Holds(buf[..], 0, cur) && NulFree(key) && NulFree(value)
    requires buf.Length < UINT_RANGE && 2 * (|cur| + |key| + |value| + 2) < UINT_RANGE
    modifies buf
    ensures r == buf || fresh(r)
    ensures r.Length < UINT_RANGE && Holds(r[..], 0, cur + key + ":" + value + ";")
  {
    r := buf;
    var len := Strlen(r, cur);
    var newSize := (len + |key| + |value| + 2) % UINT_RANGE;
    if r.Length <= newSize {
      r := Realloc(r, (newSize * 2) % UINT_RANGE, cur);
    }
    Strcat(r, cur, key);
    Strcat(r, cur + key, ":");
    Strcat(r, cur + key + ":", value);
    Strcat(r, cur + key + ":" + value, ";");
  }

  lemma {:induction false} HoldsNulFree(mem: seq<char>, p: nat, s: string)
    requires Holds(mem, p, s)
    ensures NulFree(s)
  {
    HoldsChars(mem, p, s);
  }

  /** The reply text still to come when `t` is left of the message. */
  function Pending(table: seq<Entry>, get: GetFunction, asked: seq<string>, t: string): string {
    Render(Answers(table, get, asked, Tokens(t, ';')))
  }

  function AskedAfter(table: seq<Entry>, asked: seq<string>, key: string): seq<string> {
    if Gettable(table, key) then asked + [key] else asked
  }

  /** The text that one requested key adds. */
  function Item(table: seq<Entry>, get: GetFunction, asked: seq<string>, key: string): string {
    if FirstRow(table, key).Some? then key + ":" + Answer(table, get, asked, key).1 + ";" else ""
  }

  lemma PendingStep(table: seq<Entry>, get: GetFunction, asked: seq<string>, t: string)
    ensures Pending(table, get, asked, t) ==
      if HasToken(t, ';') then
        var key := Token(t, ';');
        Item(table, get, asked, key) + Pending(table, get, AskedAfter(table, asked, key), Rest(t, ';'))
      else ""
  {
    hide FirstRow;
    if HasToken(t, ';') {
      assert Tokens(t, ';')[1..] == Tokens(Rest(t, ';'), ';');
    }
  }

  /** The table scan and the append for one requested key. */
  method AnswerKey(buf: array<char>, ghost cur: string, table: seq<Entry>, get: GetFunction,
          asked: seq<string>, key: string)
    returns (r: array<char>, asked': seq<string>)
    requires Holds(buf[..], 0, cur) && NulFree(key) && NulFree(get(asked, key)) && buf.Length < UINT_RANGE
    requires 2 * |cur + Item(table, get, asked, key)| < UINT_RANGE
    modifies buf
    ensures r == buf || fresh(r)
    ensures r.Length < UINT_RANGE && Holds(r[..], 0, cur + Item(table, get, asked, key))
    ensures asked' == AskedAfter(table, asked, key)
  {
    hide Holds, NulFree;
    r, asked' := buf, asked;
    var row := FindRow(table, key);
    if row.Some? {
      var value := "";
      if table[row.value].hasGet {
        value, asked' := get(asked, key), asked + [key];
      }
      ghost var item := key + ":" + value + ";";
      assert item == Item(table, get, asked, key);
      assert |cur + item| == |cur| + |key| + |value| + 2;
      assert cur + key + ":" + value + ";" == cur + item;
      if value == "" { NoText(); }
      r := AppendAnswer(buf, cur, key, value);
    } else {
      assert cur + "" == cur;
    }
  }

  lemma NoText()
    ensures NulFree("")
  {
  }

  /** One requested key, read from the message. */
  method AnswerToken(mem: array<char>, p: nat, ghost word: string, buf: array<char>, ghost cur: string,
          table: seq<Entry>, get: GetFunction, asked: seq<string>)
    returns (r: array<char>, asked': seq<string>)
    requires Holds(mem[..], p, word) && Holds(buf[..], 0, cur) && buf.Length < UINT_RANGE
    requires forall asked, key :: NulFree(get(asked, key))
    requires 2 * |cur + Item(table, get, asked, word)| < UINT_RANGE
    modifies buf
    ensures r == buf || fresh(r)
    ensures r.Length < UINT_RANGE && Holds(r[..], 0, cur + Item(table, get, asked, word))
    ensures asked' == AskedAfter(table, asked, word)
  {
    HoldsNulFree(mem[..], p, word);
    hide Holds, NulFree, Item, AskedAfter;
    var key := ReadString(mem, p, word);
    r, asked' := AnswerKey(buf, cur, table, get, asked, key);
  }

  /** The buffer that calloc returns holds the empty string. */
  method Calloc() returns (r: array<char>)
    ensures fresh(r) && r.Length == 1024 && Holds(r[..], 0, "")
  {
    r := new char[1024](_ => NUL);
  }

  /** What is still to come after one key. */
  lemma PendingMore(table: seq<Entry>, get: GetFunction, asked: seq<string>, t: string, cur: string, all: string)
    requires HasToken(t, ';') && all == cur + Pending(table, get, asked, t)
    ensures var item := Item(table, get, asked, Token(t, ';'));
      && all == cur + item + Pending(table, get, AskedAfter(table, asked, Token(t, ';')), Rest(t, ';'))
      && |cur + item| <= |all|
  {
    PendingStep(table, get, asked, t);
    hide *;
    var item := Item(table, get, asked, Token(t, ';'));
    var more := Pending(table, get, AskedAfter(table, asked, Token(t, ';')), Rest(t, ';'));
    assert cur + (item + more) == cur + item + more;
  }

  /** The GET branch of the request handler. The reply must be shorter than 2^31, so that no size wraps. */
  method HandleGet(mem: array<char>, ghost msg: string, table: seq<Entry>, get: GetFunction) returns (r: array<char>)
    requires Holds(mem[..], 0, msg)
    requires forall asked, key :: NulFree(get(asked, key))
    requires 2 * |Reply(table, get, msg)| < UINT_RANGE
    modifies mem
    ensures fresh(r) && Holds(r[..], 0, Reply(table, get, msg))
  {
    ReplyIsPending(table, get, msg);
    hide Holds, HasToken, Skip, TokenEnd, Token, Rest, Tokens, Cut, Reply, Pending, Item, AskedAfter, NulFree;
    ghost var all := Reply(table, get, msg);
    r := Calloc();
    ghost var t, cur := msg, "";
    var asked: seq<string> := [];
    var word, save := NextToken(mem, 0, ';', msg);
    while word.Some?
      invariant fresh(r) && r.Length < UINT_RANGE && Holds(r[..], 0, cur)
      invariant word.Some? <==> HasToken(t, ';')
      invariant word.Some? ==> Holds(mem[..], word.value, Token(t, ';'))
      invariant Holds(mem[..], save, Rest(t, ';'))
      invariant all == cur + Pending(table, get, asked, t)
      decreases |t|
    {
      PendingMore(table, get, asked, t, cur, all);
      ghost var item, more := Item(table, get, asked, Token(t, ';')), Rest(t, ';');
      r, asked := AnswerToken(mem, word.value, Token(t, ';'), r, cur, table, get, asked);
      cur, t := cur + item, more;
      word, save := NextToken(mem, save, ';', more);
    }
    PendingStep(table, get, asked, t);
    assert cur + "" == cur;
  }

  lemma ReplyIsPending(table: seq<Entry>, get: GetFunction, msg: string)
    ensures Reply(table, get, msg) == Pending(table, get, [], msg)
  {
  }
}
