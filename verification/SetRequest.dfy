/** SET requests: the message the server builds, the segment an agent selects, and the pairs it applies
    while strtok writes into the message. */
module SetRequest {
  import opened Wrappers
  import opened CStrings
  import opened Decimal
  import opened AgentTable

  /** A call of a set function. */
  datatype Call = Call(key: string, value: string)

  /** Set functions may depend on everything set before: result of the next call, given the earlier ones. */
  type SetFunction = (seq<Call>, Call) -> int

  /** Where the agent's C code leaves defined behaviour. */
  datatype Fault =
    | NoSegment // strtok(NULL, "|") gave NULL and is used as a message
    | NullKey   // strtok(pairs, ":") gave NULL and is used as a key
    | PastEnd   // the value pointer lies behind the whole message

  datatype Progress = Progress(calls: seq<Call>, text: string)

  // ----- one pair -----

  /** The string behind the pointer `pairs + strlen(key) + 1` once strtok has cut the pair `p` at its key.
      `beyond` is what the memory holds behind the pair's terminator. */
  function PairValue(p: string, beyond: Option<string>): Option<string> {
    var j, e := Skip(p, ':'), TokenEnd(p, ':');
    if j > 0 && j < e then Some(p[e - j + 1..e])
    else if e < |p| then Some(p[e + 1..])
    else beyond
  }

  /** The effect of one pair with its value pointer resolved. */
  function ApplyPair(table: seq<Entry>, f: SetFunction, p: string, beyond: Option<string>, st: Progress)
    : Result<Progress, Fault>
  {
    if !HasToken(p, ':') then Err(NullKey)
    else
      var key := Token(p, ':');
      if !Settable(table, key) then Ok(st)
      else
        match PairValue(p, beyond)
        case None => Err(PastEnd)
        case Some(v) =>
          var c := Call(key, v);
          Ok(Progress(st.calls + [c], st.text + key + ":" + FormatInt(f(st.calls, c)) + ";"))
  }

  /** All pairs of a segment `s`; `after` is what the memory holds behind the segment's terminator. */
  function ApplySegment(table: seq<Entry>, f: SetFunction, s: string, after: Option<string>, st: Progress)
    : Result<Progress, Fault>
    decreases |s|
  {
    if !HasToken(s, ';') then Ok(st)
    else
      var beyond := if TokenEnd(s, ';') < |s| then Some(Rest(s, ';')) else after;
      match ApplyPair(table, f, Token(s, ';'), beyond, st)
      case Err(e) => Err(e)
      case Ok(st') => ApplySegment(table, f, Rest(s, ';'), after, st')
  }

  /** The value pointer of a pair at address `p`, cut at its key, points at `PairValue`. */
  lemma ValuePointer(mem: seq<char>, p: nat, s: string, beyond: Option<string>)
    requires Holds(mem, p, s) && HasToken(s, ':')
    requires Followed(Cut(mem, p, ':', s), p, s, beyond)
    ensures var a, v := p + |Token(s, ':')| + 1, PairValue(s, beyond);
      && (v.Some? ==> Holds(Cut(mem, p, ':', s), a, v.value))
      && (v.None? ==> a == p + |s| + 1 == |mem|)
  {
    hide Skip, TokenEnd, Holds;
    var j, e := Skip(s, ':'), TokenEnd(s, ':');
    CutAt(mem, p, s, 0, e);
    if j > 0 {
      HoldsSuffix(Cut(mem, p, ':', s), p, s[0..e], e - j + 1);
      assert s[0..e][e - j + 1..] == s[e - j + 1..e];
    }
  }

  /** Cutting the key leaves the memory behind the pair as it was. */
  lemma CutFollowed(mem: seq<char>, p: nat, s: string, beyond: Option<string>)
    requires Holds(mem, p, s) && Followed(mem, p, s, beyond)
    ensures Followed(Cut(mem, p, ':', s), p, s, beyond)
  {
    if beyond.Some? { CutFrame(mem, p, ':', s, p + |s| + 1, beyond.value); }
  }

  /** The pair's part of the request handler, run on the message buffer. */
  method ApplyPairInPlace(mem: array<char>, p: nat, ghost s: string, ghost beyond: Option<string>,
          table: seq<Entry>, f: SetFunction, st: Progress)
    returns (r: Result<Progress, Fault>)
    requires Holds(mem[..], p, s) && s != ""
    requires Followed(mem[..], p, s, beyond)
    modifies mem
    ensures r == ApplyPair(table, f, s, beyond, st)
    ensures mem[..] == Cut(old(mem[..]), p, ':', s)
  {
    if HasToken(s, ':') {
      CutFollowed(mem[..], p, s, beyond);
      ValuePointer(mem[..], p, s, beyond);
    }
    hide Cut, Followed, Skip, TokenEnd, PairValue, FormatInt;
    var k, _ := NextToken(mem, p, ':', s);
    if k.None? {
      return Err(NullKey);
    }
    ghost var v := PairValue(s, beyond);
    var key := ReadString(mem, k.value, Token(s, ':'));
    var i := FindRow(table, key);
    r := Ok(st);
    if i.Some? && table[i.value].hasSet {
      var a := p + |key| + 1;
      assert v.None? ==> a == mem.Length;
      if a >= mem.Length {
        return Err(PastEnd);
      }
      var value := ReadString(mem, a, v.value);
      var c := Call(key, value);
      r := Ok(Progress(st.calls + [c], st.text + key + ":" + FormatInt(f(st.calls, c)) + ";"));
    }
  }

  /** What follows the terminator of a C string at `p`: another one, or the end of the buffer. */
  ghost predicate Followed(mem: seq<char>, p: nat, s: string, after: Option<string>) {
    match after
    case Some(a) => Holds(mem, p + |s| + 1, a)
    case None => |mem| == p + |s| + 1
  }

  /** The next call of strtok_r in the pair loop; what follows the segment is not touched. */
  method NextPair(mem: array<char>, p: nat, ghost s: string, ghost after: Option<string>)
    returns (pair: Option<nat>, save: nat)
    requires Holds(mem[..], p, s) && Followed(mem[..], p, s, after)
    modifies mem
    ensures pair == if HasToken(s, ';') then Some(p + Skip(s, ';')) else None
    ensures save == p + |s| - |Rest(s, ';')|
    ensures Holds(mem[..], p + Skip(s, ';'), Token(s, ';')) && Holds(mem[..], save, Rest(s, ';'))
    ensures Followed(mem[..], p, s, after)
  {
    if after.Some? {
      CutFrame(mem[..], p, ';', s, p + |s| + 1, after.value);
    }
    pair, save := NextToken(mem, p, ';', s);
  }

  /** The pair loop of the request handler, run on the message buffer: the outer strtok_r(";") cursor is
      kept while the inner strtok(":") writes into each pair. */
  method ApplySegmentInPlace(mem: array<char>, p: nat, ghost s: string, ghost after: Option<string>,
          table: seq<Entry>, f: SetFunction)
    returns (r: Result<Progress, Fault>)
    requires Holds(mem[..], p, s) && Followed(mem[..], p, s, after)
    modifies mem
    ensures r == ApplySegment(table, f, s, after, Progress([], ""))
  {
    hide Skip, TokenEnd, Token, HasToken, Rest, Holds, Cut;
    r := Ok(Progress([], ""));
    ghost var t, q: nat := s, p;
    var pair, save := NextPair(mem, p, s, after);
    while pair.Some?
      invariant r.Ok? && q + |t| == p + |s|
      invariant pair == if HasToken(t, ';') then Some(q + Skip(t, ';')) else None
      invariant save == q + |t| - |Rest(t, ';')|
      invariant Holds(mem[..], q + Skip(t, ';'), Token(t, ';')) && Holds(mem[..], save, Rest(t, ';'))
      invariant Followed(mem[..], p, s, after)
      invariant ApplySegment(table, f, s, after, Progress([], "")) == ApplySegment(table, f, t, after, r.value)
      decreases |t|
    {
      ghost var rest, word, before := Rest(t, ';'), Token(t, ';'), mem[..];
      ghost var closed := TokenEnd(t, ';') < |t|;
      TokenClean(t, ';');
      r := ApplyPairInPlace(mem, pair.value, word, if closed then Some(rest) else after, table, f, r.value);
      if r.Err? {
        return;
      }
      PairFrame(before, pair.value, word, closed, save, rest, p + |s|, after);
      q, t := save, rest;
      pair, save := NextPair(mem, save, rest, after);
    }
  }

  /** Cutting a pair disturbs neither the rest of the segment nor what follows it. */
  lemma PairFrame(mem: seq<char>, p: nat, word: string, closed: bool, save: nat, rest: string, end: nat,
          after: Option<string>)
    requires Holds(mem, p, word) && Holds(mem, save, rest)
    requires if closed then p + |word| < save else p + |word| == save && rest == ""
    requires save + |rest| == end && Followed(mem, save, rest, after)
    ensures Holds(Cut(mem, p, ':', word), save, rest)
    ensures Followed(Cut(mem, p, ':', word), save, rest, after)
  {
    if closed {
      CutFrame(mem, p, ':', word, save, rest);
    } else {
      CutEnd(mem, p, ':', word);
    }
    if after.Some? {
      CutFrame(mem, p, ':', word, end + 1, after.value);
    }
  }

  // ----- what a segment means -----

  /** A pair `key:value` with a non-empty key. */
  predicate WellFormed(p: string) {
    0 < Span(p, ':') < |p|
  }

  predicate AllWellFormed(words: seq<string>) {
    words == [] || (WellFormed(words[0]) && AllWellFormed(words[1..]))
  }

  /** Reference semantics of one pair: a set call if the key is settable. */
  function ApplyWord(table: seq<Entry>, f: SetFunction, p: string, st: Progress): Progress
    requires WellFormed(p)
  {
    var c := Call(p[..Span(p, ':')], p[Span(p, ':') + 1..]);
    if Settable(table, c.key)
    then Progress(st.calls + [c], st.text + c.key + ":" + FormatInt(f(st.calls, c)) + ";")
    else st
  }

  function ApplyWords(table: seq<Entry>, f: SetFunction, words: seq<string>, st: Progress): Progress
    requires AllWellFormed(words)
  {
    if words == [] then st else ApplyWords(table, f, words[1..], ApplyWord(table, f, words[0], st))
  }

  /** The value of a pair is everything behind the first colon, further colons included. */
  lemma PairRoundTrip(k: string, v: string, beyond: Option<string>)
    requires k != "" && ':' !in k
    ensures var p := k + ":" + v;
      && WellFormed(p) && p[..Span(p, ':')] == k && p[Span(p, ':') + 1..] == v
      && Token(p, ':') == k && PairValue(p, beyond) == Some(v)
  {
    assert k + ":" + v == k + (":" + v);
    SpanAt(k, ":" + v, ':');
    TokenAt(k, ":" + v, ':');
  }

  lemma WellFormedPair(table: seq<Entry>, f: SetFunction, p: string, beyond: Option<string>, st: Progress)
    requires WellFormed(p)
    ensures ApplyPair(table, f, p, beyond, st) == Ok(ApplyWord(table, f, p, st))
  {
    assert p == p[..Span(p, ':')] + ":" + p[Span(p, ':') + 1..];
    SpanClean(p, ':');
    PairRoundTrip(p[..Span(p, ':')], p[Span(p, ':') + 1..], beyond);
  }

  /** On well-formed pairs the in-place walk is the reference semantics over the pure split, whatever
      follows the segment in memory. */
  lemma {:induction false} WellFormedSegment(table: seq<Entry>, f: SetFunction, s: string,
          after: Option<string>, st: Progress)
    requires AllWellFormed(Tokens(s, ';'))
    ensures ApplySegment(table, f, s, after, st) == Ok(ApplyWords(table, f, Tokens(s, ';'), st))
    decreases |s|
  {
    if HasToken(s, ';') {
      var p, rest := Token(s, ';'), Rest(s, ';');
      assert Tokens(s, ';')[0] == p && Tokens(s, ';')[1..] == Tokens(rest, ';');
      WellFormedPair(table, f, p, if TokenEnd(s, ';') < |s| then Some(rest) else after, st);
      WellFormedSegment(table, f, rest, after, ApplyWord(table, f, p, st));
    }
  }

  // ----- which calls are made, by the rows of the table -----

  /** Some function can be called for the key: the first row with it has a set function. */
  predicate HasSetter(table: seq<Entry>, key: string) {
    exists j | 0 <= j < |table| :: IsFirst(table, key, j) && table[j].hasSet
  }

  /** What a pair does: the set function of the first row with its key is called with its value, and the result is
      reported. Without such a row, or if that row has no set function, nothing happens. */
  lemma PairCalls(table: seq<Entry>, f: SetFunction, k: string, v: string, beyond: Option<string>, st: Progress)
    requires k != "" && ':' !in k
    ensures var r, c := ApplyPair(table, f, k + ":" + v, beyond, st), Call(k, v);
      && (forall j: nat | IsFirst(table, k, j) && table[j].hasSet ::
            r == Ok(Progress(st.calls + [c], st.text + k + ":" + FormatInt(f(st.calls, c)) + ";")))
      && (forall j: nat | IsFirst(table, k, j) && !table[j].hasSet :: r == Ok(st))
      && ((forall i | 0 <= i < |table| :: table[i].key != k) ==> r == Ok(st))
  {
    FunctionsByRow(table, k);
    PairRoundTrip(k, v, beyond);
    TokenClean(k + ":" + v, ':');
    hide IsFirst, Settable, Gettable, FirstRow, FormatInt, Token, PairValue;
  }

  /** The calls are made for these pairs, in order: one for each pair whose key has a set function, with the key
      before the first colon and the value behind it. */
  predicate CallsFor(table: seq<Entry>, words: seq<string>, calls: seq<Call>)
    decreases |words|
  {
    if words == [] then calls == []
    else
      exists i | 0 < i < |words[0]| && words[0][i] == ':' && ':' !in words[0][..i] ::
        if HasSetter(table, words[0][..i]) then
          calls != [] && calls[0] == Call(words[0][..i], words[0][i + 1..]) && CallsFor(table, words[1..], calls[1..])
        else CallsFor(table, words[1..], calls)
  }

  lemma SetterByRow(table: seq<Entry>, key: string)
    ensures Settable(table, key) <==> HasSetter(table, key)
  {
    FunctionsByRow(table, key);
    if Settable(table, key) { assert IsFirst(table, key, FirstRow(table, key).value); }
  }

  lemma {:induction false} WordsCalls(table: seq<Entry>, f: SetFunction, words: seq<string>, st: Progress)
    requires AllWellFormed(words)
    ensures var r := ApplyWords(table, f, words, st);
      st.calls <= r.calls && CallsFor(table, words, r.calls[|st.calls|..])
    decreases |words|
  {
    if words != [] {
      var w, i := words[0], Span(words[0], ':');
      var st1 := ApplyWord(table, f, w, st);
      SpanClean(w, ':');
      SetterByRow(table, w[..i]);
      WordsCalls(table, f, words[1..], st1);
      var r := ApplyWords(table, f, words, st);
      hide HasSetter, Settable, Span, FormatInt, ApplyWords;
      if Settable(table, w[..i]) {
        assert r.calls[|st.calls|..][1..] == r.calls[|st1.calls|..];
        assert r.calls[|st.calls|] == st1.calls[|st.calls|];
      }
    }
  }

  /** On a segment of well-formed pairs, whatever follows it in memory. */
  lemma SegmentCalls(table: seq<Entry>, f: SetFunction, s: string, after: Option<string>)
    requires AllWellFormed(Tokens(s, ';'))
    ensures var r := ApplySegment(table, f, s, after, Progress([], ""));
      r.Ok? && CallsFor(table, Tokens(s, ';'), r.value.calls)
  {
    hide ApplySegment, ApplyWords, Tokens, AllWellFormed, CallsFor;
    WellFormedSegment(table, f, s, after, Progress([], ""));
    WordsCalls(table, f, Tokens(s, ';'), Progress([], ""));
    var calls := ApplyWords(table, f, Tokens(s, ';'), Progress([], "")).calls;
    assert calls[0..] == calls;
  }

  /** Every pair but the last has a key, and the last is a bare settable key. */
  predicate OpenWords(table: seq<Entry>, words: seq<string>) {
    if words == [] then false
    else if |words| == 1 then ':' !in words[0] && Settable(table, words[0])
    else HasToken(words[0], ':') && OpenWords(table, words[1..])
  }

  /** The segment ends right behind a bare settable key. */
  predicate OpenEnded(table: seq<Entry>, s: string) {
    s != "" && s[|s| - 1] != ';' && OpenWords(table, Tokens(s, ';'))
  }

  lemma {:induction false} NoTokenEnd(s: string, d: char)
    requires s != "" && !HasToken(s, d)
    ensures s[|s| - 1] == d
  {
    if |s| > 1 { NoTokenEnd(s[1..], d); }
  }

  /** A pair that has a key uses the memory behind it exactly if it is colon-free and settable. */
  lemma BareKey(p: string)
    requires p != ""
    ensures ':' !in p ==> HasToken(p, ':') && Token(p, ':') == p && Skip(p, ':') == 0 && TokenEnd(p, ':') == |p|
    ensures ':' in p && HasToken(p, ':') ==> PairValue(p, None).Some?
  {
    SpanClean(p, ':');
    assert p[0..] == p && p[..|p|] == p;
    if ':' !in p {
      assert p + "" == p;
      TokenAt(p, "", ':');
    }
  }

  lemma TokensStep(s: string, d: char)
    requires HasToken(s, d)
    ensures Tokens(s, d)[0] == Token(s, d) && Tokens(s, d)[1..] == Tokens(Rest(s, d), d)
    ensures |Tokens(s, d)| == 1 + |Tokens(Rest(s, d), d)|
  {
    hide Token, Rest;
  }

  lemma OpenEndedStep(table: seq<Entry>, s: string)
    requires HasToken(s, ';') && TokenEnd(s, ';') < |s|
    ensures OpenEnded(table, s) <==> HasToken(Token(s, ';'), ':') && OpenEnded(table, Rest(s, ';'))
  {
    var rest := Rest(s, ';');
    TokensStep(s, ';');
    assert rest == s[TokenEnd(s, ';') + 1..];
    if rest == "" {
      assert s[|s| - 1] == ';';
    } else {
      assert s[|s| - 1] == rest[|rest| - 1];
      if !HasToken(rest, ';') { NoTokenEnd(rest, ';'); }
      assert HasToken(rest, ';') ==> Tokens(rest, ';') != [];
    }
    hide Tokens, Token, Rest, Settable, TokenEnd, Skip;
  }

  /** The last pair, not closed by a delimiter: it takes its value from what follows the segment exactly if it is a
      bare settable key. */
  lemma LastPair(table: seq<Entry>, f: SetFunction, s: string, after: Option<string>, st: Progress)
    requires HasToken(s, ';') && TokenEnd(s, ';') == |s|
    ensures Token(s, ';') != "" && Tokens(s, ';') == [Token(s, ';')]
    ensures ApplySegment(table, f, s, after, st) == ApplyPair(table, f, Token(s, ';'), after, st)
    ensures OpenEnded(table, s) <==> ':' !in Token(s, ';') && Settable(table, Token(s, ';'))
  {
    var p := Token(s, ';');
    TokenClean(s, ';');
    assert s[|s| - 1] == p[|p| - 1] && p[|p| - 1] in p;
    assert Rest(s, ';') == "" && Tokens(s, ';') == [p];
    assert !HasToken("", ';');
    hide Token, Tokens, Settable, ApplyPair, Rest;
  }

  lemma PairBeyond(table: seq<Entry>, f: SetFunction, p: string, a: Option<string>, st: Progress)
    requires p != ""
    ensures ':' !in p && Settable(table, p) ==>
      ApplyPair(table, f, p, None, st) == Err(PastEnd) && (a.Some? ==> ApplyPair(table, f, p, a, st).Ok?)
    ensures ':' in p || !Settable(table, p) ==> ApplyPair(table, f, p, a, st) == ApplyPair(table, f, p, None, st)
  {
    BareKey(p);
    hide Settable, FormatInt;
  }

  lemma AfterMattersLast(table: seq<Entry>, f: SetFunction, s: string, a: Option<string>, st: Progress)
    requires HasToken(s, ';') && TokenEnd(s, ';') == |s|
    ensures OpenEnded(table, s) ==>
      ApplySegment(table, f, s, None, st) == Err(PastEnd) && (a.Some? ==> ApplySegment(table, f, s, a, st).Ok?)
    ensures !OpenEnded(table, s) ==> ApplySegment(table, f, s, a, st) == ApplySegment(table, f, s, None, st)
  {
    LastPair(table, f, s, a, st);
    LastPair(table, f, s, None, st);
    PairBeyond(table, f, Token(s, ';'), a, st);
  }

  lemma {:induction false} AfterMatters(table: seq<Entry>, f: SetFunction, s: string, a: Option<string>, st: Progress)
    ensures OpenEnded(table, s) ==>
      ApplySegment(table, f, s, None, st) == Err(PastEnd) && (a.Some? ==> ApplySegment(table, f, s, a, st).Ok?)
    ensures !OpenEnded(table, s) ==> ApplySegment(table, f, s, a, st) == ApplySegment(table, f, s, None, st)
    decreases |s|
  {
    if HasToken(s, ';') {
      if TokenEnd(s, ';') < |s| {
        OpenEndedStep(table, s);
        var r := ApplyPair(table, f, Token(s, ';'), Some(Rest(s, ';')), st);
        if r.Ok? { AfterMatters(table, f, Rest(s, ';'), a, r.value); }
      } else {
        AfterMattersLast(table, f, s, a, st);
      }
    }
  }

  /** What an agent does with its segment depends on the memory behind it exactly for open-ended segments. */
  lemma IndependentIffClosed(table: seq<Entry>, f: SetFunction, s: string, st: Progress)
    ensures (forall a, b :: ApplySegment(table, f, s, a, st) == ApplySegment(table, f, s, b, st))
      <==> !OpenEnded(table, s)
  {
    if OpenEnded(table, s) {
      AfterMatters(table, f, s, Some(""), st);
    } else {
      forall a, b ensures ApplySegment(table, f, s, a, st) == ApplySegment(table, f, s, b, st) {
        AfterMatters(table, f, s, a, st);
        AfterMatters(table, f, s, b, st);
      }
    }
  }

  // ----- faults -----

  /** Every pair has a key: a character other than ':'. */
  predicate AllKeyed(words: seq<string>) {
    words == [] || (HasToken(words[0], ':') && AllKeyed(words[1..]))
  }

  /** A pair is handled exactly if it has a key, and its value is not behind the end. */
  lemma PairOkIff(table: seq<Entry>, f: SetFunction, p: string, beyond: Option<string>, st: Progress)
    requires p != ""
    ensures var r := ApplyPair(table, f, p, beyond, st);
      && (r == Err(NullKey) <==> !HasToken(p, ':'))
      && (r == Err(PastEnd) <==> beyond.None? && ':' !in p && Settable(table, p))
      && r != Err(NoSegment)
  {
    BareKey(p);
    hide Settable;
  }

  /** When a segment is handled, and how it fails: a pair of colons only is a NULL key, whatever else is in the
      segment; a bare settable key at the end of the whole message has its value behind the end. */
  lemma {:induction false} SegmentOkIff(table: seq<Entry>, f: SetFunction, s: string, after: Option<string>,
          st: Progress)
    ensures var r := ApplySegment(table, f, s, after, st);
      && (r.Ok? <==> AllKeyed(Tokens(s, ';')) && (after.Some? || !OpenEnded(table, s)))
      && (r == Err(NullKey) <==> !AllKeyed(Tokens(s, ';')))
      && (r == Err(PastEnd) <==> AllKeyed(Tokens(s, ';')) && after.None? && OpenEnded(table, s))
    decreases |s|
  {
    if HasToken(s, ';') {
      var p, rest := Token(s, ';'), Rest(s, ';');
      assert Tokens(s, ';')[0] == p && Tokens(s, ';')[1..] == Tokens(rest, ';');
      TokenClean(s, ';');
      if TokenEnd(s, ';') < |s| {
        OpenEndedStep(table, s);
        PairOkIff(table, f, p, Some(rest), st);
        var r := ApplyPair(table, f, p, Some(rest), st);
        hide OpenEnded, Token, TokenEnd, Rest, HasToken, ApplyPair;
        if r.Ok? { SegmentOkIff(table, f, rest, after, r.value); }
      } else {
        LastOkIff(table, f, s, after, st);
      }
    }
  }

  /** The last pair, not closed by a delimiter. */
  lemma LastOkIff(table: seq<Entry>, f: SetFunction, s: string, after: Option<string>, st: Progress)
    requires HasToken(s, ';') && TokenEnd(s, ';') == |s|
    ensures var r := ApplySegment(table, f, s, after, st);
      && (r == Err(NullKey) <==> !AllKeyed(Tokens(s, ';')))
      && (r == Err(PastEnd) <==> AllKeyed(Tokens(s, ';')) && after.None? && OpenEnded(table, s))
      && r != Err(NoSegment)
  {
    var p := Token(s, ';');
    LastPair(table, f, s, after, st);
    PairOkIff(table, f, p, after, st);
    BareKey(p);
    assert [p][1..] == [] && (AllKeyed([p]) <==> HasToken(p, ':'));
    hide Token, Settable, ApplyPair, ApplySegment, Tokens, HasToken, OpenEnded;
  }

  /** A pair of colons only. */
  lemma ColonsFail(table: seq<Entry>, f: SetFunction, after: Option<string>, st: Progress)
    ensures ApplySegment(table, f, "::", after, st) == Err(NullKey)
  {
    assert "::" + "" == "::";
    TokenAt("::", "", ';');
    assert "::"[1..] == ":" && ":"[1..] == "";
    assert !HasToken("::", ':');
  }

  /** A bare key, alone in a SET_SAME_VALUE message. */
  lemma BareKeyFails(f: SetFunction, st: Progress)
    ensures OpenEnded([Entry("k", true, true)], "k")
    ensures ApplySegment([Entry("k", true, true)], f, "k", None, st) == Err(PastEnd)
  {
    TokensWord("k", ';');
    AfterMatters([Entry("k", true, true)], f, "k", None, st);
  }
}
