/** The text of a SET reply and the decoder of the Python client. */
module SetResult {
  import opened Wrappers
  import opened CStrings
  import opened Decimal
  import opened AgentTable
  import opened SetRequest

  /** The key and result code of each set call. */
  type Outcome = (string, int)

  function Outcomes(f: SetFunction, calls: seq<Call>): seq<Outcome> {
    if calls == [] then []
    else
      var before, c := calls[..|calls| - 1], calls[|calls| - 1];
      Outcomes(f, before) + [(c.key, f(before, c))]
  }

  /** The reply text: `key:code;` for each outcome. */
  function ResultText(rs: seq<Outcome>): string {
    if rs == [] then "" else rs[0].0 + ":" + FormatInt(rs[0].1) + ";" + ResultText(rs[1..])
  }

  lemma {:induction false} ResultTextSnoc(rs: seq<Outcome>, r: Outcome)
    ensures ResultText(rs + [r]) == ResultText(rs) + r.0 + ":" + FormatInt(r.1) + ";"
  {
    hide FormatInt;
    if rs == [] {
      assert [r][1..] == [];
    } else {
      assert (rs + [r])[0] == rs[0] && (rs + [r])[1..] == rs[1..] + [r];
      assert ResultText(rs + [r])
          == rs[0].0 + ":" + FormatInt(rs[0].1) + ";" + ResultText(rs[1..] + [r]);
      assert ResultText(rs) == rs[0].0 + ":" + FormatInt(rs[0].1) + ";" + ResultText(rs[1..]);
      hide ResultText;
      ResultTextSnoc(rs[1..], r);
    }
  }

  /** The text an agent replies with is the result text of the calls it made. */
  ghost predicate Reported(f: SetFunction, st: Progress) {
    st.text == ResultText(Outcomes(f, st.calls))
  }

  lemma PairReports(table: seq<Entry>, f: SetFunction, p: string, beyond: Option<string>, st: Progress)
    requires Reported(f, st)
    ensures var r := ApplyPair(table, f, p, beyond, st);
      r.Ok? ==> Reported(f, r.value) && st.calls <= r.value.calls
  {
    hide Token, HasToken, PairValue, Settable, FormatInt, ResultText;
    var r := ApplyPair(table, f, p, beyond, st);
    if r.Ok? && r.value != st {
      var calls := r.value.calls;
      assert calls[..|calls| - 1] == st.calls;
      var c := calls[|calls| - 1];
      ResultTextSnoc(Outcomes(f, st.calls), (c.key, f(st.calls, c)));
    }
  }

  /** The reply reports every call that was made, in order, and nothing else. */
  lemma {:induction false} SegmentReports(table: seq<Entry>, f: SetFunction, s: string, after: Option<string>,
          st: Progress)
    requires Reported(f, st)
    ensures var r := ApplySegment(table, f, s, after, st);
      r.Ok? ==> Reported(f, r.value) && st.calls <= r.value.calls
    decreases |s|
  {
    hide Token, TokenEnd, HasToken, ApplyPair, Reported;
    if HasToken(s, ';') {
      var beyond := if TokenEnd(s, ';') < |s| then Some(Rest(s, ';')) else after;
      var r := ApplyPair(table, f, Token(s, ';'), beyond, st);
      PairReports(table, f, Token(s, ';'), beyond, st);
      if r.Ok? { SegmentReports(table, f, Rest(s, ';'), after, r.value); }
    }
  }

  // ----- the client's decoder -----

  datatype Value = Id(id: nat) | Text(text: string)

  /** One item between semicolons: with a colon in it, the second field becomes the value of the first. */
  function DecodeItem(d: map<string, Value>, item: string): map<string, Value> {
    var fields := Split(item, ':');
    if |fields| > 1 then d[fields[0] := Text(fields[1])] else d
  }

  function DecodeItems(d: map<string, Value>, items: seq<string>): map<string, Value>
    decreases |items|
  {
    if items == [] then d else DecodeItems(DecodeItem(d, items[0]), items[1..])
  }

  /** The inner loop of `set_diff_config` and `set_same_config`. */
  method Decode(id: nat, valueList: string) returns (d: map<string, Value>)
    ensures d == DecodeItems(map["deviceID" := Id(id)], Split(valueList, ';'))
  {
    var items := Split(valueList, ';');
    d := map["deviceID" := Id(id)];
    for i := 0 to |items|
      invariant DecodeItems(map["deviceID" := Id(id)], items) == DecodeItems(d, items[i..])
    {
      var fields := Split(items[i], ':');
      if |fields| > 1 {
        d := d[fields[0] := Text(fields[1])];
      }
    }
  }

  /** The outer loop: one decoded record for each reply, in order. */
  method DecodeAll(replies: seq<(nat, string)>) returns (ds: seq<map<string, Value>>)
    ensures |ds| == |replies|
    ensures forall i | 0 <= i < |ds| ::
      ds[i] == DecodeItems(map["deviceID" := Id(replies[i].0)], Split(replies[i].1, ';'))
  {
    ds := [];
    for k := 0 to |replies|
      invariant |ds| == k
      invariant forall i | 0 <= i < k ::
        ds[i] == DecodeItems(map["deviceID" := Id(replies[i].0)], Split(replies[i].1, ';'))
    {
      var d := Decode(replies[k].0, replies[k].1);
      ds := ds + [d];
    }
  }

  /** Each key with its last result, on top of what was there. */
  function LastResults(d: map<string, Value>, rs: seq<Outcome>): map<string, Value>
    decreases |rs|
  {
    if rs == [] then d else LastResults(d[rs[0].0 := Text(FormatInt(rs[0].1))], rs[1..])
  }

  ghost predicate PlainKeys(rs: seq<Outcome>) {
    forall i | 0 <= i < |rs| :: ':' !in rs[i].0 && ';' !in rs[i].0
  }

  lemma DecodeOutcome(d: map<string, Value>, key: string, code: int)
    requires ':' !in key
    ensures DecodeItem(d, key + ":" + FormatInt(code)) == d[key := Text(FormatInt(code))]
  {
    if ':' in FormatInt(code) { FormatIntClean(code, ':'); }
    SplitCons(key, FormatInt(code), ':');
    SplitWord(FormatInt(code), ':');
  }

  lemma DecodeEmpty(d: map<string, Value>)
    ensures DecodeItem(d, "") == d
  {
    SplitWord("", ':');
  }

  /** Decoding inverts the reply text: every key gets its last result and the trailing ';' adds nothing. */
  lemma {:induction false} DecodeInvertsReply(d: map<string, Value>, rs: seq<Outcome>)
    requires PlainKeys(rs)
    ensures DecodeItems(d, Split(ResultText(rs), ';')) == LastResults(d, rs)
    decreases |rs|
  {
    hide Split, FormatInt, DecodeItem;
    if rs == [] {
      SplitWord("", ';');
      DecodeEmpty(d);
    } else {
      var (key, code) := rs[0];
      var item, tail := key + ":" + FormatInt(code), ResultText(rs[1..]);
      if ';' in FormatInt(code) { FormatIntClean(code, ';'); }
      assert ResultText(rs) == item + ";" + tail;
      SplitCons(item, tail, ';');
      DecodeOutcome(d, key, code);
      assert ([item] + Split(tail, ';'))[1..] == Split(tail, ';');
      DecodeInvertsReply(d[key := Text(FormatInt(code))], rs[1..]);
    }
  }

  /** The code of the last outcome for key `k`. */
  function LastCode(rs: seq<Outcome>, k: string): (r: Option<int>)
    ensures r.Some? <==> exists i :: 0 <= i < |rs| && rs[i].0 == k
    decreases |rs|
  {
    if rs == [] then None
    else
      var later := LastCode(rs[1..], k);
      assert later.Some? ==> exists i :: 0 < i < |rs| && rs[i].0 == k by {
        if later.Some? {
          var i :| 0 <= i < |rs[1..]| && rs[1..][i].0 == k;
          assert rs[i + 1].0 == k;
        }
      }
      assert forall i | 0 < i < |rs| :: rs[i] == rs[1..][i - 1];
      if later.Some? then later else if rs[0].0 == k then Some(rs[0].1) else None
  }

  /** Exactly the keys of the reply are bound, each to its last code; other entries are untouched. */
  lemma {:induction false} LastResultsAt(d: map<string, Value>, rs: seq<Outcome>, k: string)
    ensures var r, c := LastResults(d, rs), LastCode(rs, k);
      if c.Some? then k in r && r[k] == Text(FormatInt(c.value))
      else (k in r <==> k in d) && (k in d ==> r[k] == d[k])
    decreases |rs|
  {
    if rs != [] {
      LastResultsAt(d[rs[0].0 := Text(FormatInt(rs[0].1))], rs[1..], k);
    }
  }

  /** The device ID survives decoding exactly if no set key is called "deviceID". */
  lemma DeviceIdSurvives(id: nat, rs: seq<Outcome>)
    requires PlainKeys(rs)
    ensures var d := DecodeItems(map["deviceID" := Id(id)], Split(ResultText(rs), ';'));
      ("deviceID" in d && d["deviceID"] == Id(id)) <==> forall i | 0 <= i < |rs| :: rs[i].0 != "deviceID"
  {
    DecodeInvertsReply(map["deviceID" := Id(id)], rs);
    LastResultsAt(map["deviceID" := Id(id)], rs, "deviceID");
  }

  // ----- agent and client together -----

  ghost predicate PlainCalls(calls: seq<Call>) {
    forall i | 0 <= i < |calls| :: ':' !in calls[i].key && ';' !in calls[i].key
  }

  lemma {:induction false} SegmentCallsPlain(table: seq<Entry>, f: SetFunction, s: string,
          after: Option<string>, st: Progress)
    requires PlainCalls(st.calls)
    ensures var r := ApplySegment(table, f, s, after, st); r.Ok? ==> PlainCalls(r.value.calls)
    decreases |s|
  {
    hide TokenEnd, Token, Rest, Skip, HasToken, PairValue, Settable;
    if HasToken(s, ';') {
      var p, beyond := Token(s, ';'), if TokenEnd(s, ';') < |s| then Some(Rest(s, ';')) else after;
      var r := ApplyPair(table, f, p, beyond, st);
      TokenClean(s, ';');
      TokenClean(p, ':');
      TokenWithin(p, ':', ';');
      if r.Ok? { SegmentCallsPlain(table, f, Rest(s, ';'), after, r.value); }
    }
  }

  lemma TokenWithin(s: string, d: char, c: char)
    requires c !in s
    ensures c !in Token(s, d)
  {
  }

  lemma {:induction false} OutcomeKeys(f: SetFunction, calls: seq<Call>)
    ensures |Outcomes(f, calls)| == |calls|
    ensures forall i | 0 <= i < |calls| :: Outcomes(f, calls)[i].0 == calls[i].key
  {
    if calls != [] { OutcomeKeys(f, calls[..|calls| - 1]); }
  }

  /** Whatever segment an agent applied, the client decodes its reply to the last result of each key set. */
  lemma ClientSeesOutcomes(id: nat, table: seq<Entry>, f: SetFunction, s: string, after: Option<string>)
    ensures var r := ApplySegment(table, f, s, after, Progress([], ""));
      r.Ok? ==>
        DecodeItems(map["deviceID" := Id(id)], Split(r.value.text, ';'))
        == LastResults(map["deviceID" := Id(id)], Outcomes(f, r.value.calls))
  {
    hide ApplySegment, Split, LastResults, DecodeItems;
    var r := ApplySegment(table, f, s, after, Progress([], ""));
    SegmentReports(table, f, s, after, Progress([], ""));
    SegmentCallsPlain(table, f, s, after, Progress([], ""));
    if r.Ok? {
      OutcomeKeys(f, r.value.calls);
      DecodeInvertsReply(map["deviceID" := Id(id)], Outcomes(f, r.value.calls));
    }
  }
}
