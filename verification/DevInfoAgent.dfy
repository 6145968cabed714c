/** The agent's device information: sampled on every update, published when it has changed. */
module DevInfoAgent {
  import opened Wrappers
  import opened CStrings
  import opened Devices
  import opened Registry

  const HOSTNAME_SIZE := 1024

  /** The character arrays that are compared byte by byte. */
  datatype Buffers = Buffers(hostname: seq<char>, ip: seq<char>, mac: seq<char>)

  /** What one update reads from the system: the arrays, the text of the devinfo callback and the model name. */
  datatype Sample = Sample(buffers: Buffers, devinfo: string, model: string)

  /** The string at the start of a character array. */
  function Text(b: seq<char>): (t: string)
    ensures t <= b && NUL !in t && (|t| < |b| ==> b[|t|] == NUL)
  {
    SpanFree(b, NUL);
    b[..Span(b, NUL)]
  }

  /** The hostname array has room for its terminator and gethostname wrote one. */
  predicate Terminated(s: Sample) {
    |s.buffers.hostname| == HOSTNAME_SIZE && NUL in s.buffers.hostname
  }

  function InfoOf(id: nat, version: string, s: Sample): Info {
    Info(id, s.model, Text(s.buffers.hostname), Text(s.buffers.ip), Text(s.buffers.mac), version, s.devinfo)
  }

  /** The string at the start of an array: everything before the first NUL. */
  predicate IsText(t: string, b: seq<char>) {
    t <= b && NUL !in t && (|t| < |b| ==> b[|t|] == NUL)
  }

  /** The message has the sample's host, IP, MAC and devinfo text. */
  predicate Carries(m: Info, s: Sample) {
    && IsText(m.host, s.buffers.hostname) && IsText(m.ip, s.buffers.ip) && IsText(m.mac, s.buffers.mac)
    && m.devinfo == s.devinfo
  }

  /** What a message carries: every field comes from its own source. */
  lemma InfoFields(id: nat, version: string, s: Sample)
    ensures var m := InfoOf(id, version, s);
      Carries(m, s) && m.deviceID == id && m.model == s.model && m.rmtVersion == version
  {
  }

  /** Two messages carry the same fields exactly if they carry those of the same sample. */
  lemma CarriesIff(m: Info, id: nat, version: string, s: Sample)
    ensures Carries(m, s) <==> SameFields(m, InfoOf(id, version, s))
  {
    TextUnique(m.host, Text(s.buffers.hostname), s.buffers.hostname);
    TextUnique(m.ip, Text(s.buffers.ip), s.buffers.ip);
    TextUnique(m.mac, Text(s.buffers.mac), s.buffers.mac);
  }

  lemma TextUnique(t: string, u: string, b: seq<char>)
    requires IsText(u, b)
    ensures IsText(t, b) <==> t == u
  {
    assert t <= b && |t| < |u| ==> u[|t|] == b[|t|] && u[|t|] in u;
    assert t <= b && |u| < |t| ==> t[|u|] == b[|u|] && t[|u|] in t;
  }

  /** The fields whose change triggers a publication. */
  predicate SameFields(a: Info, b: Info) {
    a.host == b.host && a.ip == b.ip && a.mac == b.mac && a.devinfo == b.devinfo
  }

  /** `g_dev`, `g_devinfo` and `g_info_change`, and the messages written so far. */
  datatype State = State(buffers: Buffers, devinfo: string, changed: bool, published: seq<Info>)

  function Init(): State {
    State(Buffers(seq(HOSTNAME_SIZE, _ => NUL), [], []), "", true, [])
  }

  /** The source terminates the old hostname array just before it compares. */
  function Compared(b: Buffers): Buffers {
    if |b.hostname| == HOSTNAME_SIZE then b.(hostname := b.hostname[HOSTNAME_SIZE - 1 := NUL]) else b
  }

  /** One update; `ok` tells whether a write would succeed. */
  function Update(st: State, s: Sample, ok: bool, id: nat, version: string): State {
    var differs := Compared(st.buffers) != s.buffers || st.devinfo != s.devinfo;
    var buffers := if differs then s.buffers else Compared(st.buffers);
    var send := st.changed || differs;
    State(buffers, s.devinfo, false,
          if send && ok then st.published + [InfoOf(id, version, s)] else st.published)
  }

  /** Does the update write a message? */
  predicate Sends(st: State, s: Sample) {
    st.changed || Compared(st.buffers) != s.buffers || st.devinfo != s.devinfo
  }

  datatype Tick = Tick(sample: Sample, ok: bool)

  function Run(st: State, ticks: seq<Tick>, id: nat, version: string): State
    decreases |ticks|
  {
    if ticks == [] then st else Run(Update(st, ticks[0].sample, ticks[0].ok, id, version), ticks[1..], id, version)
  }

  lemma {:induction false} SpanBefore(b: seq<char>, i: nat)
    requires i < |b| && NUL in b[..i + 1]
    ensures Span(b[i := NUL], NUL) == Span(b, NUL) <= i
  {
    if b[0] != NUL {
      assert b[1..][..i] == b[..i + 1][1..];
      assert b[..i + 1] == [b[0]] + b[..i + 1][1..];
      SpanBefore(b[1..], i - 1);
      assert b[i := NUL][1..] == b[1..][i - 1 := NUL];
    }
  }

  /** Terminating an array that holds a terminated string does not change the string. */
  lemma TextTerminated(b: seq<char>)
    requires |b| == HOSTNAME_SIZE && NUL in b
    ensures Text(b[HOSTNAME_SIZE - 1 := NUL]) == Text(b)
  {
    assert b[..HOSTNAME_SIZE] == b;
    SpanBefore(b, HOSTNAME_SIZE - 1);
    assert b[HOSTNAME_SIZE - 1 := NUL][..Span(b, NUL)] == b[..Span(b, NUL)];
  }

  /** The remembered hostname array holds a string. */
  predicate Sound(st: State) {
    |st.buffers.hostname| == HOSTNAME_SIZE && NUL in st.buffers.hostname
  }

  predicate AllTerminated(ticks: seq<Tick>) {
    forall i | 0 <= i < |ticks| :: Terminated(ticks[i].sample)
  }

  /** The index of the last update of a run that writes a message, successfully or not. */
  function LastSend(st: State, ticks: seq<Tick>, id: nat, version: string): (k: Option<nat>)
    ensures k.Some? ==> k.value < |ticks|
    decreases |ticks|
  {
    if ticks == [] then None
    else
      match LastSend(Update(st, ticks[0].sample, ticks[0].ok, id, version), ticks[1..], id, version)
      case Some(i) => Some(i + 1)
      case None => if Sends(st, ticks[0].sample) then Some(0) else None
  }

  /** The information as it is remembered. */
  function Remembered(st: State, id: nat, version: string): Info {
    InfoOf(id, version, Sample(st.buffers, st.devinfo, ""))
  }

  /** The last message has these fields. */
  predicate Shows(published: seq<Info>, info: Info) {
    published != [] && SameFields(published[|published| - 1], info)
  }

  /** An update remembers the sample, and an update that writes nothing has remembered it before. */
  lemma UpdateRemembers(st: State, t: Tick, id: nat, version: string)
    requires Sound(st) && Terminated(t.sample)
    ensures var st' := Update(st, t.sample, t.ok, id, version);
      && Sound(st') && !st'.changed
      && SameFields(Remembered(st', id, version), InfoOf(id, version, t.sample))
      && (Sends(st, t.sample) ==> st'.published == Written(st.published, t, id, version))
      && (!Sends(st, t.sample) ==>
            st'.published == st.published && SameFields(Remembered(st, id, version), InfoOf(id, version, t.sample)))
  {
    TextTerminated(st.buffers.hostname);
    hide Text;
    assert Compared(st.buffers).hostname[HOSTNAME_SIZE - 1] == NUL;
  }

  /** The messages after an update that writes. */
  function Written(before: seq<Info>, t: Tick, id: nat, version: string): seq<Info> {
    before + if t.ok then [InfoOf(id, version, t.sample)] else []
  }

  /** The last update that writes decides what has been published, and it wrote the current fields. */
  lemma {:induction false} RunPublishes(st: State, ticks: seq<Tick>, id: nat, version: string)
    requires Sound(st) && ticks != [] && AllTerminated(ticks)
    ensures var k, current := LastSend(st, ticks, id, version), InfoOf(id, version, ticks[|ticks| - 1].sample);
      var after := Run(st, ticks, id, version).published;
      match k
      case None => after == st.published && SameFields(Remembered(st, id, version), current)
      case Some(i) =>
        && after == Written(Run(st, ticks[..i], id, version).published, ticks[i], id, version)
        && SameFields(InfoOf(id, version, ticks[i].sample), current)
    decreases |ticks|
  {
    var st1, rest := Update(st, ticks[0].sample, ticks[0].ok, id, version), ticks[1..];
    assert Terminated(ticks[0].sample);
    UpdateRemembers(st, ticks[0], id, version);
    assert ticks[..0] == [] && Run(st, [], id, version) == st;
    hide Sound, Update, Sends, Remembered, InfoOf, AllTerminated, Written;
    if rest == [] {
      assert LastSend(st1, [], id, version) == None;
    } else {
      assert AllTerminated(rest) && rest[|rest| - 1] == ticks[|ticks| - 1];
      RunPublishes(st1, rest, id, version);
      var later := LastSend(st1, rest, id, version);
      if later.Some? { RunCons(st, ticks, later.value, id, version); }
    }
  }

  lemma RunCons(st: State, ticks: seq<Tick>, i: nat, id: nat, version: string)
    requires i + 1 < |ticks|
    ensures var st1 := Update(st, ticks[0].sample, ticks[0].ok, id, version);
      && ticks[i + 1] == ticks[1..][i]
      && Run(st, ticks[..i + 1], id, version) == Run(st1, ticks[1..][..i], id, version)
  {
    assert ticks[..i + 1][0] == ticks[0] && ticks[..i + 1][1..] == ticks[1..][..i];
    hide Update;
  }

  /** Exactly when the last message written carries the current host, IP, MAC and devinfo: the last update that
      wrote succeeded, or the message before it had the same four fields. A failed write leaves the messages as
      they were. */
  lemma RunCoherent(ticks: seq<Tick>, id: nat, version: string)
    requires ticks != [] && AllTerminated(ticks)
    ensures var k, current := LastSend(Init(), ticks, id, version), InfoOf(id, version, ticks[|ticks| - 1].sample);
      && k.Some? && Carries(current, ticks[|ticks| - 1].sample)
      && var before := Run(Init(), ticks[..k.value], id, version).published;
        var after := Run(Init(), ticks, id, version).published;
        && (ticks[k.value].ok ==> after == before + [InfoOf(id, version, ticks[k.value].sample)])
        && (!ticks[k.value].ok ==> after == before)
        && (Shows(after, current) <==> ticks[k.value].ok || Shows(before, current))
  {
    assert Init().buffers.hostname[0] == NUL;
    InfoFields(id, version, ticks[|ticks| - 1].sample);
    hide Run, LastSend, InfoOf, Carries;
    RunPublishes(Init(), ticks, id, version);
  }

  /** A write that fails once, and nothing changes after: nothing is ever published. */
  lemma FailedFirstWrite(s: Sample, oks: seq<bool>, id: nat, version: string)
    requires Terminated(s) && s.buffers.hostname[HOSTNAME_SIZE - 1] == NUL
    ensures var st1 := Update(Init(), s, false, id, version);
      Run(st1, seq(|oks|, i requires 0 <= i < |oks| => Tick(s, oks[i])), id, version).published == []
  {
    FailedWriteStays(Init(), s, oks, id, version);
  }

  /** A failed write is not repeated: as long as the sample stays the same, nothing more is published. */
  lemma {:induction false} FailedWriteStays(st: State, s: Sample, oks: seq<bool>, id: nat, version: string)
    requires Terminated(s) && s.buffers.hostname[HOSTNAME_SIZE - 1] == NUL
    ensures var st1 := Update(st, s, false, id, version);
      Run(st1, seq(|oks|, i requires 0 <= i < |oks| => Tick(s, oks[i])), id, version).published == st.published
  {
    var st1 := Update(st, s, false, id, version);
    assert Compared(st1.buffers) == s.buffers;
    RepeatPublishesNothing(st1, s, oks, id, version);
  }

  lemma {:induction false} RepeatPublishesNothing(st: State, s: Sample, oks: seq<bool>, id: nat, version: string)
    requires !Sends(st, s) && |s.buffers.hostname| == HOSTNAME_SIZE && s.buffers.hostname[HOSTNAME_SIZE - 1] == NUL
    ensures Run(st, seq(|oks|, i requires 0 <= i < |oks| => Tick(s, oks[i])), id, version).published == st.published
    decreases |oks|
  {
    if oks != [] {
      var ticks := seq(|oks|, i requires 0 <= i < |oks| => Tick(s, oks[i]));
      var st' := Update(st, s, oks[0], id, version);
      assert ticks[1..] == seq(|oks[1..]|, i requires 0 <= i < |oks[1..]| => Tick(s, oks[1..][i]));
      assert st'.buffers.hostname[HOSTNAME_SIZE - 1 := NUL] == st'.buffers.hostname;
      RepeatPublishesNothing(st', s, oks[1..], id, version);
    }
  }

  /** Agent and server together: once the server has drained what it got of an agent's announcements, the last one
      included, in any interleaving with those of other devices, its record for the agent holds the current host,
      IP, MAC and devinfo exactly if the last message carries them. */
  lemma ServerSeesCurrent(ticks: seq<Tick>, id: nat, version: string, ds: seq<Device>, queue: seq<Announcement>)
    requires ticks != [] && AllTerminated(ticks)
    requires var mine, published := InfosOf(queue, id), Run(Init(), ticks, id, version).published;
      mine != [] && published != [] && mine[|mine| - 1] == published[|published| - 1]
    ensures var ds', k := Devices.Run(ds, queue), LastSend(Init(), ticks, id, version);
      var current := InfoOf(id, version, ticks[|ticks| - 1].sample);
      && InfoFor(ds', id).Some? && k.Some?
      && (Carries(InfoFor(ds', id).value, ticks[|ticks| - 1].sample) <==>
            ticks[k.value].ok || Shows(Run(Init(), ticks[..k.value], id, version).published, current))
  {
    hide InfoFor, Devices.Run, InfosOf, Run, InfoOf, LastSend, AllTerminated, Carries;
    RunCoherent(ticks, id, version);
    DrainKeepsLast(ds, queue, id);
    CarriesIff(InfoFor(Devices.Run(ds, queue), id).value, id, version, ticks[|ticks| - 1].sample);
  }

  // ----- the agent object -----

  class Agent {
    const id: nat
    const version: string
    var buffers: Buffers
    var devinfo: string
    var changed: bool
    var published: seq<Info>

    ghost function Abs(): State
      reads this
    {
      State(buffers, devinfo, changed, published)
    }

    /** `devinfo_agent_init`. */
    constructor (id: nat, version: string)
      ensures Abs() == Init() && this.id == id && this.version == version
    {
      this.id, this.version := id, version;
      buffers, devinfo, changed, published := Buffers(seq(HOSTNAME_SIZE, _ => NUL), [], []), "", true, [];
    }

    /** `get_device_info`: compare with the remembered information and overwrite it. */
    method GetDeviceInfo(s: Sample) returns (msg: Info)
      modifies this`buffers, this`devinfo, this`changed
      ensures buffers == Update(old(Abs()), s, true, id, version).buffers && devinfo == s.devinfo
      ensures changed == Sends(old(Abs()), s)
      ensures msg == InfoOf(id, version, s)
    {
      buffers := Compared(buffers);
      if buffers != s.buffers || devinfo != s.devinfo {
        buffers, devinfo, changed := s.buffers, s.devinfo, true;
      }
      msg := Info(id, s.model, Text(buffers.hostname), Text(buffers.ip), Text(buffers.mac), version, devinfo);
    }

    /** `devinfo_agent_update`. */
    method DoUpdate(s: Sample, ok: bool)
      modifies this
      ensures Abs() == Update(old(Abs()), s, ok, id, version)
    {
      var msg := GetDeviceInfo(s);
      if changed {
        if ok {
          published := published + [msg];
        }
        changed := false;
      }
    }
  }
}
