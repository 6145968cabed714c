/** The configuration: the table-driven printer and the line parser of the configuration file. */
module Config {
  import opened Wrappers
  import opened CStrings
  import opened Decimal

  const LINE_LEN := 1024
  const WORD := 0x1_0000_0000

  type Int32 = n: int | IsInt32(n) witness 0
  type UInt64 = n: int | 0 <= n < 0x1_0000_0000_0000_0000

  datatype Config = Config(
    net_interface: string,
    domain_id: Int32,
    auto_detect_interface: Int32,
    logfile: string,
    reply_timeout: Int32,
    device_id: UInt64,
    datainfo_val_size: UInt64,
    devinfo_size: UInt64,
    keepalive_time: UInt64,
    support_zenoh: Int32)

  /** The members of the structure a table row can point to. */
  datatype Field = NetInterface | DomainId | AutoDetectInterface | Logfile | ReplyTimeout | DeviceId
                 | DatainfoValSize | DevinfoSize | KeepaliveTime | SupportZenoh

  /** The names of the rows: short words without the punctuation and white space of ASCII. */
  function Name(f: Field): (s: string)
    ensures 0 < |s| < 40
    ensures forall c <- s :: c >= 'A'
  {
    match f
    case NetInterface => "interface"
    case DomainId => "domain"
    case AutoDetectInterface => "switch_interface"
    case Logfile => "logfile"
    case ReplyTimeout => "reply_timeout"
    case DeviceId => "device_id"
    case DatainfoValSize => "datainfo_size"
    case DevinfoSize => "devinfo_size"
    case KeepaliveTime => "keepalive_time"
    case SupportZenoh => "support_zenoh"
  }

  /** The rows of `g_config_mapping`, built with Zenoh support. */
  const TABLE: seq<Field> :=
    [NetInterface, DomainId, AutoDetectInterface, Logfile, ReplyTimeout, DeviceId, DatainfoValSize, DevinfoSize,
     KeepaliveTime, SupportZenoh]

  /** `init_rmt_cfg`. */
  function Defaults(): Config {
    Config("", 0, 1, "stderr", 3, 0, 256, 1024, 5, 0)
  }

  // ----- integers through an int pointer -----

  /** The signed value of a 32-bit word. */
  function Signed(n: int): Int32 {
    var w := n % WORD;
    if w < WORD / 2 then w else w - WORD
  }

  /** A write through an int pointer replaces the low half of a 64-bit member. */
  function PutLow(n: UInt64, v: Int32): UInt64 {
    n / WORD * WORD + v % WORD
  }

  // ----- the table -----

  /** The text printed for a member. */
  function Show(c: Config, f: Field): string {
    match f
    case NetInterface => c.net_interface
    case DomainId => FormatInt(c.domain_id)
    case AutoDetectInterface => FormatInt(c.auto_detect_interface)
    case Logfile => c.logfile
    case ReplyTimeout => FormatInt(c.reply_timeout)
    case DeviceId => FormatInt(Signed(c.device_id))
    case DatainfoValSize => FormatInt(Signed(c.datainfo_val_size))
    case DevinfoSize => FormatInt(Signed(c.devinfo_size))
    case KeepaliveTime => FormatInt(Signed(c.keepalive_time))
    case SupportZenoh => FormatInt(c.support_zenoh)
  }

  /** The value text stored into a member. */
  function Store(c: Config, f: Field, value: string): Config {
    var n := Signed(Atoi(value));
    match f
    case NetInterface => c.(net_interface := value)
    case DomainId => c.(domain_id := n)
    case AutoDetectInterface => c.(auto_detect_interface := n)
    case Logfile => c.(logfile := value)
    case ReplyTimeout => c.(reply_timeout := n)
    case DeviceId => c.(device_id := PutLow(c.device_id, n))
    case DatainfoValSize => c.(datainfo_val_size := PutLow(c.datainfo_val_size, n))
    case DevinfoSize => c.(devinfo_size := PutLow(c.devinfo_size, n))
    case KeepaliveTime => c.(keepalive_time := PutLow(c.keepalive_time, n))
    case SupportZenoh => c.(support_zenoh := n)
  }

  /** `d` with one member taken from `c`. */
  function Copy(d: Config, c: Config, f: Field): Config {
    match f
    case NetInterface => d.(net_interface := c.net_interface)
    case DomainId => d.(domain_id := c.domain_id)
    case AutoDetectInterface => d.(auto_detect_interface := c.auto_detect_interface)
    case Logfile => d.(logfile := c.logfile)
    case ReplyTimeout => d.(reply_timeout := c.reply_timeout)
    case DeviceId => d.(device_id := c.device_id)
    case DatainfoValSize => d.(datainfo_val_size := c.datainfo_val_size)
    case DevinfoSize => d.(devinfo_size := c.devinfo_size)
    case KeepaliveTime => d.(keepalive_time := c.keepalive_time)
    case SupportZenoh => d.(support_zenoh := c.support_zenoh)
  }

  /** The first row with the name. */
  function Lookup(name: string, rows: seq<Field>): Option<Field> {
    if rows == [] then None
    else if Name(rows[0]) == name then Some(rows[0])
    else Lookup(name, rows[1..])
  }

  // ----- the printer -----

  function Line(c: Config, f: Field): string {
    Name(f) + ": " + Show(c, f) + "\n"
  }

  /** The lines of the rows. */
  function PrintRows(c: Config, rows: seq<Field>): string {
    if rows == [] then "" else Line(c, rows[0]) + PrintRows(c, rows[1..])
  }

  // ----- the parser -----

  /** How many characters fgets takes: up to a newline, at most one less than the buffer holds. */
  function LineLength(text: string): (n: nat)
    requires text != ""
    ensures 0 < n <= |text| && n <= 1023 && '\n' !in text[..n - 1]
    ensures n < |text| && n < 1023 ==> text[n - 1] == '\n'
  {
    SpanFree(text, '\n');
    var n := Span(text, '\n');
    if n < |text| && n + 1 < LINE_LEN then n + 1 else if |text| < LINE_LEN then |text| else LINE_LEN - 1
  }

  /** The C string at the start of a buffer. */
  function CString(s: string): string {
    s[..Span(s, NUL)]
  }

  predicate NoSpace(s: string) {
    forall c <- s :: !IsSpace(c)
  }

  function SkipSpace(s: string): string {
    if s != "" && IsSpace(s[0]) then SkipSpace(s[1..]) else s
  }

  /** The characters up to the first white space. */
  function Word(s: string): string {
    if s == "" || IsSpace(s[0]) then "" else [s[0]] + Word(s[1..])
  }

  datatype Setting = Setting(key: string, value: string)

  /** sscanf with "%[^:]:%s": both conversions must succeed. */
  function Scan(line: string): Option<Setting> {
    var k := Span(line, ':');
    if k == 0 || k == |line| then None
    else
      var value := Word(SkipSpace(line[k + 1..]));
      if value == "" then None else Some(Setting(line[..k], value))
  }

  /** What a line sets: nothing for a comment, a blank line, a syntax error or an unknown name. */
  function Parsed(line: string): Option<Setting> {
    if line != "" && (line[0] == '#' || line[0] == '\n') then None else Scan(line)
  }

  function Assign(c: Config, s: Setting): Config {
    match Lookup(s.key, TABLE)
    case None => c
    case Some(f) => Store(c, f, s.value)
  }

  function ApplyLine(c: Config, line: string): Config {
    match Parsed(CString(line))
    case None => c
    case Some(s) => Assign(c, s)
  }

  function Parse(c: Config, text: string): Config
    decreases |text|
  {
    if text == "" then c
    else Parse(ApplyLine(c, text[..LineLength(text)]), text[LineLength(text)..])
  }

  // ----- what a file can express -----

  /** A configuration in the structure: the character arrays hold 40 bytes each. */
  predicate Fits(c: Config) {
    NulFree(c.net_interface) && |c.net_interface| < 40 && NulFree(c.logfile) && |c.logfile| < 40
  }

  /** The configurations that a file can express. */
  predicate Restorable(c: Config) {
    && NoSpace(c.net_interface)
    && NoSpace(c.logfile) && c.logfile != ""
    && c.device_id < WORD && c.datainfo_val_size < WORD && c.devinfo_size < WORD && c.keepalive_time < WORD
  }

  lemma {:induction false} WordNoSpace(s: string)
    ensures NoSpace(Word(s))
  {
    if s != "" { WordNoSpace(s[1..]); }
  }

  lemma StoreRestorable(c: Config, f: Field, value: string)
    requires Restorable(c) && value != "" && NoSpace(value)
    ensures Restorable(Store(c, f, value))
  {
  }

  lemma ApplyLineRestorable(c: Config, line: string)
    requires Restorable(c)
    ensures Restorable(ApplyLine(c, line))
  {
    match Parsed(CString(line))
    case None =>
    case Some(s) =>
      WordNoSpace(SkipSpace(CString(line)[Span(CString(line), ':') + 1..]));
      hide Word, SkipSpace, Store;
      match Lookup(s.key, TABLE)
      case None =>
      case Some(f) => StoreRestorable(c, f, s.value);
  }

  /** Whatever text is read, the result is a configuration that a file can express. */
  lemma {:induction false} ParseRestorable(c: Config, text: string)
    requires Restorable(c)
    ensures Restorable(Parse(c, text))
    decreases |text|
  {
    if text != "" {
      ApplyLineRestorable(c, text[..LineLength(text)]);
      hide Restorable, ApplyLine;
      ParseRestorable(ApplyLine(c, text[..LineLength(text)]), text[LineLength(text)..]);
    }
  }

  // ----- printing and parsing -----

  /** Printed values are single words. */
  lemma ShowClean(c: Config, f: Field)
    requires Fits(c)
    ensures NulFree(Show(c, f)) && |Show(c, f)| < 40
    ensures Restorable(c) ==> NoSpace(Show(c, f)) && (f != NetInterface ==> Show(c, f) != "")
  {
    if !f.NetInterface? && !f.Logfile? {
      forall n: Int32 { FormatClean(n); }
    }
  }

  lemma FormatClean(n: Int32)
    ensures NulFree(FormatInt(n)) && NoSpace(FormatInt(n)) && 0 < |FormatInt(n)| < 40
  {
    forall ch | ch in FormatInt(n) ensures ch != NUL && !IsSpace(ch) { FormatIntClean(n, ch); }
    var m: nat := if n < 0 then 0 - n else n;
    var k: nat := 10;
    assert IsInt32(n);
    assert m < 10_000_000_000;
    assert Pow10(k) == 10_000_000_000 by { assert Pow10(5) == 100_000; assert Pow10(10) == 100_000 * Pow10(5); }
    DigitsShort(m, k);
  }

  function Pow10(k: nat): (p: nat) {
    if k == 0 then 1 else 10 * Pow10(k - 1)
  }

  /** A number below a power of ten has at most as many digits as its exponent. */
  lemma {:induction false} DigitsShort(n: nat, k: nat)
    requires k >= 1 && n < Pow10(k)
    ensures |Digits(n)| <= k
  {
    if n >= 10 { DigitsShort(n / 10, k - 1); }
  }

  lemma {:induction false} WordAll(s: string)
    requires NoSpace(s)
    ensures Word(s + "\n") == s
  {
    if s == "" {
      assert s + "\n" == "\n";
    } else {
      assert s[0] in s;
      assert (s + "\n")[1..] == s[1..] + "\n";
      WordAll(s[1..]);
    }
  }

  lemma ValueOf(s: string)
    requires NoSpace(s)
    ensures Word(SkipSpace(" " + s + "\n")) == s
  {
    assert (" " + s + "\n")[1..] == s + "\n";
    WordAll(s);
    if s == "" {
      assert s + "\n" == "\n" && "\n"[1..] == "";
    } else {
      assert s[0] in s;
    }
  }

  /** Every member has a row, and the first row with its name is that row. */
  lemma {:induction false} LookupRow(f: Field, rows: seq<Field>)
    requires f in rows
    ensures Lookup(Name(f), rows) == Some(f)
  {
    if rows[0] != f { LookupRow(f, rows[1..]); }
  }

  lemma CStringWhole(s: string)
    requires NulFree(s)
    ensures CString(s) == s
  {
    assert s + "" == s;
    SpanAt(s, "", NUL);
  }

  /** fgets takes a printed line as one line. */
  lemma LineTaken(c: Config, f: Field, rest: string)
    requires Fits(c) && Restorable(c)
    ensures LineLength(Line(c, f) + rest) == |Line(c, f)|
  {
    ShowClean(c, f);
    hide Fits, Restorable, Show;
    var body := Name(f) + ": " + Show(c, f);
    assert '\n' !in body by { assert IsSpace('\n'); }
    assert Line(c, f) + rest == body + ("\n" + rest);
    SpanAt(body, "\n" + rest, '\n');
  }

  /** A printed line is read back as its name and its value, except for an empty value. */
  lemma ParsedLine(c: Config, f: Field)
    requires Fits(c) && Restorable(c)
    ensures Parsed(CString(Line(c, f)))
         == if Show(c, f) == "" then None else Some(Setting(Name(f), Show(c, f)))
  {
    ShowClean(c, f);
    hide Fits, Restorable, Show;
    var line := Line(c, f);
    assert NulFree(line) && line[0] != '#' && line[0] != '\n' by {
      assert line[0] == Name(f)[0] && Name(f)[0] in Name(f);
    }
    CStringWhole(line);
    ScanLine(Name(f), Show(c, f));
  }

  lemma ScanLine(name: string, value: string)
    requires name != "" && ':' !in name && NoSpace(value)
    ensures Scan(name + ": " + value + "\n") == if value == "" then None else Some(Setting(name, value))
  {
    var line, tail := name + ": " + value + "\n", ": " + value + "\n";
    assert line == name + tail;
    SpanAt(name, tail, ':');
    assert line[|name| + 1..] == " " + value + "\n";
    assert line[..|name|] == name;
    ValueOf(value);
  }

  lemma NumberBack(n: Int32)
    ensures Signed(Atoi(FormatInt(n))) == n
  {
    assert IsInt32(n);
    AtoiFormat(n, "");
    assert FormatInt(n) + "" == FormatInt(n);
  }

  lemma WideBack(n: UInt64, d: UInt64)
    requires n < WORD && d < WORD
    ensures PutLow(d, Signed(Atoi(FormatInt(Signed(n))))) == n
  {
    NumberBack(Signed(n));
  }

  /** Storing the printed value of a member copies the member. */
  lemma StoreShow(d: Config, c: Config, f: Field)
    requires Restorable(c) && Restorable(d)
    ensures Store(d, f, Show(c, f)) == Copy(d, c, f)
  {
    hide Atoi, FormatInt, PutLow, Signed, NoSpace;
    match f
    case NetInterface =>
    case DomainId => NumberBack(c.domain_id);
    case AutoDetectInterface => NumberBack(c.auto_detect_interface);
    case Logfile =>
    case ReplyTimeout => NumberBack(c.reply_timeout);
    case DeviceId => WideBack(c.device_id, d.device_id);
    case DatainfoValSize => WideBack(c.datainfo_val_size, d.datainfo_val_size);
    case DevinfoSize => WideBack(c.devinfo_size, d.devinfo_size);
    case KeepaliveTime => WideBack(c.keepalive_time, d.keepalive_time);
    case SupportZenoh => NumberBack(c.support_zenoh);
  }

  /** The defaults with the first `n` rows taken from `c`. */
  function Taken(c: Config, n: nat): Config
    requires n <= |TABLE|
  {
    if n == 0 then Defaults() else Copy(Taken(c, n - 1), c, TABLE[n - 1])
  }

  lemma {:induction false} TakenRestorable(c: Config, n: nat)
    requires Restorable(c) && n <= |TABLE|
    ensures Restorable(Taken(c, n))
  {
    if n > 0 { TakenRestorable(c, n - 1); }
  }

  lemma TakenAll(c: Config)
    ensures Taken(c, |TABLE|) == c
  {
    assert Taken(c, 2).net_interface == c.net_interface && Taken(c, 2).domain_id == c.domain_id;
    assert Taken(c, 4) == Taken(c, 2).(auto_detect_interface := c.auto_detect_interface, logfile := c.logfile);
    assert Taken(c, 6) == Taken(c, 4).(reply_timeout := c.reply_timeout, device_id := c.device_id);
    assert Taken(c, 8)
        == Taken(c, 6).(datainfo_val_size := c.datainfo_val_size, devinfo_size := c.devinfo_size);
    assert Taken(c, 10) == Taken(c, 8).(keepalive_time := c.keepalive_time, support_zenoh := c.support_zenoh);
  }

  lemma ApplyPrinted(c: Config, i: nat)
    requires Fits(c) && Restorable(c) && i < |TABLE|
    ensures ApplyLine(Taken(c, i), Line(c, TABLE[i])) == Taken(c, i + 1)
  {
    ParsedLine(c, TABLE[i]);
    LookupRow(TABLE[i], TABLE);
    TakenRestorable(c, i);
    if Show(c, TABLE[i]) == "" {
      ShowClean(c, TABLE[i]);
      assert i == 0;
    } else {
      StoreShow(Taken(c, i), c, TABLE[i]);
    }
  }

  lemma {:induction false} ParsePrinted(c: Config, i: nat)
    requires Fits(c) && Restorable(c) && i <= |TABLE|
    ensures Parse(Taken(c, i), PrintRows(c, TABLE[i..])) == c
    decreases |TABLE| - i
  {
    if i == |TABLE| {
      TakenAll(c);
    } else {
      var line, rest := Line(c, TABLE[i]), PrintRows(c, TABLE[i + 1..]);
      assert TABLE[i..][0] == TABLE[i] && TABLE[i..][1..] == TABLE[i + 1..];
      LineTaken(c, TABLE[i], rest);
      assert (line + rest)[..|line|] == line && (line + rest)[|line|..] == rest;
      ApplyPrinted(c, i);
      ParsePrinted(c, i + 1);
    }
  }

  /** The printed configuration, read from the defaults, restores exactly the configurations without white
      space in their strings, with a log file, and with 64-bit members that fit a 32-bit word. */
  lemma PrintParse(c: Config)
    requires Fits(c)
    ensures Parse(Defaults(), PrintRows(c, TABLE)) == c <==> Restorable(c)
  {
    assert Restorable(Defaults()) && Taken(c, 0) == Defaults();
    hide Restorable, Parse, PrintRows, Fits;
    ParseRestorable(Defaults(), PrintRows(c, TABLE));
    if Restorable(c) {
      assert TABLE[0..] == TABLE;
      ParsePrinted(c, 0);
    }
  }

  /** Reading any file, printing the result and reading that again changes nothing. */
  lemma ParsePrintParse(text: string)
    requires Fits(Parse(Defaults(), text))
    ensures var c := Parse(Defaults(), text); Parse(Defaults(), PrintRows(c, TABLE)) == c
  {
    ParseRestorable(Defaults(), text);
    PrintParse(Parse(Defaults(), text));
  }

  // ----- what single lines set -----

  lemma LineStores(c: Config, f: Field, value: string)
    requires value != "" && NoSpace(value) && NulFree(value)
    ensures ApplyLine(c, Name(f) + ": " + value + "\n") == Store(c, f, value)
  {
    NameLine(f, value);
    LookupField(f);
    hide Name, Store, CString, Parsed;
  }

  /** A line with a row's name is read as that name and its value. */
  lemma NameLine(f: Field, value: string)
    requires value != "" && NoSpace(value) && NulFree(value)
    ensures Parsed(CString(Name(f) + ": " + value + "\n")) == Some(Setting(Name(f), value))
  {
    var name := Name(f);
    assert ':' !in name && name[0] in name && NulFree(name);
    var line := name + ": " + value + "\n";
    assert line[0] == name[0] && line[0] != '#' && line[0] != '\n';
    hide Name;
    ScanLine(name, value);
    assert NulFree(line);
    hide Scan;
    CStringWhole(line);
  }

  /** Each name of the file sets its own member, to the word behind the colon or to the number it prints. */
  lemma LinesSet(c: Config, word: string, n: Int32)
    requires word != "" && NoSpace(word) && NulFree(word)
    ensures ApplyLine(c, "interface" + ": " + word + "\n") == c.(net_interface := word)
    ensures ApplyLine(c, "logfile" + ": " + word + "\n") == c.(logfile := word)
    ensures ApplyLine(c, "domain" + ": " + FormatInt(n) + "\n") == c.(domain_id := n)
    ensures ApplyLine(c, "switch_interface" + ": " + FormatInt(n) + "\n") == c.(auto_detect_interface := n)
    ensures ApplyLine(c, "reply_timeout" + ": " + FormatInt(n) + "\n") == c.(reply_timeout := n)
    ensures ApplyLine(c, "support_zenoh" + ": " + FormatInt(n) + "\n") == c.(support_zenoh := n)
  {
    FormatClean(n);
    NumberBack(n);
    hide FormatInt, Atoi, ApplyLine, Signed;
    LineStores(c, NetInterface, word);
    LineStores(c, Logfile, word);
    LineStores(c, DomainId, FormatInt(n));
    LineStores(c, AutoDetectInterface, FormatInt(n));
    LineStores(c, ReplyTimeout, FormatInt(n));
    LineStores(c, SupportZenoh, FormatInt(n));
  }

  /** `after` is `before` with its low 32 bits taken from n, in two's complement. */
  predicate LowHalf(before: UInt64, after: UInt64, n: int) {
    after / 0x1_0000_0000 == before / 0x1_0000_0000 && after % 0x1_0000_0000 == n % 0x1_0000_0000
  }

  /** The 64-bit members get the number in their low half. */
  lemma WideLinesSet(c: Config, n: Int32)
    ensures exists m: UInt64 | LowHalf(c.device_id, m, n) ::
      ApplyLine(c, "device_id" + ": " + FormatInt(n) + "\n") == c.(device_id := m)
    ensures exists m: UInt64 | LowHalf(c.datainfo_val_size, m, n) ::
      ApplyLine(c, "datainfo_size" + ": " + FormatInt(n) + "\n") == c.(datainfo_val_size := m)
    ensures exists m: UInt64 | LowHalf(c.devinfo_size, m, n) ::
      ApplyLine(c, "devinfo_size" + ": " + FormatInt(n) + "\n") == c.(devinfo_size := m)
    ensures exists m: UInt64 | LowHalf(c.keepalive_time, m, n) ::
      ApplyLine(c, "keepalive_time" + ": " + FormatInt(n) + "\n") == c.(keepalive_time := m)
  {
    FormatClean(n);
    NumberBack(n);
    assert forall m: UInt64 :: LowHalf(m, PutLow(m, n), n);
    hide FormatInt, Atoi, ApplyLine, Signed, PutLow, LowHalf;
    LineStores(c, DeviceId, FormatInt(n));
    LineStores(c, DatainfoValSize, FormatInt(n));
    LineStores(c, DevinfoSize, FormatInt(n));
    LineStores(c, KeepaliveTime, FormatInt(n));
  }

  /** A NUL ends a line. */
  lemma LineCut(c: Config, a: string, b: string)
    requires NulFree(a)
    ensures ApplyLine(c, a + [NUL] + b) == ApplyLine(c, a)
  {
    CStringWhole(a);
    assert a + [NUL] + b == a + ([NUL] + b);
    SpanAt(a, [NUL] + b, NUL);
    assert CString(a + [NUL] + b) == a;
  }

  /** A comment, a blank line and a line without a colon set nothing. */
  lemma LineIgnored(c: Config, line: string)
    requires line == "" || line[0] == '#' || line[0] == '\n' || ':' !in line
    ensures ApplyLine(c, line) == c
  {
    var s := CString(line);
    if Span(s, ':') < |s| { assert s[Span(s, ':')] in line; }
  }

  // ----- the last line wins -----

  /** Do two configurations agree on a member? */
  predicate Agree(a: Config, b: Config, f: Field) {
    Copy(a, b, f) == a
  }

  /** The value a line gives to a name. */
  function LineValue(line: string, name: string): Option<string> {
    match Parsed(CString(line))
    case None => None
    case Some(s) => if s.key == name then Some(s.value) else None
  }

  function Later(v: Option<string>, w: Option<string>): Option<string> {
    if w == None then v else w
  }

  /** The value of the last well-formed line with a name. */
  function LastValue(text: string, name: string): Option<string>
    decreases |text|
  {
    if text == "" then None
    else Later(LineValue(text[..LineLength(text)], name), LastValue(text[LineLength(text)..], name))
  }

  function SetTo(c: Config, f: Field, value: Option<string>): Config {
    match value
    case None => c
    case Some(v) => Store(c, f, v)
  }

  lemma {:induction false} LookupName(name: string, f: Field, rows: seq<Field>)
    requires Lookup(name, rows) == Some(f)
    ensures Name(f) == name
  {
    if Name(rows[0]) != name { LookupName(name, f, rows[1..]); }
  }

  lemma LookupField(f: Field)
    ensures Lookup(Name(f), TABLE) == Some(f)
  {
    assert f in TABLE by {
      assert TABLE[0] == NetInterface && TABLE[1] == DomainId && TABLE[2] == AutoDetectInterface
          && TABLE[3] == Logfile && TABLE[4] == ReplyTimeout && TABLE[5] == DeviceId && TABLE[6] == DatainfoValSize
          && TABLE[7] == DevinfoSize && TABLE[8] == KeepaliveTime && TABLE[9] == SupportZenoh;
    }
    LookupRow(f, TABLE);
  }

  lemma PutLowTwice(n: UInt64, v: Int32, w: Int32)
    ensures PutLow(PutLow(n, v), w) == PutLow(n, w)
  {
  }

  lemma StoreAgree(a: Config, b: Config, f: Field, v: string)
    requires Agree(a, b, f)
    ensures Agree(Store(a, f, v), Store(b, f, v), f)
  {
  }

  lemma StoreTwice(c: Config, f: Field, v: string, w: string)
    ensures Store(Store(c, f, v), f, w) == Store(c, f, w)
  {
    forall n: UInt64, x: Int32, y: Int32 { PutLowTwice(n, x, y); }
    hide PutLow, Signed, Atoi;
  }

  lemma StoreOther(c: Config, f: Field, g: Field, v: string)
    requires f != g
    ensures Agree(Store(c, g, v), c, f)
  {
  }

  lemma ApplyLineAgree(c: Config, line: string, f: Field, v: Option<string>)
    ensures Agree(SetTo(ApplyLine(c, line), f, v), SetTo(c, f, Later(LineValue(line, Name(f)), v)), f)
  {
    AgreeSelf(SetTo(ApplyLine(c, line), f, v), f);
    hide Agree, Store, Parsed, CString, Name;
    match Parsed(CString(line))
    case None =>
    case Some(s) =>
      if s.key == Name(f) {
        LookupField(f);
        if v.Some? { StoreTwice(c, f, s.value, v.value); }
      } else if Lookup(s.key, TABLE).Some? {
        var g := Lookup(s.key, TABLE).value;
        LookupName(s.key, g, TABLE);
        StoreOther(c, f, g, s.value);
        if v.Some? { StoreAgree(Store(c, g, s.value), c, f, v.value); }
      }
  }

  lemma AgreeSelf(a: Config, f: Field)
    ensures Agree(a, a, f)
  {
  }

  /** Every member holds what the last well-formed line with its name sets, whatever the other lines say. */
  lemma {:induction false} LastLineWins(c: Config, text: string, f: Field)
    ensures Agree(Parse(c, text), SetTo(c, f, LastValue(text, Name(f))), f)
    decreases |text|
  {
    if text != "" {
      var line, rest := text[..LineLength(text)], text[LineLength(text)..];
      var c1 := ApplyLine(c, line);
      LastLineWins(c1, rest, f);
      ApplyLineAgree(c, line, f, LastValue(rest, Name(f)));
    }
  }

  // ----- the global configuration -----

  datatype Status = NotInit | Initialised

  class ConfigFile {
    var status: Status
    var cfg: Config

    constructor ()
      ensures status == NotInit
    {
      status, cfg := NotInit, Defaults();
    }

    /** `rmt_config_print`, line by line over the table. */
    method Print() returns (text: string)
      ensures text == PrintRows(cfg, TABLE)
    {
      hide Line;
      text := "";
      for i := 0 to |TABLE|
        invariant text + PrintRows(cfg, TABLE[i..]) == PrintRows(cfg, TABLE)
      {
        ghost var line, rest := Line(cfg, TABLE[i]), PrintRows(cfg, TABLE[i + 1..]);
        assert TABLE[i..][0] == TABLE[i] && TABLE[i..][1..] == TABLE[i + 1..];
        assert PrintRows(cfg, TABLE[i..]) == line + rest;
        hide PrintRows;
        assert text + (line + rest) == text + line + rest;
        text := text + Line(cfg, TABLE[i]);
      }
    }

    /** The inner loop of `rmt_config_init`: the first row with the key takes the value. */
    method Put(s: Setting)
      modifies this`cfg
      ensures cfg == Assign(old(cfg), s)
    {
      for i := 0 to |TABLE|
        invariant cfg == old(cfg) && Lookup(s.key, TABLE) == Lookup(s.key, TABLE[i..])
      {
        assert TABLE[i..][0] == TABLE[i] && TABLE[i..][1..] == TABLE[i + 1..];
        if Name(TABLE[i]) == s.key {
          cfg := Store(cfg, TABLE[i], s.value);
          return;
        }
      }
    }

    /** `rmt_config_init`; `file` is the text of the configuration file, if it can be opened. */
    method Init(file: Option<string>)
      modifies this
      ensures status == Initialised
      ensures cfg == if old(status) == Initialised then old(cfg)
                     else if file == None then Config("", 0, 1, "stderr", 3, 0, 256, 1024, 5, 0)
                     else Parse(Defaults(), file.value)
    {
      if status == Initialised {
        return;
      }
      cfg := Defaults();
      if file.Some? {
        var text := file.value;
        while text != ""
          invariant Parse(cfg, text) == Parse(Defaults(), file.value)
          invariant status == old(status)
          decreases |text|
        {
          var line := text[..LineLength(text)];
          text := text[LineLength(text)..];
          var setting := Parsed(CString(line));
          if setting.Some? {
            Put(setting.value);
          }
        }
      }
      status := Initialised;
    }

    /** `rmt_config_deinit`. */
    method Deinit()
      modifies this`status
      ensures status == NotInit
    {
      status := NotInit;
    }
  }
}
