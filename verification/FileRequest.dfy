/** The IMPORT and EXPORT branches of the request handler: which callback runs, what the reply says, and what
    the server reads from it. */
module FileRequest {
  import opened Wrappers
  import opened CStrings
  import opened Decimal
  import opened AgentTable
  import opened Messages
  import opened FileArguments

  /** One row of the agent's file table (`fileinfo_func`). A NULL table is the empty one. */
  datatype FileEntry = FileEntry(name: string, path: Option<string>, hasImport: bool, hasExport: bool)

  predicate Has(row: FileEntry, kind: Kind) {
    (kind == Import && row.hasImport) || (kind == Export && row.hasExport)
  }

  /** Where the agent's C code leaves defined behaviour. */
  datatype FileFault =
    | NullName // strtok gave no callback name, and it is compared with the first row
    | NullFile // strtok gave no file name, and it is printed into the path
    | NotOpen  // the file to be written cannot be opened, and it is written

  /** The file system: the content of the file at a path, if it can be opened. */
  type Disk = string -> Option<seq<bv8>>

  /** The result of the callback of a row, for a file name (NULL if there is none) and content. */
  type Callback = (nat, Option<string>, seq<bv8>) -> int

  /** The reply, and the file that was written. */
  datatype FileReply = FileReply(text: string, binary: seq<bv8>, written: Option<(string, seq<bv8>)>)

  const EMPTY_REPLY := FileReply("", [], None)

  /** The names of the table, as keys of a table of functions. */
  function Names(table: seq<FileEntry>): (r: seq<Entry>)
    ensures |r| == |table| && forall i | 0 <= i < |table| :: r[i].key == table[i].name
  {
    seq(|table|, i requires 0 <= i < |table| => Entry(table[i].name, table[i].hasExport, table[i].hasImport))
  }

  /** The first row with the given callback name. */
  function FirstFile(table: seq<FileEntry>, name: string): (r: Option<nat>)
    ensures r.Some? ==>
      r.value < |table| && table[r.value].name == name && forall i | 0 <= i < r.value :: table[i].name != name
    ensures r.None? ==> forall i | 0 <= i < |table| :: table[i].name != name
  {
    FirstRow(Names(table), name)
  }

  /** The file is opened for writing (IMPORT) or reading (EXPORT) if the row has a path. */
  function Content(row: FileEntry, kind: Kind, file: Option<string>, sent: seq<bv8>, disk: Disk)
    : Result<seq<bv8>, FileFault>
  {
    if row.path.None? then Ok(if kind == Import then sent else [])
    else if file.None? then Err(NullFile)
    else
      match disk(row.path.value + "/" + file.value)
      case None => if kind == Import then Err(NotOpen) else Ok([])
      case Some(c) => Ok(if kind == Import then sent else c)
  }

  /** The path of a file in the row's directory. */
  function PathOf(row: FileEntry, file: string): string
    requires row.path.Some?
  {
    row.path.value + "/" + file
  }

  /** What a row that matches does. */
  function RunRow(row: FileEntry, i: nat, kind: Kind, file: Option<string>, sent: seq<bv8>, disk: Disk, call: Callback)
    : Result<FileReply, FileFault>
  {
    match Content(row, kind, file, sent, disk)
    case Err(e) => Err(e)
    case Ok(c) =>
      Ok(FileReply(
           if Has(row, kind) then FormatInt(call(i, file, c)) else "",
           if kind == Export then c else [],
           if kind == Import && row.path.Some? && file.Some? then Some((PathOf(row, file.value), sent)) else None))
  }

  /** The branch as a function of the two tokens. */
  function FileAnswer(table: seq<FileEntry>, kind: Kind, name: Option<string>, file: Option<string>, sent: seq<bv8>,
          disk: Disk, call: Callback): Result<FileReply, FileFault>
  {
    if table == [] then Ok(EMPTY_REPLY)
    else if name.None? then Err(NullName)
    else
      match FirstFile(table, name.value)
      case None => Ok(EMPTY_REPLY)
      case Some(i) => RunRow(table[i], i, kind, file, sent, disk, call)
  }

  /** The statements for a row that matches: print the path, write or read the file, call the function, print the
      result. */
  method HandleRow(row: FileEntry, i: nat, kind: Kind, file: Option<string>, sent: seq<bv8>, disk: Disk, call: Callback)
    returns (r: Result<FileReply, FileFault>)
    ensures r == RunRow(row, i, kind, file, sent, disk, call)
  {
    var content, written := if kind == Import then sent else [], None;
    if row.path.Some? {
      if file.None? {
        return Err(NullFile);
      }
      var path := row.path.value + "/" + file.value;
      var found := disk(path);
      if kind == Import {
        if found.None? {
          return Err(NotOpen);
        }
        written := Some((path, sent));
      } else if found.Some? {
        content := found.value;
      }
    }
    var text := "";
    if Has(row, kind) {
      text := FormatInt(call(i, file, content));
    }
    r := Ok(FileReply(text, if kind == Export then content else [], written));
  }

  /** The branch run on the message buffer. */
  method HandleFile(mem: array<char>, ghost msg: string, table: seq<FileEntry>, kind: Kind, sent: seq<bv8>, disk: Disk,
          call: Callback)
    returns (r: Result<FileReply, FileFault>)
    requires Holds(mem[..], 0, msg)
    modifies mem
    ensures r == FileAnswer(table, kind, FirstToken(msg), FirstToken(Rest(msg, ';')), sent, disk, call)
  {
    hide Holds, HasToken, Token, Rest, RunRow;
    var name, file := Parse(mem, msg);
    for i := 0 to |table|
      invariant i > 0 ==> name.Some? && forall j | 0 <= j < i :: table[j].name != name.value
    {
      if name.None? {
        return Err(NullName);
      }
      if name.value == table[i].name {
        r := HandleRow(table[i], i, kind, file, sent, disk, call);
        return;
      }
    }
    r := Ok(EMPTY_REPLY);
  }

  /** A file is written only by IMPORT, to the directory of the named row, with the content sent; and it is,
      whenever that row has a directory and nothing fails. */
  lemma WrittenIff(table: seq<FileEntry>, kind: Kind, name: string, file: Option<string>, sent: seq<bv8>, disk: Disk,
          call: Callback, path: string, content: seq<bv8>)
    ensures var r, row := FileAnswer(table, kind, Some(name), file, sent, disk, call), FirstFile(table, name);
      r.Ok? ==>
        (r.value.written == Some((path, content)) <==>
          && kind == Import && content == sent && row.Some? && table[row.value].path.Some? && file.Some?
          && path == table[row.value].path.value + "/" + file.value)
  {
  }

  /** The whole branch for a callback name with a row and a file name. IMPORT writes the content sent to the row's
      directory, if it has one, and passes it to the import function, if there is one. EXPORT reads the file from the
      row's directory, if it has one and the file can be opened, passes it to the export function, if there is one, and
      sends it. */
  lemma RowOutcome(table: seq<FileEntry>, name: string, file: string, sent: seq<bv8>, disk: Disk, call: Callback,
          j: nat)
    requires j < |table| && table[j].name == name && forall i | 0 <= i < j :: table[i].name != name
    ensures var r, row := FileAnswer(table, Import, Some(name), Some(file), sent, disk, call), table[j];
      var text := if row.hasImport then FormatInt(call(j, Some(file), sent)) else "";
      match row.path
      case None => r == Ok(FileReply(text, [], None))
      case Some(dir) =>
        if disk(dir + "/" + file).None? then r == Err(NotOpen)
        else r == Ok(FileReply(text, [], Some((dir + "/" + file, sent))))
    ensures var r, row := FileAnswer(table, Export, Some(name), Some(file), sent, disk, call), table[j];
      var found := if row.path.Some? then disk(row.path.value + "/" + file) else None;
      var content := if found.Some? then found.value else [];
      var text := if row.hasExport then FormatInt(call(j, Some(file), content)) else "";
      r == Ok(FileReply(text, content, None))
  {
    assert FirstFile(table, name) == Some(j);
    hide FirstFile, FormatInt;
  }

  /** The row that answers, if the named one has a function for this kind. */
  function Answering(table: seq<FileEntry>, kind: Kind, name: string): Option<nat> {
    match FirstFile(table, name)
    case None => None
    case Some(i) => if Has(table[i], kind) then Some(i) else None
  }

  /** What the server reads from a reply: 0 if and only if no row has the callback name, or the first such row has
      no function, or its callback returned 0; otherwise the callback's own code. */
  lemma ServerReads(table: seq<FileEntry>, kind: Kind, name: string, file: Option<string>, sent: seq<bv8>, disk: Disk,
          call: Callback)
    requires FileAnswer(table, kind, Some(name), file, sent, disk, call).Ok?
    ensures var code := Atoi(FileAnswer(table, kind, Some(name), file, sent, disk, call).value.text);
      match Answering(table, kind, name)
      case None => code == 0
      case Some(i) =>
        var c := Content(table[i], kind, file, sent, disk);
        c.Ok? && code == call(i, file, c.value)
  {
    if Answering(table, kind, name).Some? {
      var i := Answering(table, kind, name).value;
      ResultRoundTrip(call(i, file, Content(table[i], kind, file, sent, disk).value));
    }
  }

  lemma ReadsZeroIff(table: seq<FileEntry>, kind: Kind, name: string, file: Option<string>, sent: seq<bv8>, disk: Disk,
          call: Callback)
    requires FileAnswer(table, kind, Some(name), file, sent, disk, call).Ok?
    ensures Atoi(FileAnswer(table, kind, Some(name), file, sent, disk, call).value.text) == 0 <==>
      var row := FirstFile(table, name);
      row.None? || !Has(table[row.value], kind)
      || call(row.value, file, Content(table[row.value], kind, file, sent, disk).value) == 0
  {
    ServerReads(table, kind, name, file, sent, disk, call);
  }

  /** An unknown callback and a successful one give the server the same result: for a one-row table and a
      callback that returns 0. */
  lemma UnknownLooksDone()
    ensures var table, disk, call := [FileEntry("a", None, true, true)], (p: string) => None, (i, f, c) => 0;
      && FileAnswer(table, Import, Some("b"), Some("f"), [], disk, call) == Ok(EMPTY_REPLY)
      && FileAnswer(table, Import, Some("a"), Some("f"), [], disk, call) == Ok(FileReply("0", [], None))
      && Atoi("") == Atoi("0")
  {
    assert FormatInt(0) == "0";
    ResultRoundTrip(0);
  }

  // ----- faults -----

  /** When the branch fails, and how. */
  lemma FaultsIff(table: seq<FileEntry>, kind: Kind, name: Option<string>, file: Option<string>, sent: seq<bv8>,
          disk: Disk, call: Callback)
    ensures var r := FileAnswer(table, kind, name, file, sent, disk, call);
      var row := if name.Some? then FirstFile(table, name.value) else None;
      var path := if row.Some? then table[row.value].path else None;
      && (r == Err(NullName) <==> table != [] && name.None?)
      && (r == Err(NullFile) <==> path.Some? && file.None?)
      && (r == Err(NotOpen) <==>
            path.Some? && file.Some? && kind == Import && disk(path.value + "/" + file.value).None?)
  {
  }

  /** A message has a token exactly if it holds something other than delimiters. */
  lemma {:induction false} HasTokenIff(s: string, d: char)
    ensures HasToken(s, d) <==> exists c <- s :: c != d
  {
    if s != "" {
      assert s[0] in s;
      HasTokenIff(s[1..], d);
      assert Skip(s, d) == if s[0] == d then 1 + Skip(s[1..], d) else 0;
      forall c: char ensures c in s <==> c == s[0] || c in s[1..] { assert s == [s[0]] + s[1..]; }
    }
  }

  /** The two names as the agent gets them from the server's message: the first two tokens of both texts
      together. */
  lemma TwoTokens(callbackName: string, fileName: string)
    ensures var msg, tokens := Build(callbackName, fileName), Tokens(callbackName, ';') + Tokens(fileName, ';');
      && FirstToken(msg) == (if |tokens| > 0 then Some(tokens[0]) else None)
      && FirstToken(Rest(msg, ';')) == (if |tokens| > 1 then Some(tokens[1]) else None)
  {
    var msg := Build(callbackName, fileName);
    TokensConcat(callbackName, fileName, ';');
    assert Tokens(msg, ';') == if HasToken(msg, ';') then [Token(msg, ';')] + Tokens(Rest(msg, ';'), ';') else [];
    var rest := Rest(msg, ';');
    assert Tokens(rest, ';') == if HasToken(rest, ';') then [Token(rest, ';')] + Tokens(Rest(rest, ';'), ';') else [];
    hide Token, HasToken, Tokens, Rest;
    if !HasToken(msg, ';') { NoRest(msg, ';'); }
  }

  lemma NoRest(s: string, d: char)
    requires !HasToken(s, d)
    ensures Rest(s, d) == "" && !HasToken("", d)
  {
  }

  /** The server's message makes the agent compare a NULL name exactly if both names consist of ';' only. */
  lemma NullNameIff(callbackName: string, fileName: string, table: seq<FileEntry>, kind: Kind, sent: seq<bv8>,
          disk: Disk, call: Callback)
    requires table != []
    ensures var msg := Build(callbackName, fileName);
      FileAnswer(table, kind, FirstToken(msg), FirstToken(Rest(msg, ';')), sent, disk, call) == Err(NullName)
      <==> (forall c <- callbackName :: c == ';') && (forall c <- fileName :: c == ';')
  {
    var msg := Build(callbackName, fileName);
    HasTokenIff(msg, ';');
    FaultsIff(table, kind, FirstToken(msg), FirstToken(Rest(msg, ';')), sent, disk, call);
    if (forall c <- msg :: c == ';') {
      forall c | c in callbackName ensures c == ';' { assert c in msg; }
      forall c | c in fileName ensures c == ';' { assert c in msg; }
    }
  }

  /** An empty callback name shifts the names: the agent looks up the file name and has no file. */
  lemma EmptyNameShifts(fileName: string)
    requires fileName != "" && ';' !in fileName
    ensures var msg := Build("", fileName);
      FirstToken(msg) == Some(fileName) && FirstToken(Rest(msg, ';')) == None
  {
    var msg := Build("", fileName);
    assert msg == ";" + fileName && msg[1..] == fileName && fileName + "" == fileName;
    TokenAt(fileName, "", ';');
    assert Skip(fileName, ';') == 0 && Skip(msg, ';') == 1;
    assert msg[1..] == fileName[0..];
    assert TokenEnd(msg, ';') == 1 + TokenEnd(fileName, ';');
    assert Token(msg, ';') == fileName;
  }

  /** The server's message makes the agent print a NULL file name exactly if the two names have one token
      together, and the row of that name has a path. */
  lemma NullFileIff(callbackName: string, fileName: string, table: seq<FileEntry>, kind: Kind, sent: seq<bv8>,
          disk: Disk, call: Callback)
    ensures var msg, tokens := Build(callbackName, fileName), Tokens(callbackName, ';') + Tokens(fileName, ';');
      FileAnswer(table, kind, FirstToken(msg), FirstToken(Rest(msg, ';')), sent, disk, call) == Err(NullFile)
      <==> |tokens| == 1 && var row := FirstFile(table, tokens[0]); row.Some? && table[row.value].path.Some?
  {
    var msg := Build(callbackName, fileName);
    TwoTokens(callbackName, fileName);
    hide Tokens, Build, FirstToken, Rest;
    FaultsIff(table, kind, FirstToken(msg), FirstToken(Rest(msg, ';')), sent, disk, call);
  }

  /** End to end, for names that arrive and a named row with a function: the server reads the code that the row's
      import or export function returns for the file name and the content, and gets the content of an EXPORT. */
  lemma FileEndToEnd(callbackName: string, fileName: string, table: seq<FileEntry>, kind: Kind, sent: seq<bv8>,
          disk: Disk, call: Callback)
    requires callbackName != "" && fileName != "" && ';' !in callbackName && ';' !in fileName
    requires kind == Import || kind == Export
    ensures var msg := Build(callbackName, fileName);
      var r := FileAnswer(table, kind, FirstToken(msg), FirstToken(Rest(msg, ';')), sent, disk, call);
      forall j | 0 <= j < |table| && table[j].name == callbackName
                 && (forall i | 0 <= i < j :: table[i].name != callbackName)
                 && (if kind == Import then table[j].hasImport else table[j].hasExport) ::
        var dir := table[j].path;
        var found := if dir.Some? then disk(dir.value + "/" + fileName) else None;
        var content := if kind == Import then sent else if found.Some? then found.value else [];
        && (r.Err? <==> kind == Import && dir.Some? && found.None?)
        && (r.Ok? ==> Atoi(r.value.text) == call(j, Some(fileName), content))
        && (r.Ok? && kind == Export ==> r.value.binary == content)
  {
    ArgumentsRoundTrip(callbackName, fileName);
    forall j: nat | j < |table| && table[j].name == callbackName
                    && forall i | 0 <= i < j :: table[i].name != callbackName
    {
      RowOutcome(table, callbackName, fileName, sent, disk, call, j);
    }
    forall code: int { ResultRoundTrip(code); }
    hide FileAnswer, FirstToken, Rest, FormatInt, Atoi;
  }
}
