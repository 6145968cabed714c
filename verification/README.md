# RMT in Dafny

RMT manages many devices ("agents") from one server over DDS: the server broadcasts requests with a list of
device IDs, every addressed agent answers, and the server collects the answers. This project models the parts
of RMT in which state, interleaving and byte-level parsing meet, and proves what they guarantee. Imperative C
code is modelled by classes, arrays and loops proved against specification functions; the theorems are lemmas
about those functions, or about all runs of a step system.

## The parts

| module | part of RMT |
|---|---|
| `CStrings`, `Decimal` | C strings in a byte buffer, `strtok`/`strtok_r` in place and as a pure split, `%d` and `atoi` |
| `AgentTable`, `SetRequest`, `SetMessage`, `SetResult` | SET: the server's message, the agent's three nested tokenisers on one buffer, the reply text, the client's decoder |
| `GetReply` | GET: key scan and the growing reply buffer |
| `FileArguments`, `FileRequest` | argument and result text of file transfers, and the branches that run the file callbacks |
| `ReplyRing` | the agent's ring of 16 replies and its update round |
| `Messages`, `Transfer`, `DataInfoServer` | the server's reply reader, the waiting calls and the file-transfer record |
| `Protocol`, `ProtocolInvariant`, `ProtocolTheorems` | the exchange as a step system over all interleavings |
| `SharedRequest`, `Overlap`, `Completion` | calls that share a static request or fill it at the same time, and which exchanges can complete |
| `Settling` | file transfers that start at the same time, and when their targets leave RUNNING |
| `ServerRefinement`, `WaitRefinement`, `AgentRefinement` | the loops of server and agent are runs of protocol steps |
| `EndToEnd` | GET and SET calls from the request to the client's result |
| `Devices`, `Registry`, `Restart` | the device registry: an ordered map, the heap linked list that refines it, and restarting agents |
| `Lifecycle` | the server's start, stop and restart around API calls in progress |
| `DevInfoAgent` | publishing device information on change |
| `Config` | the configuration's table-driven printer and line parser |

How they fit: `Protocol.Step` is one atomic event (filling a request, writing it, an agent executing or sending,
the server taking one reply, a timeout). The refinement modules show that a round of the receive thread, a whole wait
of a call with whatever happens between its polls, and an agent's update are runs of such steps, so the theorems about
all runs cover them. `DataInfoServer.FileTransfer` works on the heap registry of `Registry.DevList`, and equals
`Transfer.Tick` on its contents; `ReplyRing.Ring.Update` sends what `ReplyRing.Slots` prescribes.

## Main results

- Exchanges. A request can be written by every call of its function that was about to write when it was filled, its own
  included, and in any reachable state no device has more requests and replies of it anywhere than that. So if there was
  no other such call, whatever happened before and happens later, a waiting call never writes behind its list, every ID
  it returns is on the request's list, and a call that ends before its timeout returns a permutation of that list. A
  transfer that ends by its counter has heard every target, and each that stayed registered reads its own result. After
  a timeout no target of the record reads RUNNING. A call or transfer can complete exactly if its list names no device
  twice.
- Concurrent calls. After any history a request can come to be written n times exactly if n - 1 other calls of its
  function are about to write when it is filled, and the list of a call can overflow exactly if the distinct devices of
  its list, times that number of writes, are more than the list is long. A waiting call returns at the first poll at
  which its list is full or its time up, and accepts a reply exactly if no later call of the same function has filled
  the request. A target that stays registered can be left RUNNING exactly if another transfer that does not name it is
  about to start, as long as no two transfers of one function are.
- SET. The in-place walk of `strtok("|")`, `strtok_r(";")` and `strtok(":")` over one buffer is the pure split. For any
  value lists, a device applies exactly the i-th piece of all of them, which is its own list exactly if that is one
  piece and the lists before it have i pieces together. If its pairs are well formed, it makes one
  call for each pair whose key's first row in the agent's table has a set function, and no other. From the server's
  lists to the client's dictionary, such a device's entry holds the last results of its own list.
- GET. An entry holds the keys its device knows, in request order, each with what the get function of the key's first
  row returned, or with no value if that row has none.
- Restart. A RUNNING server that finds another interface or address stops at once, and starts on it when no call and no
  transfer is left. A call or a transfer sees one transport from start to end, and a stopped server waits for a bounded
  number of exits before the restart becomes possible.
- Registry. Every run of operations commutes with an ordered map.
- Configuration. Printing and parsing restore exactly the configurations a file can express.

## Where the code does less than it seems to

These are properties that fail in the code; each has its exact condition.

- A call that begins while another call of the same function waits overwrites the static request that the earlier one
  compares replies with. The earlier call takes and drops all its further replies and ends only by its timeout
  (`SharedRequest.AcceptedIffNotOvertaken`, `SharedRequest.OvertakenTimesOut`; the input is
  `SharedRequest.TwoCallsLose`).
- A call sleeps for a second between filling the static request and writing it (common/dds_transport.c:353). If another
  call of the same function fills it meanwhile, the earlier request is never sent and the later one is sent twice; the
  devices answer twice, and the list of the later call overflows (`Overlap.DoubledIffOverlap`, `Overlap.OwnWriteIff`,
  `Overlap.OverflowIff`; the input is `Overlap.TwoOverlapOverflow`). Calls that fill before or after are not affected.
- A file transfer is refused only while another one runs, which is tested before that second. One that starts
  afterwards overwrites the record, and the targets of the earlier one that it does not name stay RUNNING for ever
  (`Settling.LeftRunningIff`, `Settling.AloneSettles`; the input is `Settling.ImportExportAbandons`). Two transfers of
  the same function also send the later request twice; then the counter can reach the number of targets with a target
  still RUNNING (`Settling.TwoImportsEndEarly`).
- An empty value list, and a list with a bar in it, shift the lists of all later devices: `strtok` skips empty segments
  and splits at every bar (`SetMessage.OwnPieceIff`, `SetMessage.BarShifts`). A device whose position is not below the
  number of pieces has no segment, and the NULL is used as a message (`SetMessage.SetReplyOkIff`,
  `SetMessage.EmptyListFails`). The comment at
  agent/datainfo_agent.c:119 names ',' as the second delimiter; the code uses '|', ';' and ':'.
- A pair of colons only has no key, and the NULL is compared (`SetRequest.SegmentOkIff`, `SetRequest.ColonsFail`).
- A segment that ends in a bare settable key (no colon, no final ';') takes its value from the memory behind it,
  for SET_SAME_VALUE behind the whole message (`SetRequest.IndependentIffClosed`, `SetMessage.SetEndToEnd`; the input is
  `SetRequest.BareKeyFails`).
- A call whose ID list names a device twice, and whose request can be written only once, always runs into its timeout
  (`Completion.CallCompletesIffDistinct`).
- An agent that restarts under its old writer handle is removed by the late loss report
  (`Devices.ReannounceNeedsFreshHandle`).
- A set key called `deviceID` overwrites the device ID in the client's result (`SetResult.DeviceIdSurvives`).
- The 64-bit configuration members are printed and parsed through an `int` pointer, so they are restored exactly if
  they are below 2^32 (`Config.PrintParse`).
- A device-information message whose write fails is not written again until something changes, so the last message is
  current exactly if the last write succeeded or changed none of the four fields (`DevInfoAgent.RunCoherent`,
  `DevInfoAgent.FailedFirstWrite`).
- A reply that shares the sequence number of another exchange is taken and dropped
  (`DataInfoServer.SharedNumberLoses`).
- A transfer whose callback is unknown on the agent, or has no function, reads result 0, like a success
  (`FileRequest.ReadsZeroIff`, `FileRequest.UnknownLooksDone`). Names of semicolons only make the agent compare a NULL
  name, and names with one token together make it print one (`FileRequest.NullNameIff`, `FileRequest.NullFileIff`).
- An agent that finds a recognised request for it behind 15 other addressed ones in one update writes its reply to the
  slot with index -1 (`ReplyRing.RoundFaultsIff`).
- The receive thread starts before the status is set. If the last attempt that it makes in between and that gets as far
  as the transport fails, the server is RUNNING without one (`Lifecycle.InitWindow`,
  `Lifecycle.FailedAttemptUnsound`). These two take an attempt as a whole. If the status is set in the middle of one,
  the server is RUNNING without a transport until the attempt ends, and sound then exactly if it succeeds
  (`Lifecycle.InitMidAttempt`).

## Assumptions

- Each modelled step is atomic. The C code has no lock around initialisation, API entry, transfer start and receive
  thread. Filling a static request and writing it are two steps; the initialisation is one, except in
  `Lifecycle.InitWindow` and `Lifecycle.InitMidAttempt`, and so is the start of a transfer in `Lifecycle`.
- Agent IDs are unique, a sequence number is chosen once, a written request reaches an agent at most once, and the network
  does not duplicate replies. It may drop, delay and reorder both.
- Callbacks do not call `strtok`, their texts contain no NUL, and file callbacks do not change the file buffer.
- Buffers of a fixed size are large enough for what is written into them (the 1024-byte SET reply, the 128-byte pair
  text, message buffers, configuration keys and values).
- `malloc` succeeds, except for the file content of an EXPORT reply and the device list, where both outcomes are
  modelled. The transfer fields of a new registry record hold whatever `malloc` returned.
- User callbacks, interfaces, IP addresses, file contents and the clock are inputs. Set and get functions may depend
  on everything set or read before.
- Integers are unbounded except where a width matters: the sizes in the GET reply buffer and the configuration
  members.

## Model

| member | source | states |
|---|---|---|
| `CStrings.TokensAreNonEmptyPieces` | agent/datainfo_agent.c:74-100 | repeated strtok calls return the pieces between delimiters, empty ones dropped |
| `CStrings.TokenClean` | agent/datainfo_agent.c:131-134 | a token is free of its delimiter, and there is one exactly if it is non-empty |
| `CStrings.SkipDelimiter` | agent/datainfo_agent.c:120-123 | a leading delimiter shifts the first token and changes neither it nor what follows |
| `CStrings.TokensCons` | agent/datainfo_agent.c:120-123 | the tokens of a word, a delimiter and a tail |
| `CStrings.TokensConcat` | agent/datainfo_agent.c:120-123 | tokens do not reach across a delimiter: two texts joined by one have the tokens of both |
| `CStrings.SplitCut` | server/datainfo_server.c:44 | the pieces of a text that is cut off are the pieces of the whole text up to the cut, the last one in part |
| `CStrings.HoldsUnique` | agent/datainfo_agent.c:131-137 | at most one C string starts at an address |
| `CStrings.HoldsCut` | agent/datainfo_agent.c:134 | a NUL written into a C string leaves its prefix, and its tail behind the NUL |
| `CStrings.CutHolds` | agent/datainfo_agent.c:131-134 | after a strtok call the token and the tail behind the saved cursor are C strings |
| `CStrings.CutFrame` | agent/datainfo_agent.c:131-134 | a strtok call does not disturb a string behind the terminator of the one it cuts |
| `CStrings.StrtokR` | agent/datainfo_agent.c:131 | strtok_r in place: the token's address, the saved cursor, and the single NUL it writes |
| `CStrings.NextToken` | agent/datainfo_agent.c:152 | strtok_r with the strings that its two pointers then denote |
| `Decimal.AtoiFormat` | server/datainfo_server.c:65 | atoi reads back every printed integer, whatever non-digit text follows |
| `Decimal.DecimalBase` | server/datainfo_server.c:65 | both are decimal, and atoi skips white space and takes a sign: three values in digits |
| `Decimal.FormatIntClean` | agent/datainfo_agent.c:144 | a printed integer holds only digits and a minus sign |
| `AgentTable.FirstRow` | agent/datainfo_agent.c:138-140 | the first row with a key, none exactly if no row has it |
| `AgentTable.FindRow` | agent/datainfo_agent.c:77-78 | the table scan finds the first row with the key |
| `AgentTable.FunctionsByRow` | agent/datainfo_agent.c:138-150 | the first row with a key decides whether it can be read and set; a key without a row can be neither |
| `AgentTable.IndexOf` | agent/datainfo_agent.c:53-61 | the first position of the agent's ID, none exactly if it is not on the list |
| `AgentTable.FindId` | agent/datainfo_agent.c:53-65 | the ID scan finds that position |
| `SetRequest.ValuePointer` | agent/datainfo_agent.c:134-137 | the pointer behind the key denotes the pair's value, also in the cases where it leaves the pair |
| `SetRequest.ApplyPairInPlace` | agent/datainfo_agent.c:133-151 | one pair on the buffer: which call is made with which value, the reply text, the faults, and the only byte written |
| `SetRequest.ApplySegmentInPlace` | agent/datainfo_agent.c:130-153 | the pair loop on the buffer equals the pure walk: the inner strtok does not disturb the outer cursor |
| `SetRequest.PairFrame` | agent/datainfo_agent.c:131-152 | cutting a pair disturbs neither the rest of the segment nor what follows it |
| `SetRequest.PairRoundTrip` | agent/datainfo_agent.c:134-137 | for a non-empty ':'-free key the value is everything behind the first colon, further colons included |
| `SetRequest.PairCalls` | agent/datainfo_agent.c:138-150 | a pair makes the call with its key and value, and reports its code, if and only if the first row of the key has a set function; otherwise, or without a row, it does nothing |
| `SetRequest.SegmentCalls` | agent/datainfo_agent.c:130-153 | the calls of a well-formed segment: one for each pair whose key's first row has a set function, in order |
| `SetRequest.WellFormedSegment` | agent/datainfo_agent.c:130-153 | on well-formed pairs the walk follows the pure split, in order, whatever memory follows; which calls that makes is PairCalls and SegmentCalls |
| `SetRequest.AfterMatters` | agent/datainfo_agent.c:130-153 | an open-ended segment runs off the message or takes the following text; for any other one the outcome does not depend on what follows |
| `SetRequest.IndependentIffClosed` | agent/datainfo_agent.c:135-137 | the walk is independent of the memory behind the segment if and only if the segment does not end in a bare settable key |
| `SetRequest.PairOkIff` | agent/datainfo_agent.c:133-137 | a pair fails with a NULL key exactly if it holds colons only, and behind the end exactly if it is a bare settable key with nothing behind it |
| `SetRequest.SegmentOkIff` | agent/datainfo_agent.c:130-153 | a segment is handled if and only if every pair has a key and the segment is followed by something or not open-ended; otherwise which fault it is |
| `SetRequest.ColonsFail` | agent/datainfo_agent.c:134-138 | the segment "::" gives a NULL key |
| `SetRequest.BareKeyFails` | agent/datainfo_agent.c:135-143 | the segment "k" of a settable key, alone in a message, is open-ended and takes its value behind the end |
| `SetMessage.Build` | server/datainfo_server.c:158-168 | the loop fills the ID list and joins the value lists with bar |
| `SetMessage.MessageSnoc` | server/datainfo_server.c:163-168 | each list is appended at the end, followed by a bar |
| `SetMessage.SelectSegment` | agent/datainfo_agent.c:114-124 | the strtok on the bar loop denotes the (i+1)-th non-empty segment and what follows it, or NULL |
| `SetMessage.HandleSet` | agent/datainfo_agent.c:110-153 | the SET branch on the message buffer is the specification of the branch, whose faults SetReplyOkIff and SegmentOkIff characterise |
| `SetMessage.SegmentIsSource` | server/datainfo_server.c:163-168 | if no value list has a bar in it, the agent at position i selects exactly the i-th non-empty list |
| `SetMessage.SourceIsOwn` | agent/datainfo_agent.c:114-124 | the i-th non-empty list is list i if and only if no list up to it is empty |
| `SetMessage.MessageTokens` | server/datainfo_server.c:163-168 | the tokens of the server's message are the pieces of its value lists, for any lists |
| `SetMessage.SegmentIsPiece` | agent/datainfo_agent.c:114-124 | for any value lists the agent at position i selects the i-th piece of all lists, or nothing if there are not so many |
| `SetMessage.OriginIff` | server/datainfo_server.c:163-168 | which token of which list the k-th piece is |
| `SetMessage.OwnPieceIff` | agent/datainfo_agent.c:114-124 | the agent selects its own whole list from its own place if and only if that list is one piece and the lists before it have as many pieces as its position |
| `SetMessage.OwnPieceBarFree` | agent/datainfo_agent.c:114-124 | without bars that means: no list up to its own is empty |
| `SetMessage.BarShifts` | server/datainfo_server.c:163-168 | with a bar in the first of two lists the second device selects the second half of the first list |
| `SetMessage.SetEndToEnd` | server/datainfo_server.c:147-172 | an agent whose list is the piece at its position treats its part of a SET message like the same list sent alone, if and only if the list is not open-ended |
| `SetMessage.SetEndToEndCalls` | server/datainfo_server.c:163-168 | an agent whose list is the piece at its position makes one call for each of its own well-formed pairs whose key's first row has a set function, with that key and value, in order, and no other call, whatever the other devices' lists |
| `SetMessage.SourceIsNonEmpty` | agent/datainfo_agent.c:114-124 | the i-th non-empty list, counted directly |
| `SetMessage.SetReplyOkIff` | agent/datainfo_agent.c:114-138 | for the server's message, with any value lists: handled if and only if there are more pieces than the position says and the selected one has a key in every pair; no segment, or a NULL key, exactly otherwise |
| `SetMessage.EmptyListFails` | agent/datainfo_agent.c:120-131 | with an empty list for the first of two devices the second finds no segment |
| `SetResult.ResultTextSnoc` | agent/datainfo_agent.c:144-145 | appending to the reply buffer adds the newest result at the end of the text |
| `SetResult.SegmentReports` | agent/datainfo_agent.c:132-153 | the reply reports every call made, in order, with its result, and nothing else |
| `SetResult.Decode` | swig/python_example.py:107-118 | the client's inner loop |
| `SetResult.DecodeAll` | swig/python_example.py:106-120 | the client's outer loop: one record for each reply, in order |
| `SetResult.DecodeInvertsReply` | swig/python_example.py:109-118 | decoding a reply text gives each key its last result, and the trailing ';' adds nothing |
| `SetResult.LastResultsAt` | swig/python_example.py:112-118 | exactly the reported keys are bound, each to its last result; other entries are untouched |
| `SetResult.DeviceIdSurvives` | swig/python_example.py:110-118 | the device ID survives if and only if no key is called deviceID |
| `SetResult.ClientSeesOutcomes` | agent/datainfo_agent.c:130-158 | agent and client together: the client decodes the results of exactly the calls the agent made |
| `EndToEnd.StepReports` | agent/datainfo_agent.c:70-160 | every step keeps: the reply to a GET or SET request reports what the device did |
| `EndToEnd.RunReports` | agent/datainfo_agent.c:70-160 | every run in which agents reply with what they did keeps it |
| `EndToEnd.UpdateHonest` | agent/datainfo_agent.c:266-271 | an update round of an agent that handles its requests is such a run |
| `EndToEnd.EntryDecodes` | swig/python_example.py:106-120 | from the entry of a device whose list is the piece at its position the client decodes the last result of each key in that list |
| `EndToEnd.SetCallDecodes` | server/datainfo_server.c:147-203 | server, agents and client together: a SET call that ends before its timeout has one entry per device, if its request could be written only once, and each entry whose list is the piece at its position and well formed decodes to the last results of that list |
| `EndToEnd.SameCallDecodes` | server/datainfo_server.c:205-248 | the same for SET_SAME_VALUE and its common list |
| `EndToEnd.GetCallCollects` | server/datainfo_server.c:94-139 | a GET call: each entry holds `key:value` for every requested key its device knows, in request order, and splits back into them; each value is what the get function of the first row of its key returned, after those of the earlier keys, and empty if that row has none; the entry of a longer reply splits into the first of them, 4096 characters together |
| `GetReply.AnswersKeys` | agent/datainfo_agent.c:74-101 | the known requested keys are answered in request order, no others |
| `GetReply.KnownSnoc` | agent/datainfo_agent.c:74-101 | a requested key is known exactly if some row has it |
| `GetReply.AnswersValues` | agent/datainfo_agent.c:81-95 | each answer's value is what the get function of the key's first row returns, given the earlier keys read, and empty if that row has none |
| `GetReply.RenderSplits` | agent/datainfo_agent.c:92-95 | splitting the reply at ';' gives back the answers |
| `GetReply.Realloc` | agent/datainfo_agent.c:88-91 | growing keeps the text |
| `GetReply.AppendAnswer` | agent/datainfo_agent.c:86-95 | compare, double and append: the text fits, and becomes the old text with `key:value;` |
| `GetReply.AnswerKey` | agent/datainfo_agent.c:77-99 | the scan for one key: first match only, empty value without a get function |
| `GetReply.HandleGet` | agent/datainfo_agent.c:70-101 | the GET branch on the message buffer builds exactly the concatenated answers |
| `FileArguments.Parse` | agent/datainfo_agent.c:163-165 | the first two tokens of the argument text; HandleFile states what becomes of them |
| `FileArguments.ArgumentsRoundTrip` | server/datainfo_server.c:259-261 | both names arrive if and only if they are non-empty and ';'-free |
| `FileArguments.ResultRoundTrip` | server/datainfo_server.c:65 | the server reads back every result code an agent prints, and an empty result as 0 |
| `FileRequest.FirstFile` | agent/datainfo_agent.c:167-168 | the first row with a callback name, none exactly if no row has it |
| `FileRequest.HandleFile` | agent/datainfo_agent.c:161-241 | the IMPORT and EXPORT branches on the message buffer: table scan, file read or written, callback, reply, faults |
| `FileRequest.HandleRow` | agent/datainfo_agent.c:168-186 | the statements for a row that matches, in order |
| `FileRequest.RowOutcome` | agent/datainfo_agent.c:168-230 | what the first row of a name does, in terms of its path, its two functions, the disk and the content sent: IMPORT writes path/file and calls, EXPORT reads path/file, calls and sends it |
| `FileRequest.WrittenIff` | agent/datainfo_agent.c:170-177 | IMPORT writes the content sent to path/file of the name's first row, if that row has a path; nothing else is written |
| `FileRequest.ServerReads` | server/datainfo_server.c:65 | the server reads the code of the callback of the first row with the name, and 0 if there is no such row or no function |
| `FileRequest.ReadsZeroIff` | server/datainfo_server.c:65 | the server reads 0 if and only if no row has the name, or the first such row has no function, or the callback returned 0 |
| `FileRequest.UnknownLooksDone` | agent/datainfo_agent.c:188 | an unknown callback and a successful one look the same to the server |
| `FileRequest.FaultsIff` | agent/datainfo_agent.c:164-177 | exactly when a NULL name is compared, a NULL file name printed, or an unopened file written |
| `FileRequest.HasTokenIff` | agent/datainfo_agent.c:164 | a message has a token exactly if it holds something other than delimiters |
| `FileRequest.NullNameIff` | server/datainfo_server.c:259-261 | the server's message makes the agent compare a NULL name if and only if both names hold nothing but semicolons |
| `FileRequest.TwoTokens` | server/datainfo_server.c:259-261 | the agent gets the first two tokens of both names together |
| `FileRequest.NullFileIff` | server/datainfo_server.c:259-261 | the server's message makes the agent print a NULL file name if and only if the two names have one token together and the row of that name has a path |
| `FileRequest.EmptyNameShifts` | server/datainfo_server.c:259-261 | with an empty callback name the agent looks up the file name |
| `FileRequest.FileEndToEnd` | server/datainfo_server.c:250-275 | for names that arrive, the callback of the name's first row gets the file name and the content sent or read at path/file, if its function is there, and the server reads its code and file |
| `ReplyRing.SentAnswersServed` | agent/datainfo_agent.c:251-264 | one reply for each addressed request of a known type, in arrival order, and no other |
| `ReplyRing.SlotAt` | agent/datainfo_agent.c:52-68 | the n-th addressed request fills the n-th slot with its own reply, or leaves it empty if its type is unknown |
| `ReplyRing.RoundFaultsIff` | agent/datainfo_agent.c:20-28 | a round fails if and only if a recognised addressed request comes after 15 other addressed ones |
| `ReplyRing.Ring.constructor` | agent/datainfo_agent.c:273-282 | all messages start as NULL |
| `ReplyRing.Ring.Enqueue` | agent/datainfo_agent.c:20-28 | -1 exactly if 15 slots are live; otherwise the new slot is at the back and NULL |
| `ReplyRing.Ring.Dequeue` | agent/datainfo_agent.c:30-38 | -1 exactly if no slot is live; otherwise the oldest slot leaves the window |
| `ReplyRing.Ring.RecvRequest` | agent/datainfo_agent.c:40-68 | an addressed request takes one slot, also when its type is not recognised; with 15 live slots a recognised one fails and an unrecognised one does nothing |
| `ReplyRing.Ring.SendData` | agent/datainfo_agent.c:251-264 | every live reply is sent once, oldest first, and the ring ends empty with all messages NULL |
| `ReplyRing.Ring.Update` | agent/datainfo_agent.c:266-271 | a round fails exactly if a recognised addressed request finds the ring full; otherwise it sends exactly the replies and leaves the ring empty |
| `Messages.TakeFirst` | common/dds_transport.c:407-426 | a take by instance removes the first reply of its key and nothing else |
| `Messages.DrainKeepsOthers` | common/dds_transport.c:407-426 | draining one key leaves the replies of every other key as they were |
| `Messages.DrainConserves` | common/dds_transport.c:407-426 | a drain neither loses nor makes up a reply |
| `Transfer.StatusAfterSet` | server/devinfo_server.c:241-260 | a status write changes the status of that device only, and registers none |
| `Transfer.StatusAfterMark` | server/datainfo_server.c:276-279 | marking makes exactly the registered targets read RUNNING |
| `Transfer.StatusAfterSweep` | server/datainfo_server.c:358-366 | the sweep turns exactly the targets that read RUNNING into AGENT_ERROR, with any ID list and registry |
| `Transfer.StatusAfterAdd` | server/devinfo_server.c:39-66 | an announcement keeps the transfer status of every registered device |
| `Transfer.StatusAfterRemove` | server/devinfo_server.c:86-123 | a loss keeps the transfer status of every device that stays registered |
| `Transfer.AcceptAllStatus` | server/datainfo_server.c:49-83 | draining changes only the status of devices that replied, to DONE or SERVER_ERROR |
| `Transfer.ReplyOutcome` | server/datainfo_server.c:49-83 | a reply of the running transfer: its device reads DONE with the code, for EXPORT with the file sent; if the memory for that file is missing, SERVER_ERROR without it |
| `Transfer.OtherReply` | server/datainfo_server.c:49-83 | a reply of another exchange changes nothing, and any reply only its own device |
| `Transfer.RoundEnds` | server/datainfo_server.c:346-373 | a round counts the pending replies of the transfer and ends it exactly if all have come or the time is up; within the time it changes only devices that replied |
| `Transfer.TickTimeoutSound` | server/datainfo_server.c:346-373 | any round past the timeout leaves the transfer idle, no target RUNNING, and finished statuses as they were unless the device's own reply was pending |
| `DataInfoServer.Transport.TakeInstance` | common/dds_transport.c:407-426 | one take by instance on the reader |
| `DataInfoServer.ReplyData.RecvReply` | server/datainfo_server.c:30-47 | a reply with the type and number of the shared static request is appended, cut at 4096 characters, and fails exactly if the list is full; any other one changes nothing |
| `DataInfoServer.ReplyData.TryRecvInstance` | common/dds_transport.c:397-430 | the whole instance of the call's own number is taken; its replies are appended, in order, only while the static request holds that number; it fails exactly if there are more than the list has room for |
| `DataInfoServer.PollMerge` | server/datainfo_server.c:127-135 | two polls take what one later poll would take, unless another call begins in between |
| `DataInfoServer.PollAllAtOnce` | server/datainfo_server.c:127-135 | polling in rounds keeps what one round would keep up to the first later call of the same function; after that replies are taken and lost |
| `DataInfoServer.WaitStops` | server/datainfo_server.c:127-135 | the loop stops at the first poll at which its list is full, the time up, or the input used up: before each poll it makes, the list was not full and the time not up |
| `DataInfoServer.WaitCollects` | server/datainfo_server.c:127-138 | the result is the matching replies that arrived, in order, before the first poll at which the list was full or the time up, and before a later call of the same function filled the request; replies to other numbers stay |
| `DataInfoServer.WaitKeepsOthers` | server/datainfo_server.c:127-135 | replies to every other number are still there after the call, in order |
| `DataInfoServer.SharedNumberLoses` | server/datainfo_server.c:38-40 | a reply of another type under this call's number is taken and lost; under another number it stays |
| `DataInfoServer.WaitForReplies` | server/datainfo_server.c:123-138 | the waiting loop, with the static request overwritten at any poll, refines the specification, whose stop WaitStops characterises, and fails exactly if that keeps more replies than the list has room for |
| `DataInfoServer.Exchange` | server/datainfo_server.c:94-139 | fill the static request, sleep, write what it then holds, wait; the list returned is the replies kept, or it fails exactly if there are too many |
| `DataInfoServer.SetInfo` | server/datainfo_server.c:147-203 | the SET call with the message and ID list it builds, with the same outcomes |
| `DataInfoServer.FileTransfer.constructor` | server/datainfo_server.c:85-92 | the record starts idle |
| `DataInfoServer.FileTransfer.RecvFileTransferReply` | server/datainfo_server.c:49-83 | a reply of this transfer sets that device's status and result and counts one; any other changes nothing |
| `DataInfoServer.FileTransfer.TryRecvInstance` | common/dds_transport.c:397-430 | the whole instance is taken and handled in order |
| `DataInfoServer.FileTransfer.Fill` | server/datainfo_server.c:250-272 | refused exactly while a transfer runs; otherwise the static request gets the new number |
| `DataInfoServer.FileTransfer.Start` | server/datainfo_server.c:273-294 | a second later: what the static request then holds is written, the call's own targets are marked, and the record starts with the number of the static request |
| `DataInfoServer.FileTransfer.SweepTargets` | server/datainfo_server.c:358-366 | the timeout sweep on the heap registry |
| `DataInfoServer.FileTransfer.DrainMissing` | server/datainfo_server.c:348-350 | draining once per missing reply equals draining once |
| `DataInfoServer.FileTransfer.Round` | server/datainfo_server.c:338-375 | one round on record, heap registry and reader equals the specification of a round |
| `Protocol.RepsDrop` | server/datainfo_server.c:43-45 | taking a reply lowers the count of its device and number by one and no other |
| `ProtocolInvariant.MessagesKept` | server/datainfo_server.c:30-47 | every step keeps: each pending reply answers a request that was sent, from a device on its list |
| `ProtocolInvariant.BoundedKept` | agent/datainfo_agent.c:52-68 | every step keeps: what is present of a number and device over inboxes, rings, network and results, and what can still be written of it, is at most the number of calls of its function that were about to write when it was filled, its own included |
| `ProtocolInvariant.PendingStep` | common/dds_transport.c:348-360 | every write of a request uses up one of its pending writes, and nothing adds to them |
| `ProtocolInvariant.OpenKept` | common/dds_transport.c:348-360 | every step keeps: the open calls of a function can write its request as often as was settled when it was filled, and once less when its own call has written |
| `ProtocolInvariant.TotalStep` | common/dds_transport.c:348-360 | only writing a request adds to what is present of a number and device |
| `ProtocolInvariant.WritesOwn` | common/dds_transport.c:348-360 | if the request that a call writes can be written only once, it is its own, and no other call of its function is about to write |
| `ProtocolInvariant.ExchangesKept` | server/datainfo_server.c:281-291 | every step keeps: calls and transfer wait for what they sent, static requests and open calls fit together, and the transfer's counter is the number of replies accepted if its request could be written only once |
| `ProtocolInvariant.NotYetReplied` | server/datainfo_server.c:79-81 | a device whose reply is in flight has not been counted |
| `ProtocolInvariant.StatusesKept` | server/datainfo_server.c:49-83 | every step keeps: a target that has been registered since the start reads the result of its own reply, as the malloc for that reply's file came out, or RUNNING if it has not replied, if the request could be written only once |
| `ProtocolInvariant.RunKeepsInv` | server/datainfo_server.c:94-139 | every run keeps all of these |
| `ProtocolTheorems.Pigeonhole` | server/datainfo_server.c:127 | distinct repliers from the list are at most as many as the list, and if as many, a permutation of it |
| `ProtocolTheorems.CollectedDistinct` | server/datainfo_server.c:42-45 | the accepted replies to a request that could be written only once come from distinct devices of the ID list |
| `ProtocolTheorems.CollectWithinBounds` | server/datainfo_server.c:43-45 | whenever a call whose request could be written only once puts a reply into its list, there is room for it; OverflowIff is the exact condition |
| `ProtocolTheorems.CallComplete` | server/datainfo_server.c:127-138 | a call whose request could be written only once and that ends before its timeout returns a permutation of its ID list, so one with a repeated ID never does; the converse is CallCompletesIffDistinct |
| `ProtocolTheorems.TransferComplete` | server/datainfo_server.c:351-354 | a transfer that ends by its counter has one reply from every target, and each target that stayed registered reads its own outcome: its code and file, or SERVER_ERROR for an EXPORT reply whose file got no memory, if its request could be written only once |
| `ProtocolTheorems.CounterNeverPasses` | server/datainfo_server.c:352 | the counter never passes the number of targets, so the equality test is not missed, if the request could be written only once |
| `ProtocolTheorems.TimeoutSound` | server/datainfo_server.c:357-368 | a timeout in any state leaves the transfer idle and no target RUNNING, and changes no other status |
| `ProtocolTheorems.NonInterference` | server/datainfo_server.c:38-40 | a step of one exchange neither takes nor adds a reply of another, nor changes what it has accepted, nor, unless it fills the same static request, what it will accept |
| `ProtocolTheorems.CurrentStep` | server/datainfo_server.c:96 | only a call that fills the same static request changes what it holds |
| `SharedRequest.CurrentRun` | server/datainfo_server.c:96-111 | a call stays current exactly until a later call of the same function fills the request |
| `SharedRequest.CollectKeepsIffCurrent` | server/datainfo_server.c:38-40 | a reply that a call takes is kept if and only if the call is current, and is gone in either case |
| `SharedRequest.AcceptedIffNotOvertaken` | server/datainfo_server.c:38-45 | over all runs: a waiting call accepts a reply it takes if and only if no later call of the same function has filled the request |
| `SharedRequest.OvertakenRun` | server/datainfo_server.c:38-40 | an overtaken call accepts nothing more |
| `SharedRequest.OvertakenTimesOut` | server/datainfo_server.c:127-131 | a call overtaken before its list is full returns only past its timeout |
| `SharedRequest.AnswerLost` | server/datainfo_server.c:38-40 | an answer to an overtaken call is taken and lost |
| `SharedRequest.TwoCallsLose` | server/datainfo_server.c:94-139 | two GET calls for one device, one after the other: the first takes its answer, rejects it and goes on waiting |
| `Overlap.WritesBounded` | common/dds_transport.c:348-360 | a run writes a request at most as often as calls of its function are open while the static request holds it |
| `Overlap.WriteAll` | common/dds_transport.c:348-360 | some run writes it that often, and each agent that is reached gets as many copies |
| `Overlap.WritableIff` | common/dds_transport.c:348-360 | after any history a request can come to be written n times if and only if n - 1 calls of its function are between fill and write when it is filled |
| `Overlap.OwnWriteIff` | common/dds_transport.c:348-360 | a call writes its own request if and only if no other call of its function fills meanwhile; otherwise its request is never written from then on |
| `Overlap.DoubledIffOverlap` | common/dds_transport.c:348-360 | after any history and in any continuation a request counts as doubled, and can be written twice, if and only if it is filled while another call of its function is between fill and write |
| `Overlap.CollectedBounded` | server/datainfo_server.c:42-45 | an exchange never accepts more replies than its distinct devices times the writes of its request |
| `Overlap.OverflowIff` | server/datainfo_server.c:43-45 | after any history the list of a call can overflow if and only if its distinct devices times the writes its request can have are more than the list is long |
| `Overlap.DistinctOverflowIff` | server/datainfo_server.c:43-45 | for a list that names no device twice: if and only if another call of the function is about to write and the list is not empty |
| `Overlap.TwoOverlapOverflow` | server/datainfo_server.c:96-138 | two overlapping GET calls for one device: two answers can be accepted into a list with room for one |
| `Settling.OtherAbandons` | server/datainfo_server.c:281-291 | a transfer that starts while another one runs overwrites the record; a target of the other that it does not name is left RUNNING |
| `Settling.CoveredRun` | server/datainfo_server.c:346-373 | a registered target that every starting transfer names has left RUNNING when the record becomes idle, if no two transfers of one function are starting |
| `Settling.LeftRunningIff` | server/datainfo_server.c:255-257 | after any history: a target of a transfer that starts can be left RUNNING if and only if another transfer that does not name it is between fill and start |
| `Settling.AloneSettles` | server/datainfo_server.c:255-291 | a transfer during whose fill-to-start second no other transfer is between its own fill and start leaves no registered target RUNNING |
| `Settling.ImportExportAbandons` | server/datainfo_server.c:255-291 | an IMPORT and an EXPORT that start together: the record becomes idle, and the target of the IMPORT reads RUNNING |
| `Settling.TwoImportsEndEarly` | server/datainfo_server.c:351-354 | two IMPORTs that start together: one device answers twice, the counter is reached, and the other target reads RUNNING |
| `Completion.AnswerOne` | agent/datainfo_agent.c:266-271 | a device with one request waiting answers it in two steps |
| `Completion.BeginAlone` | server/datainfo_server.c:276-291 | a call or transfer that fills and writes without another one open writes its own request and starts to wait, or starts its record |
| `Completion.CallCompletesIffDistinct` | server/datainfo_server.c:127 | a call whose request can be written only once can return before its timeout if and only if its list names no device twice and the timeout is not negative |
| `Completion.TransferFinishesIffDistinct` | server/datainfo_server.c:352-354 | a transfer whose request can be written only once can end by its counter, with all targets registered all along, if and only if its list names no device twice |
| `ProtocolTheorems.CallsAndTransferApart` | server/datainfo_server.c:58-60 | calls and a concurrent transfer neither steal nor lose each other's replies or statuses |
| `ServerRefinement.PollStepsRun` | server/datainfo_server.c:348-350 | the transfer's drain is a run of protocol steps |
| `ServerRefinement.RoundIsRun` | server/datainfo_server.c:346-374 | a round of the receive thread is a run of protocol steps |
| `ServerRefinement.PollIsRun` | server/datainfo_server.c:132 | a poll of a waiting call is a run of protocol steps, also when the call has been overtaken |
| `WaitRefinement.ForeignRun` | server/datainfo_server.c:127-135 | whatever happens between two polls, the call's list stays and its instance only grows by the replies sent meanwhile |
| `WaitRefinement.LoopMirrors` | server/datainfo_server.c:127-135 | a whole wait, with any environment steps between the polls, is a protocol run, and the loop's state agrees with it |
| `WaitRefinement.WaitHasRoom` | server/datainfo_server.c:102-103 | in a whole wait from any state that keeps the invariant, what the call keeps fits its list, if its request could be written only once |
| `WaitRefinement.WaitResult` | server/datainfo_server.c:127-138 | the wait ends at the first poll that finds its list full or the time up: with one reply from every target or past its timeout, with replies of distinct targets in any case, if the request could be written only once |
| `WaitRefinement.StillWaits` | server/datainfo_server.c:127-131 | before each turn the loop takes, the protocol state has a list that is not full and a time that is not up |
| `WaitRefinement.OpenedRun` | common/dds_transport.c:353 | whatever happens while the call sleeps before its write, it stays open and has collected nothing |
| `WaitRefinement.GapAndWrite` | common/dds_transport.c:353 | from fill to write, whatever happens: the call writes what the static request then holds and starts to wait with an empty list |
| `WaitRefinement.Call` | server/datainfo_server.c:94-139 | a GET or SET call in any run, with anything happening between fill and write and between polls: it writes what the static request holds, and if no other call of its function was about to write when it filled, no reply is written behind its list and the entries are of distinct targets, all of them or the time is up; in any case it returns as soon as its list is full or the time is up, and not before |
| `AgentRefinement.ExecuteRun` | agent/datainfo_agent.c:268 | taking all waiting requests is a run of protocol steps |
| `AgentRefinement.SendRun` | agent/datainfo_agent.c:255-262 | draining the ring is a run of protocol steps |
| `AgentRefinement.UpdateIsRun` | agent/datainfo_agent.c:266-271 | executing all waiting requests and draining the ring is a run of protocol steps that sends exactly the ring's replies |
| `AgentRefinement.Round` | agent/datainfo_agent.c:266-271 | a round on the agent's own ring is such a run, or fails exactly if a recognised addressed request finds the ring full |
| `Devices.Find` | server/devinfo_server.c:31-37 | the first record of a device, none exactly if there is none |
| `Devices.MatchIndex` | server/devinfo_server.c:97-113 | the first record a loss matches, none exactly if there is none |
| `Devices.RecordsAt` | server/devinfo_server.c:262-286 | the map's record of a device is the one a lookup finds |
| `Devices.AddCommutes` | server/devinfo_server.c:30-66 | an announcement is a map update: in place for a known device, at the head for a new one |
| `Devices.SetStatusCommutes` | server/devinfo_server.c:241-260 | a status write is a map update |
| `Devices.RemoveCommutes` | server/devinfo_server.c:86-123 | a loss removes the first matching key and its record |
| `Devices.FindAfterRemove` | server/devinfo_server.c:97-113 | a removed device is not found, every other one is found with its record |
| `Devices.AddPlaces` | server/devinfo_server.c:23-70 | an announcement rewrites the record of its device where it stands, keeping its transfer fields, or puts a new one at the head |
| `Devices.LossOfWriter` | server/devinfo_server.c:86-123 | the loss of a writer removes the first record with its handle, or nothing |
| `Devices.ContainsIff` | server/devinfo_server.c:143 | strstr finds a text exactly if it occurs at some position |
| `Devices.LossOfRobot` | server/devinfo_server.c:131-168 | the loss of a robot removes the first record whose information contains its ID, or nothing |
| `Devices.RunRefines` | server/devinfo_server.c:23-286 | every run of operations keeps IDs unique and commutes with the ordered map |
| `Devices.GetStatusIsLookup` | server/devinfo_server.c:262-286 | the status read is the map's, and AGENT_ERROR exactly for an unknown device |
| `Devices.LoseOld` | server/devinfo_server.c:86-128 | a loss removes the one record of the writer and no other |
| `Restart.ElsewhereStep` | server/devinfo_server.c:23-123 | an operation that concerns other devices keeps the device's record and acts on the others as if it were not there |
| `Restart.LossStep` | server/devinfo_server.c:86-128 | a loss of a writer removes the device's record exactly if that writer announced it last, and no other |
| `Restart.AnnounceStep` | server/devinfo_server.c:50-66 | an announcement by a new writer takes over the record or makes one, and touches no other |
| `Restart.AroundRun` | common/dds_transport.c:123-156 | any run of losses of the old writer and operations on others, in any order |
| `Restart.Reannounce` | common/dds_transport.c:123-156 | old writer lost any number of times before and after the new announcement, other devices' operations in between: one record, new handle, new info, all others as those operations alone leave them |
| `Devices.ReannounceNeedsFreshHandle` | common/dds_transport.c:123-156 | the restarted device stays registered if and only if its handle is fresh |
| `Devices.LostIffCurrent` | server/devinfo_server.c:86-123 | a loss removes a device if and only if that writer announced it last |
| `Registry.DevList.constructor` | server/devinfo_server.c:216-224 | the empty list |
| `Registry.DevList.FindNode` | server/devinfo_server.c:31-37 | the search loop returns the node of the device, or null |
| `Registry.DevList.PushHead` | server/devinfo_server.c:62-66 | the new node is at the head, the counter stays the length |
| `Registry.DevList.UnlinkAfter` | server/devinfo_server.c:106-110 | unlinking drops exactly the next node |
| `Registry.DevList.WriteInfo` | server/devinfo_server.c:50-57 | writing a node's info changes that record only |
| `Registry.DevList.AddDevice` | server/devinfo_server.c:23-70 | list and counter stay consistent, IDs unique, contents as specified |
| `Registry.DevList.DelDevice` | server/devinfo_server.c:86-168 | both loss callbacks unlink the first matching record, if any |
| `Registry.DevList.SetStatusById` | server/devinfo_server.c:241-260 | the counter-driven walk stays on the list and writes the device's record, or returns -1 |
| `Registry.DevList.GetStatusById` | server/devinfo_server.c:262-286 | the counter-driven walk stays on the list and reads the device's record, or AGENT_ERROR |
| `Registry.DevList.Update` | server/devinfo_server.c:172-175 | draining adds all announcements taken in order, and reports a failing take |
| `Registry.DevList.CopyOut` | server/devinfo_server.c:193-197 | the counter-driven copy returns every record's info in order and stays on the list |
| `Registry.DevList.CreateList` | server/devinfo_server.c:177-205 | the outputs in all three cases: success, failing drain, no memory |
| `Registry.DevList.Deinit` | server/devinfo_server.c:226-239 | all nodes are dropped and the counter is zero |
| `Registry.DrainKeepsLast` | server/devinfo_server.c:50-57 | after a drain a device has its last announced info, whatever others announced |
| `Lifecycle.StepKeepsInv` | server/rmt_server.c:41-84 | every step keeps: the counter counts the calls, RUNNING has a transport, calls and transfer hold the current one |
| `Lifecycle.ReachableSafe` | server/rmt_server.c:134-143 | this holds in every state of every run |
| `Lifecycle.InitWindow` | server/rmt_server.c:118-122 | whatever attempts the receive thread makes before the start has set the status, the server is sound if and only if none of them acted or the last that did succeeded |
| `Lifecycle.InitMidAttempt` | server/rmt_server.c:63-73 | if the status is set in the middle of an attempt, the server is RUNNING without a transport until the attempt ends, and sound then if and only if it succeeds |
| `Lifecycle.FailedAttemptUnsound` | server/rmt_server.c:69-77 | one attempt that cannot open the domain leaves the server RUNNING without a transport |
| `Lifecycle.CallSeesOneTransport` | server/rmt_server.c:157-167 | from entry to exit a call sees one transport |
| `Lifecycle.TransferSeesOneTransport` | server/rmt_server.c:53-56 | from start to end a transfer sees one transport |
| `Lifecycle.TransportChangesWhenIdle` | server/rmt_server.c:53-73 | the transport changes only in an attempt that finds no call and no transfer |
| `Lifecycle.StoppedStep` | server/rmt_server.c:48-56 | while stopped no call gets in, the measure never grows, drops at exits and transfer ends, and is zero when the server starts |
| `Lifecycle.StoppedRun` | server/rmt_server.c:48-56 | a stopped server waits for at most as many exits and transfer ends as the measure says |
| `Lifecycle.ReinitProgress` | server/rmt_server.c:53-83 | once the calls have returned and the transfer is over or late, the next attempt with a working network starts a new transport |
| `Lifecycle.AttemptWhileUp` | server/rmt_server.c:41-83 | a RUNNING server whose interface or IP changed: while busy it stops, keeps its transport and lets nobody in; when idle it is RUNNING on a new transport with the new interface and IP, or stopped without one if it cannot open; without a change, or without detection, nothing happens |
| `Lifecycle.AttemptWhileStopped` | server/rmt_server.c:41-83 | a stopped server: waits while busy; when idle it starts on the interface and IP of the moment, or stays stopped without a transport |
| `Lifecycle.RoundEndsTransfer` | server/rmt_server.c:36-39 | a round ends a transfer exactly if there is a transport and it has all replies or is late, and changes nothing else |
| `Lifecycle.StartOnce` | server/rmt_server.c:210-224 | a call starts a transfer on its own transport if none runs, and otherwise leaves the running one alone |
| `Lifecycle.EntryAndExit` | server/rmt_server.c:157-167 | entry is refused while stopped; else it adds one call on the current transport, and its exit undoes that |
| `Lifecycle.ReinitStops` | server/rmt_server.c:281-286 | a restart request sets the status to stopped and nothing else |
| `Lifecycle.ServerInfo.constructor` | server/rmt_server.c:102-124 | the literal fields after a successful start, taken as one step; they keep the invariant |
| `Lifecycle.ServerInfo.Enter` | server/rmt_server.c:157-161 | an API call gets in exactly if the status is RUNNING |
| `Lifecycle.ServerInfo.Exit` | server/rmt_server.c:166-167 | an API call leaves |
| `Lifecycle.ServerInfo.StartTransfer` | server/rmt_server.c:210-224 | a transfer starts on the call's transport, or is refused while one runs |
| `Lifecycle.ServerInfo.RequestReinit` | server/rmt_server.c:281-286 | the status becomes STOP |
| `Lifecycle.ServerInfo.TransferRound` | server/rmt_server.c:36-39 | the transfer ends when complete or late, and only with a transport |
| `Lifecycle.ServerInfo.CheckInterface` | server/rmt_server.c:40-85 | stop, wait, tear down, open, start |
| `Lifecycle.ServerInfo.Turn` | server/rmt_server.c:35-87 | one turn of the receive loop |
| `DevInfoAgent.TextTerminated` | agent/devinfo_agent.c:34 | terminating the old hostname array does not change its string |
| `DevInfoAgent.InfoFields` | agent/devinfo_agent.c:54-59 | the message carries the strings of the arrays of host name, IP, MAC and information, each in its own field |
| `DevInfoAgent.UpdateRemembers` | agent/devinfo_agent.c:27-60 | an update remembers the sample, and one that writes nothing had remembered it before |
| `DevInfoAgent.RunPublishes` | agent/devinfo_agent.c:78-91 | the last update that writes decides what has been published, and it writes the current fields |
| `DevInfoAgent.RunCoherent` | agent/devinfo_agent.c:78-91 | for every run: the last message has the current host name, IP, MAC and information if and only if the last update that wrote succeeded or the message before it had them; a failed write changes no message |
| `DevInfoAgent.FailedWriteStays` | agent/devinfo_agent.c:85-88 | a failed write is not repeated while the sample stays the same |
| `DevInfoAgent.FailedFirstWrite` | agent/devinfo_agent.c:85-88 | one failed write and nothing changes: nothing is ever published |
| `DevInfoAgent.RepeatPublishesNothing` | agent/devinfo_agent.c:43-49 | nothing is published while nothing changes |
| `DevInfoAgent.ServerSeesCurrent` | server/devinfo_server.c:50-57 | if the server gets at least the last message, in any interleaving with other devices, its record carries the strings in the agent's current four arrays exactly if that message does |
| `DevInfoAgent.Agent.GetDeviceInfo` | agent/devinfo_agent.c:27-60 | compare and overwrite the remembered information, build the message |
| `DevInfoAgent.Agent.DoUpdate` | agent/devinfo_agent.c:78-91 | publish on change, then clear the flag |
| `Config.LookupRow` | common/rmt_config.c:129-130 | every member has a row, and the first row with its name is that row |
| `Config.ParseRestorable` | common/rmt_config.c:118-144 | whatever text is read, the result is a configuration a file can express |
| `Config.ParsedLine` | common/rmt_config.c:123 | a printed line is read back as its name and value, and as a syntax error if the value is empty |
| `Config.LineTaken` | common/rmt_config.c:118 | fgets takes a printed line as one line |
| `Config.StoreShow` | common/rmt_config.c:131-137 | storing the printed value of a member copies it, through the int pointer |
| `Config.PrintParse` | common/rmt_config.c:75-89 | printing and parsing from the defaults restores a configuration if and only if its strings have no white space, the log file is named, and the 64-bit members fit 32 bits |
| `Config.ParsePrintParse` | common/rmt_config.c:91-151 | for any file whose strings fit the 40-byte members, reading it, printing the result and reading that again changes nothing |
| `Config.LastLineWins` | common/rmt_config.c:118-144 | every member holds what the last well-formed line with its name sets, whatever the other lines say |
| `Config.LinesSet` | common/rmt_config.c:42-53 | which member each name of the table sets, to the word behind the colon or to the number it prints |
| `Config.WideLinesSet` | common/rmt_config.c:42-53 | the names of the 64-bit members set the low half of their own member |
| `Config.LineIgnored` | common/rmt_config.c:118-126 | a comment, an empty line and a line without a colon set nothing |
| `Config.LineCut` | common/rmt_config.c:118-123 | a NUL ends a line |
| `Config.ConfigFile.Print` | common/rmt_config.c:75-89 | the table loop prints every row once, in order |
| `Config.ConfigFile.Put` | common/rmt_config.c:129-143 | the table loop stores into the first row with the key, or nowhere |
| `Config.ConfigFile.Init` | common/rmt_config.c:91-151 | nothing if already initialised; else the literal defaults with the file's lines applied, if there is a file |
| `Config.ConfigFile.Deinit` | common/rmt_config.c:180-183 | the next init reads again |

## Left out

- GetReply.HandleGet: the reply is assumed shorter than 2^31 characters, so that the size arithmetic in `unsigned int` does not wrap; the size of a get function's value buffer is not modelled.
- DataInfoServer.ReplyData.RecvReply: a reply text of 4096 or more characters is cut, but the missing terminator that strncpy then leaves in the list is not modelled.
- DataInfoServer.Transport.TakeInstance: reports of an unknown instance and failing takes end the drain in the source and are not modelled.
- DataInfoServer.FileTransfer.Start: one method for send and receive; marking the targets and starting the record are one step in Protocol. The argument text is FileArguments.Build.
- DataInfoServer.ReplyData.TryRecvInstance: what a reply that is written behind the list destroys is not modelled; the call just fails.
- AgentRefinement.UpdateIsRun: the rings of Protocol are unbounded; a round that fails has no counterpart there (see Round).
- EndToEnd.SetCallDecodes: for reports of at most 4096 characters, which the 1024-byte reply buffer implies; SET requests that an overlap sends twice are assumed to be answered alike.
- DataInfoServer.WaitCollects: another call is noticed at a poll; one that begins in the middle of a drain is covered by SharedRequest.AcceptedIffNotOvertaken.
- ProtocolTheorems.TransferComplete: the status of a target that is lost and announced again during the transfer is not stated; its new record holds whatever malloc returned.
- Settling.LeftRunningIff: for requests that can be written only once; with two starting transfers of one function, which replies are still on the way decides whether the counter is reached early (see TwoImportsEndEarly).
- Registry.DevList.CreateList: the copy is by value; in the source the strings stay shared with the registry.
- DevInfoAgent.RunCoherent: the model name is read after the comparison and is never a reason to publish, so it is not among the fields that are kept current.
- Config.ConfigFile.Init: an atoi value outside 32 bits is undefined in C and wraps here; keys, values and the 40-byte string members are not bounded while parsing.
- Config.PrintParse: the prefix the logger puts before each line is not part of the text; the model has the Zenoh row.
- Lifecycle.ServerInfo.constructor: one step, where the source starts the receive thread before it sets counter and status (see InitWindow and InitMidAttempt); a failing start is not modelled.
- FileRequest.HandleFile: a short read of a file and the size of the result text are not modelled.
- Lifecycle.ReinitProgress: that calls return and that the clock advances are hypotheses, since neither is the server's doing.
- Stopping the server with rmt_server_deinit: it leaves the status RUNNING and a freed transport behind, and races with calls in progress.
- Races within a statement or between unlocked globals, such as a transfer start that the receive thread sees half-way.
- Sequence numbers: rand seeded with the time can repeat a number within a second; numbers are fresh here.
- DDS entities, QoS, discovery and liveliness; only takes, writes and the two loss callbacks are modelled.
- Network interface selection, the runtime configuration and ID generation in common/network.c; their results are inputs of the receive loop.
- Memory ownership: leaks, freeing the lists handed to the caller, the request's ID buffer outliving the call.
- Wrap-around of the 32-bit device counter and of the call counter.
- The substring key test of get_config in swig/python_example.py, which displays GET results.
- Logging, the agent's start-up code, the example programs and the build files.
