# Load balancer, JSON and template compiler: a verified model

This project models four parts of the LCXL network load balancer and proves what they promise.
Every file is Dafny 4; `dafny verify dfyconfig.toml` checks them all.

**The driver** (`Driver*.dfy`). One adapter in the router role is a state machine over its
servers, its TCP route table and its poll index. Its steps are: add a server, delete a server, a
tick of the health checker, a checking frame, and a TCP packet. `DriverFilter` gives the steps as
functions, `DriverInvariants` what every step keeps, `DriverSessions`, `DriverDraining` and
`DriverHealth` what holds over whole runs, and `DriverAdapter` the handlers in place.
`DriverLockList` is the list whose changes wait while it is locked. `DriverServers` and `DriverFairness` are server selection.
`DriverPackets` and `DriverChain` are what happens to a packet and to the chain it came in.
`DriverChecksum` is the IPv6 upper-layer checksum of section 8.1 of RFC 2460.

**jsoncpp** (`Json*.dfy`). `JsonValue` is the order of values. `JsonText` says what the tokens of a
value are and what it means for a document to spell them; `JsonWriter` holds both printers and
`JsonSpelling` proves that both spell the same tokens and `JsonLayout` how they lay them out. `JsonGrammar` says what the reader makes of
the characters that remain, error recovery included, and `JsonReader` is the reader in place.
`JsonRoundTrip` proves that the reader undoes both printers, `JsonLanguage` which documents it
accepts and what it makes of them, `JsonEscapes` the same of strings, `JsonTrivia` what blanks and
comments do, and `JsonParsed` what any document at all can turn into.

**Handlebars** (`Handlebars*.dfy`). `HandlebarsCompiler` is the first compiler pass, from syntax
trees to opcodes. `HandlebarsSemantics` is what a template means, read off its tree, and
`HandlebarsMachine` runs the opcodes with the stack effects documented beside them.
`HandlebarsMeaning` proves the two equal, and `HandlebarsDispatch` says what follows for templates of
one mustache or block, in terms of their parts alone. `HandlebarsStack` is the two-level stack of the second
pass, and `HandlebarsSharing` the table of nested programs. `HandlebarsEmission` is the second pass
in place, with the text it writes given by what that does to the variables `stackN`;
`HandlebarsReads` says when that text reads its variables right, and `HandlebarsArguments` says it
of helper calls in terms of the template.

## Conventions

- Pointers to servers are ids, and an object that is updated in place is a field that its methods
  reassign. Chains of packets are real linked objects.
- The reference counting of `ref_lock_list.h` is taken from its uses: a server starts with one
  reference, `IncRef` adds one, `DecRef` takes one and at zero removes the entry. That file is not
  part of this model.
- The adapter's server list changes at once, because each handler is one atomic step;
  `DriverLockList.UnlockedIsImmediate` is why the deferring list does the same by the end of it,
  fewer than 256 locks being held at once.
- Times are ticks of the performance counter, in unbounded integers. Limits are already multiplied
  by the counter's frequency.
- Characters of JSON documents stand for bytes. Helpers, context functions, partials and the text
  of numbers are parameters of the template runtime; a helper may render its blocks any number of
  times, with any context, before it returns.

## Where the code does not do what it says

Each of these is a lemma that names an input or states exactly when the code is right.

- A forgotten unlock in the delete request freezes the server list until 256 locks are held, which
  the one-byte count takes for none (`ForgottenLockFreezes`, `ForgottenLocksDefer`, `LastLockThaws`).
- Under 256 nested locks an addition overtakes those that wait (`TracksExactly`, `NestingMisorders`).
- The least-connection scan compares counts and checking status in one test, so that it may pick a
  checked server with more references than another (`LeastConnectionExactly`,
  `LeastConnectionMisses`).
- Adding a server over a deleted one, or with the deleted bit, breaks the reference counts unless
  the bits agree (`AddKeepsInvExactly`).
- Round robin sticks to one server while all available servers are being checked
  (`CheckedServerIsKept`).
- A router solicitation meant to be dropped runs into the next case (`RouterSolicitationRunsOn`).
- The checksum drops the carry of payload length plus protocol number (`ChecksumVerifies`).
- The last-digit test of `decodeNumber` overlooks some overflows (`DecodeNumberIsExact`,
  `OverlookedOverflow`).
- A comma is accepted after the last member of an object whose name is empty, and what follows the
  first value of a document is ignored (`AcceptsExactly`).
- After a comment behind a member's value any token is taken for the comma (`CommentMakesComma`).
- Any escape is taken for the second half of a surrogate pair, and a second half alone for a
  character (`DecodesExactly`).
- An unregistered helper's name is looked up in the context opened last instead of the current one
  (`CallFallbackIsExact`, `FallbackCounterexample`).
- The second pass may assign a variable whose value is still to be read (`ReadsRightExactly`,
  `ArgumentsReadRightExactly`, `PathBeforeCall`, `PathsAfterCall`, `CallsInHash`).

## Model

| member | source | states |
|---|---|---|
| `DriverLockList.LockList.LockList` | common/driver/lcxl_lock_list.h:56-63 | one more lock is counted, modulo 256, and nothing else changes |
| `DriverLockList.LockList.AddEntry` | common/driver/lcxl_lock_list.h:79-98 | while locked the entry is queued, else it is appended and counted |
| `DriverLockList.LockList.RemoveEntry` | common/driver/lcxl_lock_list.h:99-120 | while locked the removal is queued, else the entry is unlinked, uncounted and freed |
| `DriverLockList.LockList.UnlockList` | common/driver/lcxl_lock_list.h:122-167 | when the count, modulo 256, comes to 0 this unlinks and frees the queued removals, then appends the queued additions, in the order of the calls |
| `DriverLockList.StepRefines` | common/driver/lcxl_lock_list.h:55-167 | an operation on the deferring list is that operation on a list with no deferral, and a removed entry is freed or waiting behind those removed before, exactly when no addition or removal overtakes one that waits |
| `DriverLockList.TracksExactly` | common/driver/lcxl_lock_list.h:55-167 | in any run the list stands for the immediate one at every point exactly when no operation of the run overtakes one that waits |
| `DriverLockList.FewLocksAreOrderly` | common/driver/lcxl_lock_list.h:55-63 | runs that never hold more than 255 locks are of that kind |
| `DriverLockList.NestingMisorders` | common/driver/lcxl_lock_list.h:33-63 | holding 256 locks at once brings the count to 0: an addition then overtakes one that waits, and the final list is in another order |
| `DriverLockList.UnlockedIsImmediate` | common/driver/lcxl_lock_list.h:79-167 | after any run without overtaking that ends with no lock held, the list is that of the immediate list, the count is its length, and the freed entries are exactly the removed ones in order |
| `DriverLockList.FrozenWhileLocked` | common/driver/lcxl_lock_list.h:55-63 | while the count shows a lock the entries, their number and the freed entries do not change |
| `DriverLockList.ForgottenLockFreezes` | loader/driver/device.c:369-403 | locks that are never released, as the delete request leaves them, keep the list locked under a balanced run exactly as long as fewer than 256 locks are held in all, and the list is as it was meanwhile |
| `DriverLockList.ForgottenLocksDefer` | loader/driver/device.c:369-403 | after n such locks an addition is deferred exactly when n is no multiple of 256 |
| `DriverLockList.LastLockThaws` | common/driver/lcxl_lock_list.h:56-63 | the 256th lock thaws the list: additions go in, and the next lock and unlock drain both queues |
| `DriverServers.ServerList.FindAvailable` | loader/driver/lcxl_server.c:34-81 | the server found by the cyclic search, checking servers last, and one more reference to it; no other change |
| `DriverServers.ServerList.SelectPoll` | loader/driver/lcxl_server.c:125-140 | round robin: the search starts at the stored index, reset when it is past the end, and the index moves behind the server found |
| `DriverServers.ServerList.SelectLeast` | loader/driver/lcxl_server.c:95-124 | the scan that moves a reference from best server to best server leaves every count as it was, plus one on the winner |
| `DriverServers.ServerList.SelectBest` | loader/driver/lcxl_server.c:83-194 | the selected server and poll index of either algorithm, and one more reference to that server only |
| `DriverServers.EntryByIndex` | loader/driver/lcxl_func.c:23-39 | the entry at a position, or none when the list is shorter |
| `DriverServers.EntryIndex` | loader/driver/lcxl_func.c:41-53 | the first position of an entry, or -1 exactly when it is not in the list |
| `DriverServers.CyclicFinds` | loader/driver/lcxl_server.c:34-81 | the search fails exactly when no server is available, and finds one not being checked whenever an available one is not |
| `DriverServers.ChosenServerIsUsable` | loader/driver/lcxl_server.h:118-127 | with either algorithm the server chosen is online, not deleted and enabled for the packet's protocol, and none is chosen exactly when no listed server is all three |
| `DriverServers.ReleaseUndoesAcquire` | loader/driver/lcxl_server.c:109-116 | handing a reference on never drives a count to zero and changes no other |
| `DriverServers.LeastConnectionChooses` | loader/driver/lcxl_server.c:92-124 | every available server after the winner has strictly more references and no better checking status |
| `DriverServers.LeastConnectionExactly` | loader/driver/lcxl_server.c:92-124 | the winner has the fewest references of all available servers exactly when the last server that has them is not being checked, or every available server after it is |
| `DriverServers.LeastConnectionIsLeast` | loader/driver/lcxl_server.c:109 | with one checking status among the available servers the winner has the fewest references of all |
| `DriverServers.LeastConnectionMisses` | loader/driver/lcxl_server.c:109 | three servers where the winner is a checked server that does not have the fewest references |
| `DriverFairness.RoundRobinIsFair` | loader/driver/lcxl_server.c:125-140 | with k preferred servers, any k consecutive selections pick each of them exactly once and no other, from any stored index |
| `DriverFairness.SelectionTakesItsTurn` | loader/driver/lcxl_server.c:34-81 | a selection picks the preferred server whose turn it is and passes the turn to the next |
| `DriverFairness.CheckedServerIsKept` | loader/driver/lcxl_server.c:45-67 | if every available server is being checked, the server picked once is picked again and again |
| `DriverFilter.SweepIsExact` | loader/driver/lcxl_route.c:75-111 | a lookup deletes exactly the expired entries before the match, or all expired entries without one; the match is refreshed even if it had expired |
| `DriverAdapter.AddedServerIsFound` | loader/driver/device.c:333-368 | a server added is found under its address with the settings given; a new one is last, with one reference and the time of its addition, and no other server changes |
| `DriverAdapter.Filter.AddServer` | loader/driver/device.c:333-368 | a new address is appended with one reference; a known one has its settings overwritten; the invariant is kept exactly when the deleted bits agree |
| `DriverAdapter.Filter.DeleteServer` | loader/driver/device.c:369-403 | the server is marked and its own reference given back, once; a second deletion is reported and changes nothing |
| `DriverAdapter.Filter.ProcessChecking` | loader/driver/filter.c:2650-2696 | a checking frame marks its server online, ends its check and stamps the time |
| `DriverAdapter.Filter.CheckServer` | loader/driver/filter.c:2395-2437 | the effect of one tick on one server, and a request exactly when its record changes |
| `DriverAdapter.Filter.CheckServerStatus` | loader/driver/filter.c:2369-2467 | one tick on all servers, in place, and the requests sent in list order |
| `DriverAdapter.Filter.DeleteRoute` | loader/driver/lcxl_setting.h:58-67 | the entry is unlinked and its server's reference given back |
| `DriverAdapter.Filter.GetRoute` | loader/driver/lcxl_route.c:49-111 | the table after the scan, the references given back for deleted entries, and where the match is |
| `DriverAdapter.Filter.Advance` | loader/driver/filter.c:2343-2361 | how a packet moves its connection on; a connection it closes loses its route and reference |
| `DriverAdapter.Filter.SelectAndBind` | loader/driver/filter.c:2316-2341 | a SYN binds its connection to the selected server, taking over a route of the same key |
| `DriverAdapter.Filter.RouteTcpPacket` | loader/driver/filter.c:2298-2367 | lookup, selection or state change, and the deletion of a closed route, as one step that keeps the invariant |
| `DriverInvariants.AddKeepsInvExactly` | loader/driver/device.c:333-368 | adding a server keeps the invariant exactly when its deleted bit is that of the server it overwrites, and off for a new one |
| `DriverInvariants.ApplyKeepsInv` | loader/driver/filter.c:2298-2467 | every step keeps the invariant: counts, unique keys and addresses, open routes to listed servers |
| `DriverInvariants.EveryRunIsSound` | loader/driver/lcxl_server.c:109 | after every run from the start each listed server has one reference per route plus one unless deleted, never zero; every route is open and leads to a listed server; no two share a key |
| `DriverInvariants.LeavesWithItsLastRoute` | loader/driver/device.c:384-388 | in any step a server leaves the list exactly when it is deleted and no route to it is left |
| `DriverDraining.DeletedServerDrains` | loader/driver/lcxl_server.h:118-127 | in every run after its deletion a server never has more connections than it had, and it is listed exactly as long as it has one |
| `DriverSessions.SynBinds` | loader/driver/filter.c:2314-2341 | a SYN with no other flag for which a server is selected makes the lookup of its key find a fresh normal route to that server |
| `DriverSessions.PacketFollows` | loader/driver/filter.c:2342-2366 | any other packet of a bound connection goes to its server; the route is gone after an ACK that follows a FIN or an RST without FIN, and after a FIN it waits for that ACK |
| `DriverSessions.OtherPacketSpares` | loader/driver/lcxl_route.c:100-107 | packets of other connections keep the route unless it has expired |
| `DriverSessions.SessionAffinity` | loader/driver/filter.c:2298-2367 | from the SYN on, through any run of other steps, the packets of a connection go to the server the SYN chose, while they are at most the timeout apart, none is another SYN, and none before them has an ACK after an earlier FIN or an RST without FIN |
| `DriverSessions.ConnectionEndsExactly` | loader/driver/filter.c:2342-2366 | a connection ends with exactly the first packet that has an ACK after an earlier FIN or an RST without FIN: that packet still goes to the server, and the lookup finds nothing afterwards |
| `DriverSessions.EndedStaysEnded` | loader/driver/filter.c:2312-2366 | then its packets are routed nowhere, whatever happens, until it sends a plain SYN |
| `DriverSessions.RoutesLeadToListedServers` | loader/driver/filter.c:1790-1823 | after every run, the server a route leads to is still in the list, even if it was deleted meanwhile |
| `DriverHealth.FailureIsDetectedInTime` | loader/driver/filter.c:2395-2436 | with ticks at most d apart, a silent server is online up to h+I+R*T and goes offline at a tick in (h+I+R*T, h+I+R*T+2d] |
| `DriverHealth.SilentServerGoesOffline` | loader/driver/filter.c:2369-2467 | the same bound in any run of the adapter that neither hears nor reconfigures nor deletes the server |
| `DriverHealth.RetriesCountTimeouts` | loader/driver/filter.c:2395-2436 | a silent server is asked again each time another timeout has passed since the first request, online or offline, and is offline once they are as many as the retries allowed |
| `DriverHealth.AnswerIsHeard` | loader/driver/filter.c:2669-2686 | a frame from a listed server that is not deleted makes it online and ends its check, whatever its state was |
| `DriverHealth.AnsweringServerStaysOnline` | loader/driver/filter.c:2369-2467 | a server that has sent a frame stays online over any run in which it answers every request before the timeouts granted are over and is not reconfigured or deleted |
| `DriverHealth.PacketsSpareHealth` | loader/driver/filter.c:2298-2367 | packets change nothing about a server but its reference count |
| `DriverPackets.EveryCodeIsHandled` | loader/driver/filter.c:2552-2648 | each direction yields only codes that its switch puts into one of the two chains |
| `DriverPackets.OnlyVirtualTrafficIsTouched` | loader/driver/filter.c:2482-2650 | every frame passes that does not name the virtual address, but for checking requests and TCP at the wrong Ethernet address; without a role nothing else is touched |
| `DriverPackets.RouterSolicitationRunsOn` | loader/driver/filter.c:2836-2880 | a router solicitation from the virtual address is dropped exactly when it goes to the virtual or its solicited-node address, because its case runs into the next |
| `DriverChain.Receive` | loader/driver/filter.c:1766-1924 | relinking while walking: two terminated chains, of exactly the packets whose processing passes them and of the others, each in the original order, and the number passed |
| `DriverChain.ReceiveTransient` | loader/driver/filter.c:1880-1890 | when packets may not be kept the chain is left as it was and each packet to pass is indicated alone, in order |
| `DriverChain.Send` | loader/driver/filter.c:1406-1522 | the same partition for sent packets |
| `DriverChain.SelectionsPartition` | loader/driver/filter.c:1766-1924 | the packets of the two chains are together the packets that came, each once |
| `DriverChain.SelectedAt` | loader/driver/filter.c:1766-1924 | a packet is in its chain behind as many packets as came before it with its verdict |
| `DriverChain.DropOwner` | loader/driver/filter.c:3090-3143 | the driver's own packets are unlinked and cut loose; the chain of the others keeps its order |
| `DriverChecksum.CalcSum` | common/driver/lcxl_net.h:150-181 | the 16-bit loop computes the ones'-complement sum of the start value and the big-endian words, an odd last byte being padded |
| `DriverChecksum.SumsCompose` | common/driver/lcxl_net.h:195-201 | summing in two calls gives the sum of the whole after an even first part |
| `DriverChecksum.OddSplitDoesNotCompose` | common/driver/lcxl_net.h:170-179 | after an odd first part it does not |
| `DriverChecksum.CalcUpperLayerChecksum` | common/driver/lcxl_net.h:189-204 | the complement of the sum over the pseudo-header, its first addition cut to 16 bits, and the payload |
| `DriverChecksum.SetIcmpChecksum` | common/driver/lcxl_net.h:210-216 | the field is cleared and set in place, and nothing else in the packet changes |
| `DriverChecksum.PseudoHeaderSum` | common/driver/lcxl_net.h:192-201 | one addition of length and protocol and the sum of the addresses amount to the words of the pseudo-header of RFC 2460 |
| `DriverChecksum.ReplacedWordIsNoticed` | common/driver/lcxl_net.h:189-204 | in a packet that verifies, replacing a word of either address or of the payload is noticed exactly unless it is by itself or 0 and 0xFFFF change places |
| `DriverChecksum.ChangedByteIsNoticed` | common/driver/lcxl_net.h:170-179 | a change of any single byte there, the odd last one included, is noticed |
| `DriverChecksum.EchoRequestChecksum` | common/driver/lcxl_net.h:210-216 | the checksum of an echo request from ::1 to ::2, and where it is stored |
| `DriverChecksum.ChecksumVerifies` | common/driver/lcxl_net.h:189-216 | a packet whose field was set so sums to 0xFFFF exactly when payload length and protocol number fit in 16 bits; otherwise to 1 |
| `JsonValue.Trichotomy` | component/jsoncpp/src/lib_json/json_value.cpp:538-641 | exactly one of a<b, a==b, b<a holds for nested values |
| `JsonValue.LessTransitive` | component/jsoncpp/src/lib_json/json_value.cpp:538-578 | the order is transitive |
| `JsonValue.EqualIsIdentity` | component/jsoncpp/src/lib_json/json_value.cpp:600-641 | `operator==` holds exactly of structurally equal values |
| `JsonValue.OrderIsTotal` | component/jsoncpp/src/lib_json/json_value.cpp:526-641 | a strict total order that agrees with `operator==`, and `compare` is antisymmetric and zero exactly on equal values |
| `JsonWriter.UIntToString` | component/jsoncpp/src/lib_json/json_tool.h:78-89 | writing digits backwards into the buffer gives the decimal notation, ended by a NUL, within 21 characters |
| `JsonWriter.ValueToString` | component/jsoncpp/src/lib_json/json_writer.cpp:35-57 | the decimal notation of every signed and unsigned 64-bit integer, the least one included |
| `JsonWriter.ValueToQuotedString` | component/jsoncpp/src/lib_json/json_writer.cpp:120-181 | the quoted text with each character escaped, whether or not the shortcut is taken |
| `JsonWriter.FastWriter.Write` | component/jsoncpp/src/lib_json/json_writer.cpp:206-272 | the compact text of a value |
| `JsonWriter.StyledWriter.Write` | component/jsoncpp/src/lib_json/json_writer.cpp:285-358 | the indented text of a value |
| `JsonWriter.StyledWriter.WriteArrayValue` | component/jsoncpp/src/lib_json/json_writer.cpp:361-411 | the text of an array, although nested calls clear and refill the shared buffer |
| `JsonWriter.StyledWriter.IsMultilineArray` | component/jsoncpp/src/lib_json/json_writer.cpp:414-442 | the layout decision, and the buffer holding exactly the texts of the elements in order, or nothing |
| `JsonSpelling.FastSpells` | component/jsoncpp/src/lib_json/json_writer.cpp:206-272 | the compact text spells the tokens of the value |
| `JsonSpelling.StyledSpells` | component/jsoncpp/src/lib_json/json_writer.cpp:300-490 | the styled text adds exactly the tokens of the value, in order, in whatever layout |
| `JsonSpelling.PrintersAgree` | component/jsoncpp/src/lib_json/json_writer.cpp:206-490 | both printers spell the same token sequence for every value |
| `JsonLayout.CompactIsTokens` | component/jsoncpp/src/lib_json/json_writer.cpp:206-272 | the compact text is the tokens of the value one after another, with nothing between them |
| `JsonLayout.StyledDocumentIsLayout` | component/jsoncpp/src/lib_json/json_writer.cpp:285-490 | the styled text is the layout the nesting prescribes: an element a line, three blanks a level, the closing bracket on the level of the opening one, and arrays without full containers in one line exactly if they have fewer than 25 elements and fewer than 74 characters |
| `JsonReader.ScanDigits` | component/jsoncpp/src/lib_json/json_reader.cpp:572-596 | the digit loop in 64-bit arithmetic |
| `JsonReader.NumberOf` | component/jsoncpp/src/lib_json/json_reader.cpp:553-603 | the value of a number token |
| `JsonReader.UnicodeEscape` | component/jsoncpp/src/lib_json/json_reader.cpp:720-743 | four hexadecimal digits, or the error for too few or for another character |
| `JsonReader.DecodeText` | component/jsoncpp/src/lib_json/json_reader.cpp:644-688 | the decoded text, or the error at the first bad escape |
| `JsonReader.Reader.ReadString` | component/jsoncpp/src/lib_json/json_reader.cpp:435-448 | where a string token ends, escapes being skipped in pairs |
| `JsonReader.Reader.Match` | component/jsoncpp/src/lib_json/json_reader.cpp:334-346 | the pattern is consumed exactly when it comes next |
| `JsonReader.Reader.ReadToken` | component/jsoncpp/src/lib_json/json_reader.cpp:245-317 | the next token and the characters left |
| `JsonReader.Reader.RecoverFromError` | component/jsoncpp/src/lib_json/json_reader.cpp:760-774 | recovery ends on every input, at the token sought or the end, and records no error |
| `JsonReader.Reader.ReadValue` | component/jsoncpp/src/lib_json/json_reader.cpp:166-214 | the value, the characters left and the errors that the grammar gives; the node stack returns to its depth |
| `JsonReader.Reader.ReadArray` | component/jsoncpp/src/lib_json/json_reader.cpp:510-550 | the same for an array, its elements written back in order |
| `JsonReader.Reader.ReadObject` | component/jsoncpp/src/lib_json/json_reader.cpp:451-507 | the same for an object, its members written back under their names |
| `JsonReader.Reader.Parse` | component/jsoncpp/src/lib_json/json_reader.cpp:122-163 | parsing ends on every document, and returns true exactly when no error was recorded |
| `JsonReader.SetMemberTwice` | component/jsoncpp/src/lib_json/json_value.cpp:1132-1170 | writing a node back into the slot that `operator[]` opened gives the member its last value |
| `JsonRoundTrip.DecodeInteger` | component/jsoncpp/src/lib_json/json_reader.cpp:572-603 | what becomes of the decimal notation of any integer: an integer exactly when the last-digit test accepts it, else a double |
| `JsonRoundTrip.DecodeNumberIsExact` | component/jsoncpp/src/lib_json/json_reader.cpp:572-603 | the integer written is read exactly when it has 64 bits |
| `JsonRoundTrip.OverlookedOverflow` | component/jsoncpp/src/lib_json/json_reader.cpp:584-594 | 99999999999999999990 is read as another integer, without an error |
| `JsonRoundTrip.EscapedDecodes` | component/jsoncpp/src/lib_json/json_reader.cpp:644-688 | decoding undoes escaping for every text |
| `JsonRoundTrip.ParserUndoesPrinter` | component/jsoncpp/src/lib_json/json_reader.cpp:122-214 | any spelling of a value's tokens, with any whitespace between, parses to the value up to the integer tag, without errors unless a strict root forbids it |
| `JsonRoundTrip.RoundTrip` | component/jsoncpp/src/lib_json/json_writer.cpp:206-472 | both printers, in every layout, are undone by the reader |
| `JsonEscapes.Utf8IsReadBack` | component/jsoncpp/src/lib_json/json_tool.h:15-54 | the bytes of every code point up to 0x10FFFF are read back as that code point by a UTF-8 decoder that takes shortest forms only |
| `JsonEscapes.SpellingDecodes` | component/jsoncpp/src/lib_json/json_reader.cpp:644-743 | a string body written with plain characters, short escapes, four-digit escapes in either case and surrogate pairs is decoded to those characters and the UTF-8 encodings of those code points |
| `JsonEscapes.DecodesExactly` | component/jsoncpp/src/lib_json/json_reader.cpp:644-743 | a body is accepted exactly when it has such a spelling, the second half of a pair being any four-digit escape |
| `JsonEscapes.SpelledStringParses` | component/jsoncpp/src/lib_json/json_reader.cpp:435-448 | a string of a document, however spelled, is parsed to the text it means as far as a C string shows it, up to its closing quote |
| `JsonTrivia.BlanksAreSkipped` | component/jsoncpp/src/lib_json/json_reader.cpp:320-331 | blanks before a token make no difference |
| `JsonTrivia.CommentIsToken` | component/jsoncpp/src/lib_json/json_reader.cpp:350-426 | a comment of either style is one token that ends with its first end |
| `JsonTrivia.CommentBeforeValue` | component/jsoncpp/src/lib_json/json_reader.cpp:218-232 | where the features allow comments one before a value makes no difference, and elsewhere it is an error |
| `JsonTrivia.CommentMakesComma` | component/jsoncpp/src/lib_json/json_reader.cpp:489-503 | behind a member's value a comment lets any token but the closing brace pass for the comma |
| `JsonLanguage.TreeParses` | component/jsoncpp/src/lib_json/json_reader.cpp:166-214 | whatever the grammar generates is accepted up to its end and gives the value of the tree, the last of equal member names counting |
| `JsonLanguage.ParsedHasTree` | component/jsoncpp/src/lib_json/json_reader.cpp:166-214 | whatever is accepted is generated by the grammar |
| `JsonLanguage.AcceptsExactly` | component/jsoncpp/src/lib_json/json_reader.cpp:122-163 | a document without comments is accepted exactly when it begins with a tree of the grammar, in a strict root's case an array or object, and its value is the tree's |
| `JsonLanguage.RecoverySkips` | component/jsoncpp/src/lib_json/json_reader.cpp:760-774 | recovery skips exactly the tokens up to the first of the kind it looks for, that one included, or all |
| `JsonParsed.ParsedIsSound` | component/jsoncpp/src/lib_json/json_reader.cpp:166-603 | whatever the document, the value built has integers in range, NUL-free strings and strictly sorted member names |
| `JsonParsed.FindAfterSet` | component/jsoncpp/src/lib_json/json_value.cpp:1132-1190 | a member read back is what was stored, and the others are as before |
| `JsonParsed.ReparsedIsTheSame` | component/jsoncpp/src/lib_json/json_reader.cpp:122-214 | for every document whose value has no doubles, printing and parsing it again gives the value up to integer tags, and once more changes nothing |
| `HandlebarsCompiler.Compiler.Compile` | loader/web/netloader-web/src/main/webapp/static/sea-modules/handlebars/handlebars-v1.3.0.js:1354-1409 | the environment of the whole program, its depths sorted, or refusal exactly where the source throws |
| `HandlebarsCompiler.Compiler.CompileProgram` | loader/web/netloader-web/src/main/webapp/static/sea-modules/handlebars/handlebars-v1.3.0.js:1411-1427 | a nested program becomes the next child, and its outer depths reach the parent one level lower |
| `HandlebarsCompiler.Compiler.AcceptStatement` | loader/web/netloader-web/src/main/webapp/static/sea-modules/handlebars/handlebars-v1.3.0.js:1380-1526 | what one statement adds to opcodes, children and depths |
| `HandlebarsCompiler.Compiler.EmitBlock` | loader/web/netloader-web/src/main/webapp/static/sea-modules/handlebars/handlebars-v1.3.0.js:1429-1468 | the code of a block: both programs, its expression and the block tail |
| `HandlebarsCompiler.Compiler.EmitSexpr` | loader/web/netloader-web/src/main/webapp/static/sea-modules/handlebars/handlebars-v1.3.0.js:1571-1581 | the code of an expression of each class |
| `HandlebarsCompiler.Compiler.EmitCall` | loader/web/netloader-web/src/main/webapp/static/sea-modules/handlebars/handlebars-v1.3.0.js:1558-1569 | parameters, programs, hash and the call, or refusal of an unknown helper |
| `HandlebarsCompiler.Compiler.EmitPath` | loader/web/netloader-web/src/main/webapp/static/sea-modules/handlebars/handlebars-v1.3.0.js:1583-1597 | context, first lookup and the further lookups of a path |
| `HandlebarsCompiler.Compiler.EmitParams` | loader/web/netloader-web/src/main/webapp/static/sea-modules/handlebars/handlebars-v1.3.0.js:1665-1688 | parameters are pushed last first |
| `HandlebarsCompiler.Compiler.EmitHash` | loader/web/netloader-web/src/main/webapp/static/sea-modules/handlebars/handlebars-v1.3.0.js:1470-1498 | each pair's value is followed by its assignment, in order |
| `HandlebarsCompiler.Compiler.AddDepth` | loader/web/netloader-web/src/main/webapp/static/sea-modules/handlebars/handlebars-v1.3.0.js:1635-1642 | a depth is recorded once, and depth 0 never |
| `HandlebarsCompiler.SortDepthsIsAscending` | loader/web/netloader-web/src/main/webapp/static/sea-modules/handlebars/handlebars-v1.3.0.js:1404-1406 | sorting the recorded depths gives the one ascending listing of their set |
| `HandlebarsMeaning.SexprRuns` | loader/web/netloader-web/src/main/webapp/static/sea-modules/handlebars/handlebars-v1.3.0.js:1558-1622 | the code of an expression pushes the value of the expression, and pops all it pushed besides |
| `HandlebarsMeaning.ParamsRun` | loader/web/netloader-web/src/main/webapp/static/sea-modules/handlebars/handlebars-v1.3.0.js:1665-1688 | a parameter list leaves its values on the stack, the first on top |
| `HandlebarsMeaning.BlockRuns` | loader/web/netloader-web/src/main/webapp/static/sea-modules/handlebars/handlebars-v1.3.0.js:1429-1468 | the code of a block appends what the block means |
| `HandlebarsMeaning.DepthsArePassed` | loader/web/netloader-web/src/main/webapp/static/sea-modules/handlebars/handlebars-v1.3.0.js:2409-2429 | the parent has every variable a nested program's depth parameters need, and passes the right contexts |
| `HandlebarsMeaning.CompilationPreservesMeaning` | loader/web/netloader-web/src/main/webapp/static/sea-modules/handlebars/handlebars-v1.3.0.js:1380-2372 | running the compiled template renders what its syntax tree denotes, for every template, context, data and helpers, and is never stuck |
| `HandlebarsDispatch.NameIsDispatched` | loader/web/netloader-web/src/main/webapp/static/sea-modules/handlebars/handlebars-v1.3.0.js:1644-1662 | `{{{name}}}` calls the helper if the name is known, or registered and not only known helpers are allowed; else it calls a function found in the context, or shows the member |
| `HandlebarsDispatch.NameBlockIsDispatched` | loader/web/netloader-web/src/main/webapp/static/sea-modules/handlebars/handlebars-v1.3.0.js:1429-1468 | a block on a name calls such a helper on the blocks, and hands the value of anything else to `blockHelperMissing` |
| `HandlebarsDispatch.CallIsDispatched` | loader/web/netloader-web/src/main/webapp/static/sea-modules/handlebars/handlebars-v1.3.0.js:2259-2276 | parentheses, parameters, a hash or a known name always make a call: of the helper, of a true member of the context opened last, or of `helperMissing` with the name first |
| `HandlebarsDispatch.BuiltInHelpersAreKnown` | loader/web/netloader-web/src/main/webapp/static/sea-modules/handlebars/handlebars-v1.3.0.js:1361-1374 | the built-in helpers are known unless the caller's table says otherwise |
| `HandlebarsDispatch.PathIsFollowed` | loader/web/netloader-web/src/main/webapp/static/sea-modules/handlebars/handlebars-v1.3.0.js:2097-2155 | `{{{a.b.c}}}` shows the member its segments lead to, and nothing when one is missing |
| `HandlebarsDispatch.EscapingIsUndone` | loader/web/netloader-web/src/main/webapp/static/sea-modules/handlebars/handlebars-v1.3.0.js:54-64 | escaping is undone by reading the entities, and leaves none of the characters it is there to remove |
| `HandlebarsDispatch.EscapedMustache` | loader/web/netloader-web/src/main/webapp/static/sea-modules/handlebars/handlebars-v1.3.0.js:98-113 | `{{ }}` shows what `{{{ }}}` shows, escaped unless escaping is off or a helper marked the value as safe |
| `HandlebarsFallback.SafeTemplatesRenderAsDocumented` | loader/web/netloader-web/src/main/webapp/static/sea-modules/handlebars/handlebars-v1.3.0.js:2259-2276 | if every call names a registered helper or comes with depth 0 opened last, the rendering is the documented meaning |
| `HandlebarsFallback.CallFallbackIsExact` | loader/web/netloader-web/src/main/webapp/static/sea-modules/handlebars/handlebars-v1.3.0.js:2086-2088 | a call finds the documented function in all contexts exactly when it is safe in that sense |
| `HandlebarsFallback.FallbackCounterexample` | loader/web/netloader-web/src/main/webapp/static/sea-modules/handlebars/handlebars-v1.3.0.js:2586-2597 | `{{{../x}}}{{{f 1}}}` misses the context function f |
| `HandlebarsSharing.Equals` | loader/web/netloader-web/src/main/webapp/static/sea-modules/handlebars/handlebars-v1.3.0.js:1320-1350 | the comparison holds exactly for programs with the same opcodes all the way down |
| `HandlebarsSharing.ProgramDepthsFollow` | loader/web/netloader-web/src/main/webapp/static/sea-modules/handlebars/handlebars-v1.3.0.js:1411-1427 | a program's depth list is determined by its code and its children's lists |
| `HandlebarsSharing.SameCodeSameDepths` | loader/web/netloader-web/src/main/webapp/static/sea-modules/handlebars/handlebars-v1.3.0.js:2409-2429 | programs with the same code take the same depth parameters in the same order, although the comparison ignores them |
| `HandlebarsSharing.SharedProgramsRunAlike` | loader/web/netloader-web/src/main/webapp/static/sea-modules/handlebars/handlebars-v1.3.0.js:2378-2407 | a shared function renders what the program's own function would |
| `HandlebarsSharing.ProgramTable.MatchExistingProgram` | loader/web/netloader-web/src/main/webapp/static/sea-modules/handlebars/handlebars-v1.3.0.js:2400-2407 | an index with the same code, or none exactly when there is none |
| `HandlebarsSharing.ProgramTable.CompileChildren` | loader/web/netloader-web/src/main/webapp/static/sea-modules/handlebars/handlebars-v1.3.0.js:2378-2398 | every child gets an index that holds its code, entries have their children among the entries, and no code is entered twice; it fails exactly where the second pass throws for some nested program |
| `HandlebarsSharing.EntryRunsAlike` | loader/web/netloader-web/src/main/webapp/static/sea-modules/handlebars/handlebars-v1.3.0.js:2378-2398 | run through the table's entry at its index, a nested program gives what it gives itself |
| `HandlebarsSharing.CompileTemplate` | loader/web/netloader-web/src/main/webapp/static/sea-modules/handlebars/handlebars-v1.3.0.js:1354-1873 | both passes together, for the template and every program nested in it: they succeed exactly when the first pass accepts the template |
| `HandlebarsStack.StackIsBalanced` | loader/web/netloader-web/src/main/webapp/static/sea-modules/handlebars/handlebars-v1.3.0.js:1866-1870 | for every accepted template no pop fails and both stacks end empty with no variable in use |
| `HandlebarsStack.SlotCountsThroughout` | loader/web/netloader-web/src/main/webapp/static/sea-modules/handlebars/handlebars-v1.3.0.js:2522-2525 | at every point `stackSlot` is the number of non-literal entries of `compileStack`, whose variables are in order |
| `HandlebarsStack.PopIsOneStack` | loader/web/netloader-web/src/main/webapp/static/sea-modules/handlebars/handlebars-v1.3.0.js:2548-2563 | popping takes the top of the two stacks read as one |
| `HandlebarsStack.FlushIsOneStack` | loader/web/netloader-web/src/main/webapp/static/sea-modules/handlebars/handlebars-v1.3.0.js:2530-2542 | flushing moves entries and changes nothing of the one stack |
| `HandlebarsStack.ReplaceIsOneStack` | loader/web/netloader-web/src/main/webapp/static/sea-modules/handlebars/handlebars-v1.3.0.js:2469-2516 | replacing replaces the top exactly when the top is not a flushed literal |
| `HandlebarsStack.ProgramPasses` | loader/web/netloader-web/src/main/webapp/static/sea-modules/handlebars/handlebars-v1.3.0.js:1866-1870 | the second pass gets through every accepted template and every program nested in it |
| `HandlebarsEmission.NothingStaysInline` | loader/web/netloader-web/src/main/webapp/static/sea-modules/handlebars/handlebars-v1.3.0.js:2051-2350 | what an opcode uses twice in its text is a constant or in a variable by then: appending, ambiguous names and blocks, and nested helper calls leave no text pending |
| `HandlebarsEmission.StepShape` | loader/web/netloader-web/src/main/webapp/static/sea-modules/handlebars/handlebars-v1.3.0.js:1986-2372 | what an opcode does to texts and variables does to the kinds of the entries what the stack model says |
| `HandlebarsEmission.JavaScriptCompiler.PopStack` | loader/web/netloader-web/src/main/webapp/static/sea-modules/handlebars/handlebars-v1.3.0.js:2548-2563 | the pop in place and the text it yields, failing exactly where the source throws |
| `HandlebarsEmission.JavaScriptCompiler.FlushInline` | loader/web/netloader-web/src/main/webapp/static/sea-modules/handlebars/handlebars-v1.3.0.js:2530-2542 | the flush in place: inline texts are assigned to new variables in order |
| `HandlebarsEmission.JavaScriptCompiler.ReplaceStack` | loader/web/netloader-web/src/main/webapp/static/sea-modules/handlebars/handlebars-v1.3.0.js:2469-2516 | the replacement in place: the top text is assigned to the top variable or a borrowed one and read from it |
| `HandlebarsEmission.JavaScriptCompiler.SetupParams` | loader/web/netloader-web/src/main/webapp/static/sea-modules/handlebars/handlebars-v1.3.0.js:2600-2661 | the options and arguments popped, and the order in which the call's text evaluates them |
| `HandlebarsEmission.JavaScriptCompiler.Execute` | loader/web/netloader-web/src/main/webapp/static/sea-modules/handlebars/handlebars-v1.3.0.js:1986-2372 | what each opcode does to the stacks and the text written, failing exactly where a pop fails or nothing can be assigned |
| `HandlebarsEmission.JavaScriptCompiler.Compile` | loader/web/netloader-web/src/main/webapp/static/sea-modules/handlebars/handlebars-v1.3.0.js:1821-1873 | the opcode loop succeeds exactly when the stacks end empty |
| `HandlebarsReads.StepBalances` | loader/web/netloader-web/src/main/webapp/static/sea-modules/handlebars/handlebars-v1.3.0.js:1986-2372 | every opcode keeps the books: each read and assignment of a variable is written or still pending, once, and reads come after their assignments |
| `HandlebarsReads.ReadsRightExactly` | loader/web/netloader-web/src/main/webapp/static/sea-modules/handlebars/handlebars-v1.3.0.js:2443-2563 | for every template, each read of a `stackN` variable in the text written sees the value it is meant for exactly when no opcode writes text that assigns a variable which that text or a pending one still has to read for an earlier value |
| `HandlebarsArguments.ArgumentsReadRightExactly` | loader/web/netloader-web/src/main/webapp/static/sea-modules/handlebars/handlebars-v1.3.0.js:2469-2563 | for a helper call whose arguments are constants, names, paths and calls on constants and names: its text reads its variables right exactly when no nested call is among them, or no argument but constants follows a path |
| `HandlebarsArguments.PathBeforeCall` | loader/web/netloader-web/src/main/webapp/static/sea-modules/handlebars/handlebars-v1.3.0.js:2486-2491 | `{{{f a.b (g)}}}`: looking up `a.b` overwrites the result of `(g)` |
| `HandlebarsArguments.PathsAfterCall` | loader/web/netloader-web/src/main/webapp/static/sea-modules/handlebars/handlebars-v1.3.0.js:2530-2542 | `{{{f (g) a.b c.d}}}`: the flush before the call of `g` assigns `c.d`, and looking up `a.b` overwrites it |
| `HandlebarsArguments.CallsInHash` | loader/web/netloader-web/src/main/webapp/static/sea-modules/handlebars/handlebars-v1.3.0.js:2352-2372 | `{{{f k=(g) m=(h)}}}`: the result of `(h)` overwrites that of `(g)` before the hash is read |

## Left out

- Driver plumbing: attach, pause, restart, OID requests, buffer allocation and its failure, spin locks; each handler is one atomic step.
- The delete request never unlocks the server list (loader/driver/device.c:377-398); the adapter takes the matching unlock as done, and only `DriverLockList.ForgottenLockFreezes` says what follows otherwise.
- Adding a server whose deleted bit differs from that of the server it overwrites (loader/driver/device.c:353-358), or a new one with the bit set: `DriverInvariants.Allowed` excludes these steps from runs, and `DriverInvariants.AddKeepsInvExactly` shows that they and no others break the invariant.
- DriverFilter.FindServer: compares whole addresses, where the source compares as many bytes as the request gives for its length (loader/driver/lcxl_server.c:25), so that a request of length 0 matches the first server.
- `RA_IP_HASH`, which computes a hash and then indexes by the poll counter (loader/driver/lcxl_server.c:142-179).
- Servers' performance records and the contents of forwarded, simulated and checking frames; the chain of simulated receives (loader/driver/filter.c:1846-1853, 1931-1935) and the outstanding-packet counters.
- 64-bit wrap-around of time products in the route timeout and the health checker.
- JsonRoundTrip.RoundTrip: excludes doubles, whose text is left to `sprintf` and `sscanf`; both are parameters.
- Comments collected by the reader and written by the styled printer, sparse arrays, `StyledStreamWriter`, and the location of an error's second position.
- The cast of a size difference to int in `Value::operator<`: sizes are compared unbounded.
- JsonLanguage.AcceptsExactly: considers documents without comments; `JsonTrivia` says what a comment does before a value, after an element, before a name and after a member.
- JsonReader.Reader.ReadValue: a node on the stack is a value that is written back to its parent when popped, where the source keeps a pointer into the parent.
- `BatchAllocator`.
- Whitespace control (`~`), string parameters, the tables and lexer of the template parser, and the JavaScript text that the second pass writes, beyond its effect on the `stackN` variables.
- HandlebarsArguments.ArgumentsReadRightExactly: considers calls without hash arguments that are looked up when they run, and nested calls on constants and names; for all other templates `HandlebarsReads.ReadsRightExactly` gives the condition on the run of the second pass, and `CallsInHash` an example.
- HandlebarsCompiler.Compiler.EmitCall: refuses a call without a name, as in `{{f (this)}}`, in the first pass, where the source records it and throws in the second when it quotes the name; the template is refused either way.
- HandlebarsCompiler.Compiler.Compile: refuses such a template in the first pass, for the same reason.
- Names that an engine adds to every object beyond those of the language standard, such as `__proto__`, are not taken for known helpers.
- HandlebarsMeaning.CompilationPreservesMeaning: looks an unregistered helper's name up where the code does; `HandlebarsFallback.SafeTemplatesRenderAsDocumented` states the documented meaning and its condition.
- Exceptions thrown by helpers, the built-in helpers' own behaviour, and the precompiler.
- The Windows service, virtual-address takeover, the DLL wrappers, the Java web tier, the browser user interface and the Kalman filter.
