# Verified model of the TSN switch controller

The repository configures Time-Sensitive Networking switches. A hand-written JSON parser (`App/json/json.c`) reads a
configuration, `App/Client/Main.c` turns it into linked lists of switches, ports and gate schedules and writes one
file for each switch, and the vendored `libnetconf2` carries NETCONF messages between client and server. This project
models those parts in Dafny and proves what they promise.

The code keeps its own form. Nodes, list cells, buffers, sessions and writers are classes and arrays that methods
change in place; each method is proved against a specification function over values, and the theorems are about those
functions. Where several files work together the theorems span them: from the bytes of a text to a tree of nodes, from
a list of write calls over the stream to the message at the other end, from an error or a capability list on the server
to the same data on the client, from the text of a configuration to the numbers in the files.

| part | modules |
|---|---|
| JSON | `JsonLex`, `JsonTree`, `JsonGrammar`, `JsonCompleteness`, `JsonHeap`, `JsonStrings`, `JsonBrackets`, `JsonReopen`, `JsonNumeral`, `JsonLoose`, `JsonPieces`, `JsonAccepted` |
| freeing | `Allocation`, `JsonFree`, `SshRing`, `ConfigFree` |
| framing | `EndTag`, `MessageEnd`, `Framing`, `Chunked`, `ChunkedStream` |
| session | `RpcLock`, `RpcProgress`, `RpcWakeup`, `Demux`, `Hello`, `CapabilityList`, `Handshake`, `HelloAccepted`, `TimeSpec` |
| texts between server and client | `Xml`, `RpcError`, `RpcErrorFields`, `RpcErrorWriter`, `YangFeatures`, `CapabilitySet`, `ModuleUri`, `ModuleList` |
| configuration | `SwitchList`, `ConfigTree`, `ConfigPartial`, `ConfigLoad`, `ConfigEmit` |
| shared | `CText`, `Numerals`, `Sequences` |

Freeing is part of the model: an allocator object knows which blocks are live, only a live block may be freed, and
nothing is known of a block's contents afterwards (`Allocation`). The contracts of the freeing code say exactly which
blocks it takes from the live ones.

Some promises hold only under a condition. Each is stated as an if-and-only-if, with a condition that can be looked at
before the call.

- `nc_read_until` takes exactly a message and its end tag if and only if the message does not end in `]` or the reads
  happen to fall on it in a certain way (`MessageEnd.ExactIff`). `abcde]` is a message that swallows its own end.
- The chunked reader keeps sizes in an `int`, so a chunk of a size that reads as -1 there is taken for a failed read
  (`Chunked.RoundTripIff`).
- A text is accepted by the JSON parser if and only if it is one of a grammar wider than RFC 8259 (`JsonLoose`): strings
  may be joined, numbers are those of `strtod`, the only member of an object may lack its value, and a closed group may
  be opened again (`JsonAccepted.AcceptedIff`).
- Nodes created by the JSON parser get lost if and only if a closed group is opened again (`JsonHeap.Build`,
  `JsonFree.ParseText`), that is, if and only if in the part of the text that was accepted a closing bracket outside
  strings is followed over blanks by an opening one (`JsonReopen.ReopensIff`), as in `[1][2]`. No text of RFC 8259 does
  that (`JsonCompleteness.Completeness`).
- A thread that waits for the RPC lock can be left asleep for good if and only if some lock calls wait without a limit,
  and either the unlock calls do not wait for the mutex without a limit or other lock calls wait with one, since a wait
  that times out may use up the signal (`RpcWakeup.StrandsIff`). Mutual exclusion holds in any case (`RpcLock.Safety`).
- The version chosen from a capability list depends on the order of the list exactly when the list has the 1.0 URI, not
  the 1.1 URI, and exactly one entry that is a proper prefix of both (`CapabilityList.OrderIrrelevant`, `OrderMatters`).
- Both ends of a handshake settle on the same version if and only if no entry of the server's list is blank and the list
  leads to 1.1, because the client always announces 1.1 (`Handshake.BothAgree`).
- A `<hello>` without a list of capabilities is accepted, with version 1.0 (`HelloAccepted.ClientAcceptsIff`,
  `HelloAccepted.ServerAcceptsIff`).
- Notifications are conserved, whatever arrives, if and only if every call for a reply is made on a session with a
  notification thread (`Demux.SubscribedIff`).
- An error reaches the client in full if and only if its session id fits 32 bits and a language comes with a message
  (`RpcError.ToldIff`, `RpcError.SidRecoveredIff`).
- Message ids tell all requests of a session apart if and only if there are fewer than 2^64 (`Demux.IdsTellApartIff`).
- A module's capability is read back if and only if its namespace does not contain `module=`, or what comes after the
  first one there happens to tell the same (`ModuleUri.UriRoundTripIff`). A list of features of which none fits the
  buffer is read as one feature without a name (`ModuleUri.PrintedIsRead`).
- A server's modules, each readable by itself, all reach the client if and only if no two capabilities or namespaces
  agree up to the first `?`; of two revisions of a module only the first one does (`ModuleList.ModulesReachClientIff`,
  `ModuleList.SecondRevisionIsLost`).
- A measured time difference is exact if and only if it is below 2^31 milliseconds (`TimeSpec.Measure`).
- In `xml_write_instance` each period replaces the one before, so every port of a switch is given the cycle of the last
  entry of the last port. That is the sum that the variable's name promises if and only if all other periods are zero
  (`ConfigEmit.CycleIsSumIff`, `ConfigEmit.CycleIsNotSum`).
- Reading a configuration ends the program if and only if somewhere in it a switch has no list of ports
  (`ConfigPartial.EndsIff`).
- There is an output file of each switch if and only if no two switches have the same name, because each file is opened
  anew (`ConfigEmit.FileOfEachIff`, `ConfigEmit.ConfigFilesIff`).

## Model

| member | source | states |
|---|---|---|
| `JsonLex.Scan` | App/json/json.c:66-131 | finds the piece of text up to the next structural character outside quotes, trimmed at both ends, or fails on an open quote |
| `JsonLex.Copy` | App/json/json.c:134-195 | copies a piece without its quotes and with its escapes decoded; every store lies within the allocated size |
| `JsonCompleteness.LexString` | App/json/json.c:66-131 | every quoted string with any escapes and any white space around it is one piece, and decodes to the characters it stands for |
| `JsonCompleteness.LexWord` | App/json/json.c:66-131 | every unquoted word with any white space around it is one piece and is copied unchanged |
| `JsonCompleteness.ScalarSettles` | App/json/json.c:211-246 | every null, boolean, number and string text gives its node the right kind and value |
| `JsonCompleteness.ElementRun` | App/json/json.c:255-404 | from a fresh node anywhere in a tree, the text of any value leads to that value's children and kind, with the path above unchanged |
| `JsonCompleteness.Completeness` | App/json/json.c:255-404 | every text of RFC 8259 sections 2 to 7 (without \u escapes, any white space) is accepted, the tree is the one of the value that the text denotes, and no group is reopened |
| `JsonNumeral.StrtodIff` | App/json/json.c:232-241 | a bare word is a number if and only if it is a numeral of a grammar of its own: decimal or hexadecimal digits with fraction and scale, infinity or not-a-number, in any case and with any sign |
| `JsonPieces.LexStrings` | App/json/json.c:66-131 | strings joined by blanks are one piece and decode to one string |
| `JsonPieces.KeyFound` | App/json/json.c:197-209 | every piece that is taken for a name is one or more strings in blanks, and gives their text |
| `JsonPieces.WordFound` | App/json/json.c:211-246 | every piece that finishes a value is null, a boolean, a numeral or strings in blanks, and gives its kind and text |
| `JsonAccepted.ShownIsAccepted` | App/json/json.c:255-404 | every text of the wider grammar is accepted with its tree |
| `JsonAccepted.AcceptedIsShown` | App/json/json.c:255-404 | every accepted text is one of the wider grammar, with the tree that it is given |
| `JsonAccepted.AcceptedIff` | App/json/json.c:255-404 | for every NUL-free text and every tree: the text is accepted with the tree if and only if the wider grammar writes the text and gives it the tree |
| `JsonAccepted.NoTrailingComma` | App/json/json.c:349-352 | in no accepted text a comma outside strings is followed over blanks by a closing bracket |
| `JsonAccepted.TrailingCommaRejected` | App/json/json.c:349-352 | `[1,]` is rejected |
| `JsonGrammar.TreeDeterminesValue` | App/json/json.c:255-404 | two values with the same tree are equal, so the tree loses nothing of the value |
| `JsonHeap.Node.constructor` | App/json/json.c:249-252 | a new node is empty, linked to nothing and live |
| `JsonHeap.AssignName` | App/json/json.c:197-209 | sets the name exactly when the node may have one, and changes nothing else |
| `JsonHeap.AssignValue` | App/json/json.c:211-246 | sets kind and value exactly when the text is acceptable, and changes nothing otherwise |
| `JsonHeap.AddChild` | App/json/json.c:270-290 | the new node becomes the only child, the tree stays well linked, and everything above is as before |
| `JsonHeap.AddSibling` | App/json/json.c:304-332 | the new node becomes the next sibling with the same parent, and the tree stays well linked |
| `JsonHeap.OnOpen` | App/json/json.c:270-290 | the step at an opening bracket keeps the tree well linked and does what the value builder does, rejections included |
| `JsonHeap.OnColon` | App/json/json.c:292-302 | the step at a colon keeps the tree well linked and does what the value builder does |
| `JsonHeap.OnComma` | App/json/json.c:304-332 | the step at a comma keeps the tree well linked and does what the value builder does |
| `JsonHeap.OnClose` | App/json/json.c:337-372 | the step at a closing bracket, with its way up over parent pointers, keeps the tree well linked and does what the value builder does |
| `JsonHeap.OnEnd` | App/json/json.c:374-398 | at the end of the text the tree is accepted exactly when the value builder accepts it |
| `JsonHeap.AscendLinked` | App/json/json.c:337-372 | the parent pointer of the last sibling leads to the node whose children the whole chain is |
| `JsonHeap.Build` | App/json/json.c:255-404 | for every text: terminates, leaves one well-linked tree on the root, returns the root with the value builder's tree exactly when the text is accepted, and has created no other nodes than those on the root and those cut off, of which there are some if and only if a group was reopened |
| `JsonBrackets.EveryRound` | App/json/json.c:255-404 | for every text and number of rounds, the kinds of the ancestors are the stack of brackets open outside strings, and the root has no sibling |
| `JsonBrackets.AncestorsAreOpenBrackets` | App/json/json.c:255-404 | the ancestors of the current node are exactly the open brackets of the text read so far, and no string is open there |
| `JsonBrackets.AcceptedIsBalanced` | App/json/json.c:255-404 | every accepted text has balanced brackets that match in kind, and closed quotes |
| `JsonReopen.ChildrenAfterClose` | App/json/json.c:255-404 | after any number of rounds the current node has children if and only if the last structural character was a closing bracket |
| `JsonReopen.ReopensIff` | App/json/json.c:270-290 | for every text: a group is reopened if and only if, in the part that was accepted, a closing bracket outside strings is followed over blanks by an opening one |
| `JsonReopen.AcceptedReopensIff` | App/json/json.c:255-404 | for an accepted text the same of the whole text |
| `JsonReopen.SecondReplacesFirst` | App/json/json.c:270-290 | any two groups in a row are accepted with the second one's value alone, by reopening the closed group |
| `JsonReopen.TwoArraysLose` | App/json/json.c:270-290 | `[1][2]` is such a text |
| `Allocation.Allocator.Release` | App/json/json.c:766 | a block must be live to be freed, is not live afterwards, and may then hold anything |
| `JsonFree.Free` | App/json/json.c:746-770 | on every well-linked tree: terminates, reads and frees only live nodes, and takes exactly the nodes on the root from the live blocks |
| `JsonFree.FreeRecursively` | App/json/json.c:772-784 | the recursive version kept in a comment takes the same nodes from the live blocks |
| `JsonFree.SameNodesFreed` | App/json/json.c:746-784 | both versions free each node the same number of times, in different orders |
| `JsonFree.ParseText` | App/json/json.c:600-613 | an accepted text leaves its tree live; after a rejected one exactly the nodes cut off by a reopened group are live |
| `JsonStrings.Encode` | App/json/json.c:790-835 | writes the quoted text and its zero inside twice the length plus three characters, and changes nothing behind them |
| `JsonStrings.EncodeParse` | App/json/json.c:790-835 | parsing the encoding of any NUL-free string gives one string node that holds the string |
| `JsonStrings.EncodedIsEscaped` | App/json/json.c:790-835 | the encoding is longer by one for each character that has an escape, and holds no control character that has one |
| `JsonStrings.LexemeEscapes` | App/json/json.c:134-195 | on every piece that the scanner delivers, the look behind a backslash stays inside the piece |
| `EndTag.Wire.Take` | docker/libs/libnetconf2/src/io.c:86-238 | takes exactly the bytes asked for from the stream, or fails when there are fewer |
| `EndTag.Retry` | docker/libs/libnetconf2/src/io.c:320-328 | finds the longest start of the tag, below the length tried, that ends the data |
| `EndTag.MatchTail` | docker/libs/libnetconf2/src/io.c:320-328 | the loop over the buffer computes that longest start |
| `EndTag.RematchIsTrue` | docker/libs/libnetconf2/src/io.c:314-328 | after every read the matched counter is the length of a start of the tag that ends the data |
| `EndTag.SearchEndsWithTag` | docker/libs/libnetconf2/src/io.c:270-345 | while the matched counter is the length of a tag prefix at the end of the data, success means that the data ends with the whole tag |
| `EndTag.UntilEndsWithTag` | docker/libs/libnetconf2/src/io.c:270-345 | for every stream and tag, what is returned ends with the tag |
| `EndTag.ReadUntil` | docker/libs/libnetconf2/src/io.c:270-345 | with a buffer that grows, every access in bounds: returns what the search says and leaves the rest of the stream unread |
| `EndTag.LimitPermits` | docker/libs/libnetconf2/src/io.c:286-299 | a limit within which the tag is found changes nothing |
| `EndTag.LimitIsExact` | docker/libs/libnetconf2/src/io.c:286-299 | a tag of one character is found under a limit if and only if it is found within it |
| `MessageEnd.ExactIff` | docker/libs/libnetconf2/src/io.c:270-345 | for every message without `]]>` and any following bytes, exactly the message and its end are taken if and only if the message is separable |
| `MessageEnd.Exact` | docker/libs/libnetconf2/src/io.c:386-395 | in particular for every message without `]]>` that does not end in `]` |
| `MessageEnd.BracketSwallowsEnd` | docker/libs/libnetconf2/src/io.c:270-345 | a message that ends in `]` whose end is not found where it stands |
| `Framing.Writer.Send` | docker/libs/libnetconf2/src/io.c:827-849 | one chunk goes out, with its header under version 1.1 |
| `Framing.Writer.Flush` | docker/libs/libnetconf2/src/io.c:865-877 | what waits in the buffer goes out as one chunk, and nothing does when nothing waits |
| `Framing.Writer.Write` | docker/libs/libnetconf2/src/io.c:879-962 | raw and XML-escaped calls of any length keep the buffer within its size, and lose, repeat or reorder no byte |
| `Framing.Writer.End` | docker/libs/libnetconf2/src/io.c:851-863 | the end of a message sends what waits and then the end marker of the version |
| `Framing.ChunksHoldPayload` | docker/libs/libnetconf2/src/io.c:879-962 | for every sequence of calls, the chunks put together are the calls' payloads in order, and no chunk is empty |
| `Framing.WriteMessage` | docker/libs/libnetconf2/src/io.c:827-962 | the bytes sent for a sequence of calls, whatever was sent before |
| `Framing.HeaderFits` | docker/libs/libnetconf2/src/io.c:831-835 | the header of a chunk of any 64-bit size fits the array it is printed to |
| `Chunked.ReadMessage11` | docker/libs/libnetconf2/src/io.c:396-447 | the loop over headers and chunks on a stream reads what the specification function says, error cases included, and leaves the rest |
| `Chunked.ReadFrames` | docker/libs/libnetconf2/src/io.c:396-447 | what the reader makes of every sequence of chunks: their concatenation, an empty message refused, a size that reads as -1 a failure |
| `Chunked.RoundTripIff` | docker/libs/libnetconf2/src/io.c:396-447 | for every sequence of write calls and any following bytes, the reader gets exactly the payload and leaves what follows, if and only if the payload is not empty and no raw call has a size that reads as -1 |
| `Chunked.RoundTrip` | docker/libs/libnetconf2/src/io.c:827-962 | in particular for every non-empty message whose raw calls stay below 2^32 - 1 bytes |
| `ChunkedStream.MessageIff` | docker/libs/libnetconf2/src/io.c:396-447 | for every byte stream: it is read as a message if and only if it is one chunk or more, each behind skipped text and a header whose size `strtoul` reads, then the end of chunks, and then what stays unread |
| `Chunked.ReadText10` | docker/libs/libnetconf2/src/io.c:386-395 | the version 1.0 reader returns the message without its end tag and leaves the rest |
| `Chunked.RoundTrip10Iff` | docker/libs/libnetconf2/src/io.c:386-395 | version 1.0: the reader gets exactly what the calls wrote if and only if the message is separable |
| `RpcLock.NextKeepsInv` | docker/libs/libnetconf2/src/session.c:254-389 | every statement of every thread keeps the invariant that ties the mutex and `rpc_inuse` to the places of the threads |
| `RpcLock.Safety` | docker/libs/libnetconf2/src/session.c:254-389 | over every interleaving of any number of threads, any timeouts, signals spent on expired waits and spurious wake-ups: at most one thread holds the lock, both assertions hold, no thread leaves with the mutex |
| `RpcProgress.FreeLockIsTaken` | docker/libs/libnetconf2/src/session.c:259-338 | for every state with lock and mutex free and every timeout: a call that runs alone and undisturbed goes on in one way only and ends holding the lock, with everything else as it was |
| `RpcProgress.TakenLockStays` | docker/libs/libnetconf2/src/session.c:259-338 | while the lock is taken no other thread gets it, whatever it does alone |
| `RpcProgress.TryReturnsAtOnce` | docker/libs/libnetconf2/src/session.c:285-289 | a call with timeout zero on a taken lock returns at once and changes nothing |
| `RpcProgress.WaitingCallSleeps` | docker/libs/libnetconf2/src/session.c:271-284 | any other call on a taken lock begins to wait and gives the mutex back |
| `RpcProgress.ExpiredCallReturns` | docker/libs/libnetconf2/src/session.c:278-281 | a wait that times out gives up and leaves everything as it was |
| `RpcProgress.FailedLockReturns` | docker/libs/libnetconf2/src/session.c:313-323 | a lock call that fails at the mutex changes nothing; without a limit it is never busy |
| `RpcProgress.FailedWaitReturns` | docker/libs/libnetconf2/src/session.c:304-310 | a wait that fails gives the mutex back and gives up |
| `RpcProgress.UnlockFrees` | docker/libs/libnetconf2/src/session.c:340-389 | with nobody waiting, the unlock call frees the lock and changes nothing else |
| `RpcProgress.FallbackFrees` | docker/libs/libnetconf2/src/session.c:367-376 | an unlock call that does not get the mutex frees the lock all the same |
| `RpcProgress.FailedUnlockKeeps` | docker/libs/libnetconf2/src/session.c:367-370 | an unlock call that gets another error keeps the lock |
| `RpcProgress.LockThenUnlock` | docker/libs/libnetconf2/src/session.c:254-389 | locking and unlocking a free lock leaves everything as it was, for every pair of timeouts |
| `RpcProgress.Handover` | docker/libs/libnetconf2/src/session.c:375-380 | the unlock call wakes a waiting thread, which then holds the lock |
| `RpcWakeup.NobodyStranded` | docker/libs/libnetconf2/src/session.c:254-389 | a run in which every unlock gets the mutex and no signal is spent on an expired wait never leaves a waiting thread asleep with the lock free and nobody to wake it |
| `RpcWakeup.FallbackStrands` | docker/libs/libnetconf2/src/session.c:340-389 | with either kind of limited timeout, one unlock that does not get the mutex strands a waiting thread |
| `RpcWakeup.TimeoutStrands` | docker/libs/libnetconf2/src/session.c:277-283 | with unlock calls that all wait for the mutex, a timed wait that expires can use up the signal and strand a thread |
| `RpcWakeup.StrandsIff` | docker/libs/libnetconf2/src/session.c:254-389 | for a kind of unlock timeout and a set of kinds of lock timeouts: some run strands a thread if and only if unlimited lock calls occur, and the unlock calls are limited or timed lock calls occur |
| `Demux.Session.GetMsg` | docker/libs/libnetconf2/src/session_client.c:1436-1556 | the new queues and the result of a call, for every state, request and incoming message |
| `Demux.ResultTells` | docker/libs/libnetconf2/src/session_client.c:1436-1556 | for every result, where its message came from and what has become of both queues |
| `Demux.Session.SendRpc` | docker/libs/libnetconf2/src/io.c:1194-1215 | the id written into the request is the id returned; `Demux.IdsCountUp` says which ids these are |
| `Demux.IdsCountUp` | docker/libs/libnetconf2/src/io.c:1198-1214 | over every history ids count up from 1, modulo 2^64, one for each request that could be printed |
| `Demux.IdsTellApartIff` | docker/libs/libnetconf2/src/io.c:1198-1214 | no id is zero and no two are the same if and only if there are fewer than 2^64 requests |
| `Demux.IdAnswersOne` | docker/libs/libnetconf2/src/io.c:1198-1214 | below that number the text of an id belongs to one request only |
| `Demux.CallConserves` | docker/libs/libnetconf2/src/session_client.c:1436-1556 | in one call, queued and read messages are the delivered and then queued ones, in order |
| `Demux.RepliesConserved` | docker/libs/libnetconf2/src/session_client.c:1436-1556 | over every run of calls, replies come out in the order read, none lost and none twice |
| `Demux.NotifsConservedIff` | docker/libs/libnetconf2/src/session_client.c:1436-1556 | over every run of calls, notifications come out in the order read if and only if none was dropped, and the drops are counted |
| `Demux.SubscribedIff` | docker/libs/libnetconf2/src/session_client.c:1436-1556 | notifications are conserved and in order whatever arrives, if and only if every call for a reply is made with a notification thread |
| `Demux.ReplyAnswersRequest` | docker/libs/libnetconf2/src/session_client.c:2082-2128 | over every history of sends, failed sends and calls, with a server that answers the requests it was sent in order: the reply that a call delivers carries the id that the corresponding send returned, and no call meets a wrong id |
| `Demux.NextReplyChecked` | docker/libs/libnetconf2/src/session_client.c:1518-1533 | in whatever order the server answers, a call delivers the next reply read; a reply with the text of an id is taken for the one asked for if and only if it is that id, and one without an id always |
| `Demux.Converse` | docker/libs/libnetconf2/src/session_client.c:2913-2924 | a session run through any history returns from its sends and calls what the theorem speaks of |
| `SshRing.Join` | docker/libs/libnetconf2/src/session_client_ssh.c:1784-1808 | a new live session joins the ring right behind the one asked, and all others keep their places |
| `SshRing.OthersRun` | docker/libs/libnetconf2/src/session.c:753-761 | says whether any other session in the ring is past its start |
| `SshRing.FreeStarting` | docker/libs/libnetconf2/src/session.c:763-779 | every other session is taken from the live ones, each read and freed only while it is live |
| `SshRing.Unlink` | docker/libs/libnetconf2/src/session.c:787-796 | the session leaves; the others keep their ring and order, and a single one left has no link |
| `SshRing.Leave` | docker/libs/libnetconf2/src/session.c:746-796 | either only the session is freed and the others run on in their ring, or all of them are freed with it, depending only on their states |
| `SshRing.Turned` | docker/libs/libnetconf2/src/session.c:746-796 | the ring seen from the next member is the same ring turned |
| `SshRing.LeaveInTurn` | docker/libs/libnetconf2/src/session.c:746-796 | any run of removals in any order in which each leaver is still alive: a ring of exactly the remaining sessions in their order while one of them is past its start, and otherwise all freed |
| `Xml.ReadPrinted` | docker/libs/libnetconf2/src/io.c:970-989 | the text printed for an element is balanced: a reader of XML gets exactly the element back |
| `RpcErrorWriter.WriteTag` | docker/libs/libnetconf2/src/io.c:970-989 | an opening, open-ended or closing tag with its prefix |
| `RpcErrorWriter.WriteError` | docker/libs/libnetconf2/src/io.c:991-1153 | for every error, the calls together write the text of one element |
| `RpcError.ParseRpcError` | docker/libs/libnetconf2/src/session_client.c:1558-1700 | the loops over the children of an error collect its fields and lists in order |
| `RpcError.ErrorRoundTrip` | docker/libs/libnetconf2/src/session_client.c:1558-1700 | the client's parser recovers type, tag, severity, app-tag, path, message, language, session id and the attribute, element and namespace lists of every server error |
| `RpcErrorFields.EveryField` | docker/libs/libnetconf2/src/session_client.c:1558-1700 | for every list of children, doubled, unknown and foreign ones included: each field is the first allowed value of its name, and each list all values of its name in order |
| `RpcError.ToldIff` | docker/libs/libnetconf2/src/io.c:991-1153 | with the names of RFC 6241 the client tells type, tag, texts and lists of every error, and the whole error if and only if the session id fits 32 bits and a language comes with a message |
| `RpcError.SidRecoveredIff` | docker/libs/libnetconf2/src/io.c:1117-1126 | a session id arrives unchanged if and only if it fits 32 bits |
| `RpcErrorWriter.ErrorOverTheWire` | docker/libs/libnetconf2/src/io.c:991-1153 | from the server's error over the written text to the client's error, for texts without NUL and a language without a double quote |
| `Hello.WriteHello` | docker/libs/libnetconf2/src/io.c:1307-1340 | the calls together write the element with every capability in order and the session id |
| `CapabilityList.ParseCapabilities` | docker/libs/libnetconf2/src/session.c:1196-1257 | the loop returns the trimmed texts of the base namespace's elements in order, under any prefix bound to it, with the version they lead to, or an error for a malformed list |
| `CapabilityList.TextsOfLeaves` | docker/libs/libnetconf2/src/session.c:1196-1257 | every list is recovered from its elements without the white space around the entries, and refused if and only if an entry is blank |
| `HelloAccepted.TrimmedBetween` | docker/libs/libnetconf2/src/session.c:1226-1231 | what is between blanks is what trimming leaves |
| `HelloAccepted.ListIff` | docker/libs/libnetconf2/src/session.c:1196-1257 | a list of any elements is taken if and only if those of the base namespace are all capabilities that are not blank |
| `CapabilityList.ProperUnchanged` | docker/libs/libnetconf2/src/session.c:1217-1223 | entries without white space around them come through unchanged |
| `CapabilityList.VersionCases` | docker/libs/libnetconf2/src/session.c:1196-1257 | the version by what the list contains: the base URIs and the number of their common proper prefixes |
| `CapabilityList.OrderIrrelevant` | docker/libs/libnetconf2/src/session.c:1196-1257 | under the condition, in particular without such prefixes, every order of the list leads to the same version |
| `CapabilityList.OrderMatters` | docker/libs/libnetconf2/src/session.c:1196-1257 | without the condition two orders of the list lead to different versions |
| `Handshake.PrintedIsSeparable` | docker/libs/libnetconf2/src/session.c:1430-1447 | every printed element meets the condition of the end-of-message scanner |
| `Handshake.ReceiveAsClient` | docker/libs/libnetconf2/src/session.c:1297-1373 | what a client concludes from a received element, every error case and every prefix of the base namespace included |
| `Handshake.ReceiveAsServer` | docker/libs/libnetconf2/src/session.c:1375-1428 | what a server concludes from a received element, every error case and every prefix of the base namespace included |
| `HelloAccepted.SessionIdIff` | docker/libs/libnetconf2/src/session.c:1315-1327 | a session id is taken if and only if it is digits of a number from 1 to 2^32 - 1, perhaps behind blanks and a plus |
| `HelloAccepted.ClientAcceptsIff` | docker/libs/libnetconf2/src/session.c:1297-1373 | for every hello: the client accepts it if and only if it holds, of the base namespace, only session ids, at least one and all valid, and at most one list, which is valid; it keeps the list and the last id |
| `HelloAccepted.ServerAcceptsIff` | docker/libs/libnetconf2/src/session.c:1375-1428 | for every hello: the server accepts it if and only if it holds, of the base namespace, only at most one list, which is valid |
| `Handshake.ClientReadsHello` | docker/libs/libnetconf2/src/session.c:1297-1373 | for every list the client recovers the trimmed entries, the id and the version, and refuses exactly lists with a blank entry or without a version |
| `Handshake.ServerReadsHello` | docker/libs/libnetconf2/src/session.c:1375-1428 | for every list the server recovers its version, and refuses exactly lists with a blank entry or without a version |
| `Handshake.HelloIsRead` | docker/libs/libnetconf2/src/session.c:1430-1447 | a hello sent by any calls is read whole and nothing behind it is taken |
| `Handshake.BothAgree` | docker/libs/libnetconf2/src/session.c:1430-1447 | for every NUL-free list, over byte streams with anything following: each end recovers what the other said and has read exactly the hello when the framing changes, and both settle on the same version if and only if no entry is blank and the list leads to 1.1 |
| `Handshake.Version11Agreed` | docker/libs/libnetconf2/src/session.c:997-998 | every list with the 1.1 URI, as every server of the library announces it, leads to 1.1 |
| `YangFeatures.NextFeature` | docker/libs/libnetconf2/src/session.c:922-972 | goes from one feature to the next one in the concatenation of all submodule arrays and the module's own, empty arrays included, and ends at the end |
| `YangFeatures.CollectEnabled` | docker/libs/libnetconf2/src/session.c:1119-1142 | repeated calls meet each feature exactly once, in order |
| `YangFeatures.EnabledIff` | docker/libs/libnetconf2/src/session.c:1119-1142 | a name is printed if and only if the module or one of its submodules has an enabled feature of that name |
| `CapabilitySet.SameUpToIsStem` | docker/libs/libnetconf2/src/session.c:881-920 | the comparison finds exactly the entries equal up to the first `?` |
| `CapabilitySet.Caps.Add` | docker/libs/libnetconf2/src/session.c:881-920 | keeps the entries distinct up to the first `?` and the count within the array, which grows when it is full |
| `CapabilitySet.RunKeepsFirst` | docker/libs/libnetconf2/src/session.c:881-920 | after any run of additions the set holds the first capability of each stem, in order |
| `ModuleUri.AppendList` | docker/libs/libnetconf2/src/session.c:1119-1168 | a list of names behind its keyword, as far as it fits; the buffer is never overrun by it |
| `ModuleUri.AllKeptIff` | docker/libs/libnetconf2/src/session.c:1119-1168 | every name of a list is printed if and only if the list fits the buffer, a single name with one character to spare |
| `ModuleUri.KeptSnoc` | docker/libs/libnetconf2/src/session.c:1119-1168 | which names are printed when not all fit: each that fits behind those before it, and no feature behind the first that does not |
| `ModuleUri.PrintUri` | docker/libs/libnetconf2/src/session.c:1116-1177 | the capability of a module, with what its lists keep, inside the buffer |
| `ModuleUri.PrintedWhole` | docker/libs/libnetconf2/src/session.c:1116-1177 | a capability that fits with one character to spare is printed whole |
| `ModuleUri.SplitFeatures` | docker/libs/libnetconf2/src/session_client.c:886-897 | the parts between commas up to `&` or the end, the last one included |
| `ModuleUri.BuildSchemaInfo` | docker/libs/libnetconf2/src/session_client.c:844-903 | one record for each capability with `module=`, in order |
| `ModuleUri.QueryLookup` | docker/libs/libnetconf2/src/session_client.c:857-897 | searching for `key=` in key=value pairs finds the value of the first pair with that key, although the search is for plain text |
| `ModuleUri.SplitJoin` | docker/libs/libnetconf2/src/session_client.c:886-897 | splitting a printed list gives the list back |
| `ModuleUri.UriRoundTrip` | docker/libs/libnetconf2/src/session_client.c:844-903 | the client recovers name, optional revision and enabled features in order from the whole text, for every namespace without `module=` |
| `ModuleUri.UriRoundTripIff` | docker/libs/libnetconf2/src/session_client.c:844-903 | for every module: the capability is read back if and only if the namespace does not contain `module=`, or behind the first one it gives the right name and no revision or features other than the right ones |
| `ModuleUri.WithoutAmpersand` | docker/libs/libnetconf2/src/session_client.c:844-903 | for namespaces without `&`, if and only if the namespace does not contain `module=` |
| `ModuleUri.PrintedIsRead` | docker/libs/libnetconf2/src/session_client.c:844-903 | what the client reads of the buffer when the front part and keywords fit, cut off or not: the features kept, or one without a name where none is kept |
| `ModuleUri.DeviationsTold` | docker/libs/libnetconf2/src/session.c:1144-1168 | the deviating modules that are printed stand behind `deviations=` of the capability, in order |
| `ModuleUri.PrintedRoundTrip` | docker/libs/libnetconf2/src/session.c:1116-1177 | what the printer leaves in its buffer is read back when the text fits with a character to spare |
| `ModuleList.ModulesReachClientIff` | docker/libs/libnetconf2/src/session.c:1116-1177 | behind any distinct capabilities that name no module, a server's list of modules whose texts fit the buffer and whose namespaces lack `module=` reaches the client whole and in order if and only if no two of the capabilities and namespaces agree up to the first `?` |
| `ModuleList.KeptIff` | docker/libs/libnetconf2/src/session.c:881-920 | a run of additions keeps everything if and only if no two entries agree up to the first `?` |
| `ModuleList.SecondRevisionIsLost` | docker/libs/libnetconf2/src/session.c:881-903 | of any such module in two revisions only the first one reaches the client |
| `ModuleList.TwoRevisions` | docker/libs/libnetconf2/src/session.c:881-903 | such a module with its two revisions |
| `TimeSpec.Time.Add` | docker/libs/libnetconf2/src/session.c:101-118 | keeps a time normalised and adds exactly the offset |
| `TimeSpec.AddTwice` | docker/libs/libnetconf2/src/session.c:101-118 | adding two offsets one after the other gives the same fields as adding their sum |
| `TimeSpec.Difference` | docker/libs/libnetconf2/src/session.c:89-99 | the difference in milliseconds, wrapped to 64 bits of nanoseconds, truncated towards zero and stored in 32 bits |
| `TimeSpec.Measure` | docker/libs/libnetconf2/src/session.c:89-118 | adding an offset to a copy of a time and measuring the difference gives the offset if and only if it is below 2^31 |
| `TimeSpec.AntisymmetricIff` | docker/libs/libnetconf2/src/session.c:89-99 | measured backwards a difference is negated if and only if it is not the smallest 64-bit number and its milliseconds do not leave the remainder 2^31 modulo 2^32 |
| `SwitchList.Push` | App/switch/switch.c:54-121 | the item comes last, the cells count from 1, and a head of size 0 is filled in place |
| `ConfigLoad.GetNamed` | App/json/json.c:626-642 | the child with this name, over linked nodes |
| `ConfigLoad.GetItem` | App/json/json.c:672-690 | the child at this place, over linked nodes |
| `ConfigLoad.GetCount` | App/json/json.c:693-706 | the number of children, over linked nodes |
| `ConfigLoad.TestReal` | App/json/json.c:546-565 | whether a node is a number without point and minus |
| `ConfigLoad.GetReal` | App/json/json.c:458-465 | the unsigned number in a node, 0 without one |
| `ConfigLoad.ReadValues` | App/Client/Main.c:46-70 | fills the list with the entries of a schedule in order, one record carried from entry to entry |
| `ConfigLoad.ReadPorts` | App/Client/Main.c:86-98 | fills the list with the ports in order, each with a schedule of its own that shares no cell with another |
| `ConfigLoad.ReadJson` | App/Client/Main.c:72-108 | adds the switch that a node describes, if any, and says where the program ends instead |
| `ConfigLoad.ForEach` | App/json/json.c:709-717 | the recursive walk adds the switches of all nodes in preorder, and keeps the lists well formed and apart |
| `ConfigLoad.LoadConfig` | App/Client/Main.c:249-257 | from any text to the nested lists that hold exactly what the walk over its tree reads; of all that was allocated only their cells and nodes of reopened groups are live |
| `ConfigTree.ReadStands` | App/Client/Main.c:72-108 | on the tree of any value, what is read at a node is what the value says in terms of its fields |
| `ConfigTree.DocumentOrder` | App/json/json.c:709-717 | for every JSON value, the walk over its tree yields the switches of the value in document order |
| `ConfigTree.ConfigRead` | App/Client/Main.c:46-108 | a well-formed configuration is read exactly as written: switches, ports and entries in order, numbers by their digits |
| `ConfigPartial.CarriedOver` | App/Client/Main.c:46-70 | an entry that lacks a period or gates has those of the last entry before it that gives them |
| `ConfigPartial.NothingGiven` | App/Client/Main.c:46-70 | entries before the first that gives one have what was there at the start |
| `ConfigPartial.EndsIff` | App/Client/Main.c:84-104 | for every value: reading it ends the program if and only if somewhere in it, at any depth, a switch has no list of ports |
| `ConfigPartial.CollectedIff` | App/Client/Main.c:72-108 | a switch is collected if and only if some part of the value, at any depth, describes it |
| `ConfigEmit.BinaryToDecimal` | App/Client/utils.c:101-120 | the weighted sum of the digits, for every `int`, without overflow |
| `ConfigEmit.GatesInBaseTwo` | App/Client/utils.c:101-120 | for rows of zeros and ones, leading zeros included, that sum is the row read in base two |
| `ConfigEmit.DigitsInTwos` | App/Client/utils.c:101-120 | every number is turned into its decimal digits, read with the weights of base two, with its sign |
| `ConfigEmit.WritePort` | App/Client/Main.c:201-231 | the declared length is the number of entries, and the entries have indices from 0 up, their period and their converted gates |
| `ConfigEmit.Cycle` | App/Client/Main.c:182-195 | the cycle of all ports is the last period of the last port |
| `ConfigEmit.CycleIsSumIff` | App/Client/Main.c:182-195 | the cycle is the sum of the periods if and only if all periods but the last one of the last port are zero |
| `ConfigEmit.CycleIsNotSum` | App/Client/Main.c:182-195 | a schedule of two entries whose cycle is not the sum |
| `ConfigEmit.WriteInstance` | App/Client/Main.c:164-242 | what the output directory holds afterwards: each switch in order writes its file, one block for each port in order, over any earlier file of the name |
| `ConfigEmit.LastIsKept` | App/Client/Main.c:171-174 | a switch whose name no later one has finds its output in its file |
| `ConfigEmit.OthersStay` | App/Client/Main.c:171-174 | files of other names stay as they were |
| `ConfigEmit.FileOfEachIff` | App/Client/Main.c:171-174 | there are as many files as switches if and only if the names are distinct |
| `ConfigEmit.EntriesAsWritten` | App/Client/Main.c:198-233 | in the output for a configured port, entry i has index i, the period as written and the gate digits read in base two |
| `ConfigEmit.FileHolds` | App/Client/Main.c:164-242 | by position: the file of a switch holds, for each port at its offset, the number and length, each entry with its index, period and base-two gates, and the end with the last period of the last port, and nothing else |
| `ConfigEmit.Configure` | App/Client/Main.c:249-263 | every text of a well-formed configuration leaves a directory in which the file of each name holds, by position, all ports of the last switch of that name, and other files are as they were; no block stays live |
| `ConfigEmit.WrittenIsConfigured` | App/Client/Main.c:164-242 | the same of what the switches write one after the other |
| `ConfigEmit.ConfigFilesIff` | App/Client/Main.c:249-263 | a well-formed configuration gives a file of each of its switches if and only if their names are distinct |
| `ConfigFree.FreeSwitches` | App/switch/switch.c:154-183 | exactly the cells of the nested lists are taken from the live blocks, each read and freed only while it is live |

## Left out

- Allocation failures: every allocation succeeds.
- Sockets, SSH and TLS transports, poll and timeouts: a connection is an exact stream of bytes; a read that finds too few fails.
- JsonLex.Scan: its quote counter has no upper limit, so texts with 2^31 quotes are not distinguished.
- JsonFree.Free: says nothing of nodes that a reopened group cut off from the root; the source leaks them, as `JsonFree.ParseText` states.
- JsonHeap.AssignName: the blocks of names and values are not tracked by the allocator.
- JsonCompleteness.Completeness: `\u` escapes, which the parser rejects, are not part of the grammar; its converse is `JsonAccepted.AcceptedIff`.
- The value that `strtod` computes, and locales other than C: only where a number ends is modelled.
- json_print and the other accessors of the parser: reading without further logic.
- Chunked.ReadText10: requires a stream below 2^31 bytes, because the reader keeps the length of the message in an `int`.
- EndTag.ReadUntil: the tag is at most as long as the first buffer, as all tags in use are.
- Framing.Writer.Write: the byte count that the callback returns is not modelled.
- RpcLock.Safety: errors of `pthread_mutex_unlock` are not modelled; every other error and spurious wake-up is.
- Demux.Session.SendRpc: a request whose content cannot be printed may have left chunks on the wire already, and a counted request may fail on the wire; neither is modelled.
- Demux.ReplyAnswersRequest: makes no claim on replies without a message-id, which the client takes as they come.
- SshRing.Leave: the dictionary and context that are released once for each starting session are not modelled, and the loop that afterwards hands over the SSH callbacks to another session is not modelled.
- RpcErrorWriter.WriteError: the 16-bit length of the prefix is taken as unbounded.
- Xml.ReadPrinted: the reader is written for this project; the XML library of the source is foreign code.
- ModuleUri.PrintUri: requires that the front part and the two keywords, which the source prints without a look at the length, fit the buffer; a module for which they do not overruns it. Which modules deviate a module is a parameter; the search for them over all loaded modules is not modelled.
- TimeSpec.Difference: signed overflow wraps around, as compilers do; the C standard leaves it open.
- ConfigLoad.LoadConfig: requires switch names below 20 characters, since the source copies them to an array of 20 unchecked.
- ConfigEmit.WriteInstance: requires lists without empty ones; the source reads the unwritten head of an empty list. The fixed text of the templates is not modelled, nor a file that cannot be opened; different names are taken to be different files.
- ConfigEmit.Cycle: the conversion of periods to `float` and the cycle-time denominator computed from it are not modelled.
- ConfigFree.FreeSwitches: requires lists without empty ones, for the same reason.
- Schema loading, context filling and the choice of revisions in the client: calls into libyang with little logic.
- Message constructors (`messages_client.c`, `messages_server.c`), call-home administration, the Python bindings, the remaining readers under `App` and logging: field copying, tables or plumbing.
