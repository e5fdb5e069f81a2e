# Verification of a LWM2M engine over CoAP

This project models the protocol core of a Lightweight M2M library, written in C, and proves what its parts promise each
other. `dafny verify dfyconfig.toml` checks all of it.

The engine exchanges CoAP messages. A client registers its objects with a server, the server asks for values and observes
them, the client notifies. Everything is kept in linked lists sorted by a 16-bit id, and every confirmable message is
retransmitted until it is answered or given up.

| files | what they are about |
|---|---|
| `Bytes`, `IntrusiveList`, `ListLookup` | integers as bytes; the linked list on heap nodes, and as a map from ids to records |
| `CoapOption`, `CoapStrings`, `CoapPacket` | the wire format of RFC 7252, sections 3, 3.1 and 3.2, as draft 13 of it: what is written for a message, what is parsed from bytes |
| `CoapSerialize`, `CoapMessage`, `CoapParse` | the code that writes into an array, and the code that parses and joins strings in place |
| `CoapRoundTrip`, `CoapFidelity`, `CoapReceive`, `CoapSize`, `CoapSetters`, `CoapWire` | parsing inverts serializing, when it loses something, what it makes of any bytes, and some datagrams byte by byte |
| `Uri` | decimal ids, decoded URIs, path and query strings |
| `Transactions`, `TransactionRuns`, `TransactionSchedule`, `TransactionStep`, `TransactionDatagrams`, `TransactionContext` | the retransmission engine as a state machine, its laws over every run, and the methods that walk and unlink nodes |
| `Observe`, `ObserveRuns`, `ObserveRequests`, `ObserveLaws`, `ObserveExact`, `ObserveNodes`, `ObserveContext` | the client's table of observed URIs and watchers, and the linked lists in linked lists it is kept in |
| `Registry`, `RegistryExact`, `RegistryRequests`, `RegistryRuns`, `RegistryAnswers`, `RegistryContext` | the server's clients and its observations on them |
| `Endpoint`, `EndpointHeld`, `EndpointRuns`, `EndpointDispatch`, `EndpointSafety`, `EndpointRegistration`, `EndpointRequests` | the three together, with what the client holds of its registrations: which message goes where, each callback once, when freed memory is used, and when a registration is in force |
| `RegisterPayload`, `RegisterRoundTrip`, `RegisterReading` | the printed list of objects, reading it back, and reading any bytes |
| `RegistrationClient`, `RegistrationTrip`, `RegistrationLoop`, `ObserveTrip`, `ObserveLoop`, `Blockwise` | whole exchanges through the codec: registration and its end, observation, notification and reset, block-wise answers |
| `Tlv`, `TlvInteger`, `TlvForest`, `TlvBuffers` | the binary records of object values |

Each state machine has three layers. A pure `Apply` says what one input does; lemmas prove what it means and what every run
keeps; a class with the source's fields and loops is proved equal to `Apply`, method by method. The network and the clock
are inputs: any order of requests, answers, losses and readings is a run. What the engine sends and which callbacks it runs
is a log.

## Where the code departs from its evident intent

The model does what the code does. In these places that is not what one would expect, and the condition is stated.

- The server of an observe request is the first whose address has the same length as the sender's or begins with it, not
  both (core/observe.c:124-126). `ServerFound` has the exact condition under which that is the server that asked,
  `AcceptedForSender` what it means for an accepted request; `WatchedForAnother` and `StrangerAccepted` are inputs at which
  it fails. The other laws are about the server record found.
- A message with no transaction to answer is taken for a notification whenever it has an Observe option; the test of its
  code is an assignment (core/packet.c:306-307). `CodeIgnored` says so.
- The checks of the URI's flags in registration requests come down to the resource bit (core/registration.c:356, 417). A
  POST to /rd/5 registers, and a DELETE of /rd removes client 0: `PostWithId` and `DeleteWithoutId`.
- Cutting a location string steps over the character after each cut (er-coap-13.c:187-204); `SplitJoin` gives the exact
  condition under which the string survives, `Faithful` the one for a whole message.
- A transaction that cannot be sent returns nonzero and stays, and the step takes nonzero for "removed"
  (core/transaction.c:174, core/liblwm2m.c:253-256). Such a transaction is counted in no wait, and on no schedule but the
  one of never being sent.
- A transaction added under an id in use goes behind the head if that has the id, and in front of all others
  (core/list.c:36-57); `InsertedShadows` says which one an answer then finds.
- At counter 4 a transaction has one send left, so the bound on remaining sends is the sum of 5 - c.
- If-None-Match is written whenever its number is in the option set; the field of that name is not looked at
  (er-coap-13.c:419).
- A server that observes again a URI it watches keeps the token of its first request (core/observe.c:177-190); `RequestExact`
  says so.
- A message is matched with a pending transaction by its id alone before anything else is looked at (core/packet.c:300-304),
  and client and server count their ids apart, both from 0. `NotificationRouted` has the condition under which a
  notification is one.
- Cancelling an observation, or removing a client, leaves pending transactions that refer to it (core/observe.c:445,
  core/registration.c:421). `CancelForGood`, `DeleteForGood` and `SafeInput` have the condition under which that is harmless;
  the model logs a use of a freed observation as `Dangling`.
- Option numbers from 40 on are marked outside the bitmap of five bytes (er-coap-13.c:593, er-coap-13.h:118, 241). The model
  ends the parse there, as it does when an option runs past the end of the datagram; `Leaves` is the exact condition.
- A number of more than 31 bits in a path wraps (core/uri.c:55-57). C leaves that undefined; the model takes two's
  complement.
- An answer calls its transaction's callback without looking whether there is one (core/packet.c:126); `NullCalled` says
  when.
- Observation ids are used again at once, and with them tokens; `StaleNotification` shows what that means for a late
  notification.
- An item of a registration payload without digits stands for object 0, so that "/" or "," registers it
  (core/registration.c:185-199, core/uri.c:39-67); `PayloadReads` is exact about it.
- An answer to a registration without a Location-Path changes nothing, a 4.00 included (core/registration.c:61-64).
- Ids of 65535 are printed in the registration payload and skipped or cut off when it is read; `PayloadRoundTrip` is an
  equivalence for that reason, as is `RequestUriRoundTrip` for instance ids.

## Model

| member | source | states |
|---|---|---|
| `IntrusiveList.Add` | core/list.c:36-57 | Links the node in, and the list then shows exactly the old entries with the new one at the place `AddIndex` gives; the chain of links stays intact. |
| `IntrusiveList.FindNode` | core/list.c:62-71 | The node `Find` names, or null. |
| `IntrusiveList.Remove` | core/list.c:77-109 | Takes out the node `RemoveIndex` names and no other, or none. |
| `IntrusiveList.NewIdOf` | core/list.c:112-126 | The id `NewId` computes on the list, with the 16-bit wrap. |
| `IntrusiveList.InsertedSorted` | core/list.c:36-57 | Adding keeps a list sorted, duplicates included. |
| `IntrusiveList.InsertedAscending` | core/list.c:36-57 | Adding keeps the ids distinct if and only if the new id was not taken. |
| `IntrusiveList.InsertedShadows` | core/list.c:36-71 | An entry added under an id that is in use is the one found from then on, unless an entry with the id heads the list. |
| `IntrusiveList.FindExact` | core/list.c:62-71 | On a sorted list the early-exit search finds an entry if and only if there is one, and the first one. |
| `IntrusiveList.RemoveIsFind` | core/list.c:77-109 | On a sorted list remove takes exactly what find finds, although it only scans from the second node. |
| `IntrusiveList.NewIdLeastUnused` | core/list.c:112-126 | The new id is the lowest unused one; it is unused if and only if fewer than 65536 ids are in use. |
| `ListLookup.LookupInserted` | core/list.c:36-57 | Seen as a map from ids to records, adding a fresh id adds that pair and changes nothing else. |
| `ListLookup.LookupWithout` | core/list.c:77-109 | Seen as a map, removing an entry removes that pair and changes nothing else. |
| `ListLookup.LookupDetermines` | core/list.c:34-109 | Two lists with ascending ids that agree as maps are equal. |
| `Bytes.MinimalInverse` | externals/er-coap-13/er-coap-13.c:154-172 | The bytes written for an integer option read back as the integer. |
| `Bytes.MinimalShortest` | externals/er-coap-13/er-coap-13.c:154-172 | No shorter byte string denotes the same number (section 3.2 of RFC 7252). |
| `CoapOption.HeaderInverse` | externals/er-coap-13/er-coap-13.c:107-149 | An option header reads back as the same delta and length, whatever follows, if and only if both are at most 269 + 65535. |
| `CoapSerialize.SetOptionHeader` | externals/er-coap-13/er-coap-13.c:125-149 | Writes exactly `Header(delta, length)` at its place and nothing elsewhere. |
| `CoapSerialize.SerializeInt` | externals/er-coap-13/er-coap-13.c:154-172 | Writes the header and the minimal big-endian bytes, leading zero bytes skipped. |
| `CoapSerialize.SerializeSplit` | externals/er-coap-13/er-coap-13.c:177-216 | The cutting loop writes one option per segment of `Split`, the first with the delta, the others with 0. |
| `CoapSerialize.SerializeMulti` | externals/er-coap-13/er-coap-13.c:221-234 | Writes one option per list element, in order. |
| `CoapSerialize.LogTwo` | externals/er-coap-13/er-coap-13.c:80-88 | The shifting loop finds the position of the highest set bit. |
| `CoapStrings.SplitJoin` | externals/er-coap-13/er-coap-13.c:176-258 | Joining the segments cut from a string gives the string back if and only if it is empty, or begins with no separator and ends in an even number of them. |
| `CoapStrings.SplitTwo` | externals/er-coap-13/er-coap-13.c:176-216 | Two segments without separators are cut apart exactly there. |
| `CoapMessage.SerializeMessage` | externals/er-coap-13/er-coap-13.c:379-470 | The macros write exactly `Serialized(p)` into the buffer: fixed header, token, options in number order, marker and payload, or nothing when the header is over 67 bytes. |
| `CoapMessage.FirstOptions` | externals/er-coap-13/er-coap-13.h:282-335 | One macro after the other, the bytes written so far are a prefix of the encoding that the rest completes. |
| `CoapMessage.MiddleOptions` | externals/er-coap-13/er-coap-13.h:282-335 | The same for the options from Location-Path on. |
| `CoapMessage.LastOptions` | externals/er-coap-13/er-coap-13.h:282-335 | The same to the end, where the whole encoding stands in the buffer. |
| `CoapParse.ParseInt` | externals/er-coap-13/er-coap-13.c:93-102 | The shifting loop gives the big-endian value modulo 2^32. |
| `CoapParse.MoveBlock` | externals/er-coap-13/er-coap-13.c:239-258 | The separator and the moved block go where they should; every byte of the buffer is accounted for. |
| `CoapParse.Merge` | externals/er-coap-13/er-coap-13.c:239-258 | After the in-place join the string is the old one, the separator and the segment; bytes behind the segment, which are not parsed yet, and bytes in front of the string do not change. |
| `CoapParse.ParseOption` | externals/er-coap-13/er-coap-13.c:550-725 | One round of the loop, in place, is one round of the parse of the original bytes: what is unread is untouched and every string field still denotes its value; a read or a mark out of bounds ends it. |
| `CoapParse.ParseMessage` | externals/er-coap-13/er-coap-13.c:497-731 | The in-place parser returns the message, or the error, that `Parse` gives for the bytes as they were before it changed them; joined strings equal the fold of their segments. |
| `CoapRoundTrip.Delivered` | externals/er-coap-13/er-coap-13.c:379-470 | Any message the setters can build that serializes parses without error to `Received(p)`, or with 5.05 exactly if it has a Proxy-Uri; the datagram has at most 67 + 1 + 128 bytes. |
| `CoapRoundTrip.ParseFrom` | externals/er-coap-13/er-coap-13.c:497-731 | Parsing the encoded options from any number on absorbs exactly those options. |
| `CoapRoundTrip.ParseValues` | externals/er-coap-13/er-coap-13.c:550-725 | A run of equal-numbered options parses to the absorption of its values, whatever follows. |
| `CoapFidelity.Faithful` | externals/er-coap-13/er-coap-13.c:379-731 | The message arrives as itself, field by field, if and only if its location strings can be cut and joined and its block options have a coded size and a number of at most 28 bits. |
| `CoapFidelity.BlockSurvives` | externals/er-coap-13/er-coap-13.h:325-335 | A block option keeps number, size and more bit if and only if the size is a power of two in 16..2048 and the number has at most 28 bits. |
| `CoapFidelity.BlockOffset` | externals/er-coap-13/er-coap-13.c:694-700 | The offset a receiver computes is number times size (section 2.2 of RFC 7959), for numbers of at most 20 bits. |
| `CoapSize.Arrives` | externals/er-coap-13/er-coap-13.c:379-731 | A message built with the setters whose header fits arrives as it was sent. |
| `CoapSize.TwoOptions` | externals/er-coap-13/er-coap-13.h:282-335 | What is written for a message with two options. |
| `CoapWire.HeaderOnWire` | externals/er-coap-13/er-coap-13.c:379-470 | Byte by byte: version 1, type, length of the token, code, id, token; and the payload at the end behind its marker (section 3 of RFC 7252). |
| `CoapWire.RequestOnWire` | externals/er-coap-13/er-coap-13.c:379-470 | A whole request, that of appendix A of RFC 7252 for /temperature with a token. |
| `CoapWire.AnswerOnWire` | externals/er-coap-13/er-coap-13.c:379-470 | And its answer with a payload. |
| `CoapWire.ObserveOnWire` | core/observe.c:412-427 | A whole request to observe /3/0/13, option by option. |
| `CoapWire.ProxyOnWire` | externals/er-coap-13/er-coap-13.c:379-470 | A Proxy-Uri is written as it is. |
| `CoapWire.NothingAccepted` | externals/er-coap-13/er-coap-13.c:403-440 | An Accept option that is set without a value is not written, and the next delta counts as if it were not there. |
| `CoapSetters.SetLocationPath` | externals/er-coap-13/er-coap-13.c:1083-1129 | Leading slashes go, what follows a question mark becomes the query. |
| `CoapSetters.BlockSet` | externals/er-coap-13/er-coap-13.c:1170-1183 | A block option is set, with number, size and more bit, if and only if its size is 16..2048 and its number has at most 20 bits. |
| `CoapReceive.AnyDatagram` | externals/er-coap-13/er-coap-13.c:497-731 | For any bytes at all: an accepted message fits the fields it is kept in, option bitmap included; 4.00 is returned exactly when the version is not 1; and the parser leaves the datagram or the packet exactly when the datagram, read option by option, strays. |
| `CoapReceive.UnknownOption` | externals/er-coap-13/er-coap-13.c:591-722 | An unknown option below 40 is refused with 4.02 when its number is odd and passed over when it is even (section 5.4.1 of RFC 7252); one from 40 on is marked outside the bitmap. |
| `CoapReceive.NumberTooLarge` | externals/er-coap-13/er-coap-13.c:591-593 | The failing input: an empty message with one elective option of such a number. |
| `Uri.GetNumber` | core/uri.c:39-77 | The digit loop on an int of 32 bits, which wraps, gives what callers take for the number. |
| `Uri.NumberExact` | core/uri.c:39-77 | Of any string: what is in front of its first slash is read, as a number if and only if it is all digits, none included, that denote no negative int modulo 2^32; and as that number. |
| `Uri.DigitsExact` | core/uri.c:39-77 | A string of digits is read as the number it denotes if and only if that fits 31 bits. |
| `Uri.DecimalInverse` | core/uri.c:39-77 | Reading a printed number gives it back if and only if it fits 31 bits. |
| `Uri.ObjectSegment` | core/uri.c:81-151 | A path of one number names the object with that number modulo 2^32, if that is an id, so that /4294967296 is object 0. |
| `Uri.DecodeUri` | core/uri.c:81-151 | The step-by-step decoder gives `UriOf`, which `UriExact` describes. |
| `Uri.UriExact` | core/uri.c:81-151 | A path decodes to a URI if and only if its segments say it: /rd, /rd/id, /bs, or one to three ids of which the second and third may be empty and the second is not 65535; every other path is refused. |
| `Uri.RequestUriRoundTrip` | core/uri.c:81-151 | The segments built for a request decode to the same ids and flags if and only if there is no instance id 65535; otherwise they are rejected. |
| `Uri.SetSegments` | externals/er-coap-13/er-coap-13.c:986-1064 | The loop of the Uri-Path and Uri-Query setters cuts a string into `Cut` of it. |
| `Uri.PathOfTwo` | externals/er-coap-13/er-coap-13.c:986-1009 | A path of two plain segments is cut at its inner slash. |
| `Uri.CutMarked` | externals/er-coap-13/er-coap-13.c:986-1064 | One leading slash of a path, or question mark of a query, is left out. |
| `TransactionContext.PendingList.TransactionSend` | core/transaction.c:167-239 | On linked nodes: serializes once, attempts, counts on or completes and unlinks, exactly as `Send` says. |
| `TransactionContext.PendingList.TransactionRemove` | core/transaction.c:142-163 | Unlinks exactly the given node. |
| `TransactionContext.PendingList.StepNode` | core/liblwm2m.c:244-276 | The turn of one transaction, with the return value of the send taken for "removed" as the code does. |
| `TransactionContext.PendingList.Step` | core/liblwm2m.c:238-279 | The walk over a list that shrinks under it has the effect, the events and the wait of `StepAll` on the list as it was. |
| `TransactionContext.PendingList.StartTransaction` | core/transaction.c:80-239 | A new transaction on the sorted list, with its first send. |
| `TransactionContext.PendingList.HandleResponse` | core/packet.c:100-129 | Completes the first transaction with the id if its peer now has the address the message came from, and only then; the callback is called even if there is none. |
| `TransactionRuns.EveryRunExactlyOnce` | core/transaction.c:142-239 | Over every run: each transaction is pending with no callback run, or gone with exactly one completion; created = pending + answered + timed out. `EmptyExactlyOnce` starts the induction. |
| `TransactionSchedule.EveryRunOnSchedule` | core/transaction.c:207-238 | Over every run: a pending transaction with counter c has been sent c-1 times and is due at its first send plus c(c-1) seconds; none is sent more than 4 times; with a working clock no timeout comes before 12 seconds and four sends. `EmptyReachable` starts the induction. |
| `TransactionSchedule.StepSendsOnce` | core/liblwm2m.c:244-276 | In one step a pending transaction is sent exactly once if it is due and can be sent, else not at all. |
| `TransactionSchedule.StepLeavesAlone` | core/liblwm2m.c:244-276 | Nothing is sent for a transaction that is not on the list. |
| `TransactionStep.StepWaitExact` | core/liblwm2m.c:253-273 | The wait is exactly the least of the initial wait and, over the survivors that are not stuck unsendable, max(1, due time - now). |
| `TransactionStep.ClockFails` | core/transaction.c:208-219 | A first send for which the clock cannot be read is also the last: it leaves, and the transaction times out at once. |
| `TransactionStep.BufferSent` | core/transaction.c:167-239 | What is serialized once is kept and sent again; a message that cannot be serialized leaves nothing and stays; the result is 0 exactly when the transaction was sent and stays. |
| `TransactionStep.UnsendableStays` | core/liblwm2m.c:244-276 | A new transaction whose message cannot be serialized is due in every step and does nothing in any, nor does it count for the wait. |
| `TransactionStep.StepKeepsOrder` | core/liblwm2m.c:244-276 | The list after a step is what became of each entry, in order; entries not due are unchanged. |
| `TransactionStep.SortedKept` | core/list.c:36-57 | Every input keeps the list sorted, so that a lookup by id misses nothing. |
| `TransactionStep.ReceiveExact` | core/packet.c:100-129 | A response changes something if and only if the first transaction with its id is to a client or a server whose record holds the address it came from; it then completes that transaction and nothing else. |
| `TransactionStep.StepBudget` | core/transaction.c:223-236 | A step uses up exactly as many of the remaining sends, 5 - c for counter c, as it makes. |
| `TransactionStep.SendsBounded` | core/transaction.c:223-236 | Over every run without new transactions the sum of 5 - c bounds all sends still to come. |
| `TransactionDatagrams.EveryRunOneContent` | core/transaction.c:167-239 | Over every run all attempts of one transaction carry the same bytes, those of its own message. `EmptyOneContent` starts the induction. |
| `TransactionDatagrams.AttemptsAddressed` | core/transaction.c:189-204 | Every attempt goes to the address its peer has at that moment, whatever it was before. |
| `ObserveContext.Observations.HandleObserveRequest` | core/observe.c:155-195 | The handler on the linked table, with its searches and its additions in front of both lists, is `Request`. |
| `ObserveContext.Observations.CancelObserve` | core/observe.c:201-248 | The walk over the linked table up to the first match is `Reset`. |
| `ObserveContext.Observations.GetObservedList` | core/observe.c:56-91 | Collects exactly the overlapping entries, last of the table first. |
| `ObserveContext.Observations.ResourceValueChanged` | core/observe.c:252-287 | The nested loops over the linked lists, with `lastMid`, `nextMID` and `counter` updated node by node, are `Changed`. |
| `ObserveRequests.RequestExact` | core/observe.c:155-195 | Which requests are accepted and with what status; the watcher that the server found has of that URI counts one on or is made with the token of the request, no watcher of another server or on another URI changes, and the answer carries the count from before. |
| `ObserveRequests.ServerFound` | core/observe.c:117-132 | The server found has the sender's address if and only if some server has it and none in front of that one is as long as the sender's or begins with it. |
| `ObserveRequests.AcceptedForSender` | core/observe.c:155-195 | So an accepted request leaves a watcher whose notifications go to the sender's address if and only if that is the case; otherwise they go to the server found, at another address. No other server's watcher changes. |
| `ObserveRequests.WatchedForAnother` | core/observe.c:117-195 | The failing input: of two registered servers with addresses of one length the second observes, the first gets the watcher, with the second's token, and the first gets the notification. |
| `ObserveRequests.StrangerAccepted` | core/observe.c:117-195 | The other failing input: a sender that is no server, with an address as long as that of a registered one, is accepted with 2.05 in its place. |
| `ObserveLaws.EveryRunSound` | core/observe.c:36-287 | Over every run: URIs pairwise different, no empty watcher list, every watcher with a known server, no server twice on a URI; the Observe values given to a watcher are 0, 1, 2, … modulo 2^24 (section 3.4 of RFC 7641); its last message id is the one it was last sent. `StartSound` starts the induction. |
| `ObserveRuns.NotificationsIssue` | core/observe.c:272-279 | What one round of notifications issues to each watcher. |
| `ObserveExact.OverlapsExact` | core/observe.c:66-75 | The tests on objects, instances and resources come to this: two URIs overlap if and only if some resource is named by both. |
| `ObserveExact.SameUriExact` | core/observe.c:38-52 | For URIs as the decoder leaves them, the entry found is the one of exactly that URI. |
| `ObserveExact.ChangeExact` | core/observe.c:252-287 | A value change sends one message with its own token and the next consecutive id modulo 2^16 to each watcher of each readable URI that has a resource in common with the changed one, and nothing to anyone else; who watches what with which token stays. |
| `ObserveExact.SelectedExact` | core/observe.c:56-91 | The entries collected are exactly those that have a resource in common with the changed URI, in descending order. |
| `ObserveExact.ResetExact` | core/observe.c:201-248 | In every reachable state a reset changes the table if and only if some watcher of a server at its sender's address was last sent its id; the first of those in table order then watches no more, and every other watcher of any URI and server is as before. |
| `ObserveContext.Observations.UnlinkObserved` | core/observe.c:95-115 | On linked nodes: the entry goes, and every other entry stays with its watchers, in order. |
| `ObserveContext.Observations.TakeFrom` | core/observe.c:211-246 | One entry of the walk, on linked nodes: its first matching watcher is unlinked, and the entry if and only if that was its last watcher. |
| `ObserveExact.ResetFindsSender` | core/observe.c:201-248 | So it removes the watcher that was last sent the id, if no other watcher of a server at that address was. |
| `ObserveExact.EveryRunCountsIds` | core/observe.c:274-278 | Over every run: message ids follow one another modulo 2^16, one for each notification and for each thing else. |
| `RegisterPayload.GetId` | core/registration.c:189-217 | The two scans of an item are `ItemOf`. |
| `RegisterPayload.DecodeRegisterPayload` | core/registration.c:221-269 | The loop over the items builds `DecodedOnto([], payload)`, which `PayloadReads` describes. |
| `RegisterReading.PayloadReads` | core/registration.c:185-269 | For any bytes: the list holds exactly the objects that the items between the commas name, and of each exactly the instances, both strictly ascending. An item names an object by the digits in front of its first slash or space, an instance by what follows up to a space, each modulo 2^32 and below 65535. |
| `RegisterPayload.GetRegisterPayload` | core/objects.c:175-225 | The printing loops leave the whole text without its last separator, or return 0 exactly when there is nothing to print or it is longer than the buffer; a text that fills the buffer to the last byte is kept. |
| `RegisterRoundTrip.NameRead` | core/registration.c:189-217 | A printed item reads back as itself, without the ids that are not below 65535. |
| `RegisterRoundTrip.PayloadExact` | core/registration.c:221-269 | What the server reads back: exactly the printed objects with exactly their instances, as strictly ascending lists, but for ids not below 65535. |
| `RegisterRoundTrip.PayloadRoundTrip` | core/objects.c:175-225 | The server reads back exactly the client's map from object ids to instance sets if and only if all ids are below 65535. |
| `RegistryContext.ClientList.HandleRegistrationRequest` | core/registration.c:344-431 | The handler on the linked list of clients is `HandleRegistration`, which `RegistrationExact`, `RegistrationRecords` and `DeleteExact` describe. |
| `RegistryRequests.RegistrationExact` | core/registration.c:344-364 | A request is answered 2.01 if and only if it is a POST, its URI has no resource, some query option starts with ep= and goes on, and some item of its payload names an object; every other POST is answered 4.00, a PUT 5.01, any other method but DELETE 4.00, and the registry stays as it is. |
| `RegistryRequests.RegistrationRecords` | core/registration.c:365-406 | An accepted one leaves one record under the name, with the sender's address and exactly the objects and instances of the payload, under the id of the location; a known client keeps id and observations; no other record changes. |
| `RegistryRequests.NameExact` | core/registration.c:160-183 | Whether there is a name, and which: what follows ep= in the first such option, up to a 0. |
| `RegistryRequests.EveryRunDescribed` | core/registration.c:359-364 | Over every run: every registered client has an object. `StartDescribed` starts the induction. |
| `RegistryContext.ClientList.StoreClient` | core/registration.c:366-391 | The record found by name is changed in place, or a new one is linked in under the lowest unused id. |
| `RegistryContext.GetParameters` | core/registration.c:160-183 | The first query option that starts with ep= and goes on gives the name. |
| `RegistryContext.ClientList.StartObservation` | core/observe.c:385-428 | The call on the linked list of clients is `Observe`: the checks, the new id, the token bytes. |
| `RegistryContext.ClientList.StopObservation` | core/observe.c:435-448 | The call is `Cancel`. |
| `RegistryContext.ClientList.ObsRequestCallback` | core/observe.c:341-378 | The callback of a request, its observation still there or not, is `Completed`. |
| `RegistryContext.ClientList.HandleObserveNotify` | core/observe.c:454-491 | The handler of a notification is `Notify`. |
| `RegistryExact.WithClientExact` | core/registration.c:366-391 | A known name keeps its id and observations and gets the new address and objects; a new name gets the lowest unused id; every other record is unchanged; ids stay ascending and names distinct. |
| `RegistryExact.DeleteExact` | core/registration.c:413-424 | Removes the client with the URI's id and no other, and is refused without effect if and only if there is none or the URI names a resource. |
| `RegistryExact.ObserveExact` | core/observe.c:385-428 | When observing is accepted, and the code when not; it adds one observation under the lowest unused id, sends one request with the token of that id, and changes nothing else. |
| `RegistryExact.CancelExact` | core/observe.c:435-448 | Cancelling succeeds if and only if the URI is observed; it removes one such observation and nothing else. |
| `RegistryExact.CompletedExact` | core/observe.c:341-378 | The callback runs once and is told the code of the answer, 4.05 for a 2.05 without an Observe option, 5.03 at the timeout; the observation stays if and only if the answer is 2.05 with that option; if it has been freed, it is used all the same. |
| `RegistryExact.TokensDistinct` | core/observe.c:414-417 | Different id pairs have different tokens. |
| `RegistryExact.NotifyExact` | core/observe.c:454-491 | The token of a live observation runs exactly its callback with its URI; another token of a known client is answered by a reset with the same message id; anything else does nothing. |
| `RegistryRuns.EveryRunSound` | core/observe.c:289-491 | Over every run while ids last: ids ascending, names distinct; every run of a callback belongs to an earlier request of the same observation, client and URI, sent with the token of the live observation; and an observation is confirmed exactly when its request is no longer pending. `StartSound` starts the induction. |
| `RegistryRuns.SerialsDistinct` | core/observe.c:406-412 | In every reachable state no two live observations come from the same call. |
| `RegistryRuns.EveryRunCountsIds` | core/observe.c:403-417 | Over every run: the server takes message ids one after the other modulo 2^16, one for each request and for each thing else. |
| `RegistryRuns.GoneForGood` | core/observe.c:315-378 | An observation that has been removed stays unused in every run, by its callback or by what its freed memory holds, if and only if its request is no longer pending. |
| `RegistryRuns.CancelForGood` | core/observe.c:435-448 | A successful cancellation ends the observation it removes for good if and only if that observation was confirmed before the call. |
| `RegistryRuns.DeleteForGood` | core/registration.c:413-424 | A deregistration ends each observation of the client for good if and only if that observation was confirmed before. |
| `RegistryRuns.CancelledTooEarly` | core/observe.c:341-448 | The failing input: a URI is observed and cancelled before the answer, and the timeout of the request then uses the freed observation. |
| `RegistryAnswers.EveryRunAnsweredOnce` | core/observe.c:341-428 | Over every run: a request to observe is sent once and ends once or is still pending. `StartAnsweredOnce` starts the induction. |
| `RegistryRuns.StaleNotification` | core/observe.c:406-417 | Where identity by token ends: ids are used again, so a late notification for a cancelled observation runs the callback of the next one that got its id. |
| `EndpointRuns.EveryRunLinked` | core/packet.c:281-311 | Over every run of messages, steps and calls: the engine keeps its laws and the registry its own, both count alike, and a request to observe is open in the registry exactly as long as its transaction is pending, to the client it refers to. `StartLinked` starts the induction. |
| `EndpointRuns.CallbackOnce` | core/observe.c:341-428 | So in every reachable state the transaction of each request to observe has its callback run exactly as often as it has completed, by answer or last timeout: not at all while it is pending, and once after. A run on a freed observation is among those. |
| `EndpointRequests.RequestLeaves` | core/transaction.c:167-239 | A request that can be sent leaves at once, under the next message id, to the address in the record of its peer. |
| `EndpointRequests.ObservationLeaves` | core/observe.c:385-428 | And so does the request to observe, to the client observed. |
| `EndpointRequests.RegistrationLeaves` | core/registration.c:93-133 | And so does a registration, to its server. |
| `EndpointRequests.EveryRunIdsMatch` | core/transaction.c:80-131 | Over every run: the id by which a pending transaction is found is the one its message carries. `StartIdsMatch` starts the induction. |
| `EndpointDispatch.NotificationRouted` | core/packet.c:281-311 | A notification runs the callback of the observation its token names, or is reset for want of one, if and only if no transaction with its message id is pending. |
| `EndpointDispatch.NotificationTaken` | core/packet.c:100-129 | What happens to it otherwise: from the address in the record of the peer of the first such transaction it is that transaction's answer; from any other address it is nothing. |
| `EndpointDispatch.AnsweredByPeer` | core/packet.c:100-129 | For any message: a pending transaction to a client ends if and only if the message comes from the address in the record of that client, one to a server if and only if it comes from that of the server, and one to anything else never; where it does not end, transactions and registry stay as they are, and all the rest too unless the message is a reset. |
| `EndpointDispatch.CodeIgnored` | core/packet.c:306-311 | A response without a transaction runs the callback of the observation its token names, or is reset for want of one, whatever its code is. |
| `EndpointDispatch.NullCalled` | core/packet.c:124-128 | In every reachable state a transaction without a callback has one called when its peer answers. |
| `EndpointDispatch.NotificationForAnswer` | core/packet.c:299-311 | The failing input: a client's notification under the id of a request just sent to it ends that request and runs no callback of an observation. |
| `EndpointSafety.SafeInput` | core/observe.c:435-448 | As long as nothing in use has been freed, no input uses freed memory; an input leaves it that way if and only if it cancels no unconfirmed observation and deregisters no client that a transaction is pending to. |
| `EndpointSafety.CarefulRunSafe` | core/registration.c:413-424 | So a run without such a call never uses freed memory. `StartSafe` starts the induction. |
| `EndpointSafety.CallbackRunOnce` | core/observe.c:341-428 | And from the start of such a run, each request to observe that went out has the callback of its observation run exactly as often as its transaction has completed: once, or not yet. |
| `EndpointSafety.UnsafeUsed` | core/packet.c:100-129 | And after such a call one message with the id of the transaction is enough. |
| `RegistrationClient.Server.Register` | core/registration.c:93-133 | The request that is built, and the server record while it is pending. |
| `RegistrationClient.FirstDecides` | core/registration.c:48-90 | Whatever answers come in, a pending registration waits for the first that settles it, and that one alone decides: registered, with the location it carries, on a 2.01; not registered on a 4.00 with a location or on the timeout. |
| `RegistrationClient.Server.Deregister` | core/registration.c:137-154 | A request only while registered, and the record after it. |
| `RegistrationTrip.RegisterSendable` | core/registration.c:93-133 | A registration under a name without an ampersand serializes if and only if the name has at most 55 characters. |
| `RegistrationTrip.NameCut` | core/registration.c:160-183 | A name with an ampersand is cut there, and the server knows the client by what comes before. |
| `RegistrationTrip.LocationArrives` | core/registration.c:324-336 | The location put in the answer arrives joined as rd/<id>, for every id and every token of the request. |
| `RegistrationTrip.RegisterTrip` | core/registration.c:344-406 | The client's datagram makes the server's record, with the client's name, address, objects and instances. |
| `EndpointRegistration.RegisteredBy` | core/packet.c:100-129 | A pending registration becomes one in force, at the location of the message, if and only if the first transaction with the id of the message is one to that server, the message comes from that server's address, and it is an acknowledgement of the registration with 2.01 and a location. A message not taken by such a transaction changes nothing of it. |
| `EndpointRegistration.RegistrationExpires` | core/registration.c:48-90 | A step ends a pending registration if and only if a transaction to that server with a callback times out in it; no other registration changes. |
| `EndpointRegistration.RegistrationWithoutClock` | core/registration.c:119-128 | A registration for which the clock cannot be read does not become pending, and gives up the one that was. |
| `EndpointRequests.WithdrawnExact` | core/registration.c:137-154 | A deregistration ends a registration in force and that server's right to observe, takes one message id, and changes nothing else. |
| `EndpointRegistration.EveryRunSynced` | core/registration.c:48-154 | Over every run: a server may observe exactly while the client is registered with it. `StartSynced` starts the induction. |
| `RegistrationLoop.AnswerTrip` | core/packet.c:300-304 | The server's datagram arrives, is matched with the transaction of the request by its id, and leaves the client registered at its location if and only if it comes from that server's address; otherwise the registration stays pending. |
| `RegistrationTrip.DeregisterTrip` | core/registration.c:137-154 | For every id 0..65535 the deregistration datagram decodes to that id and removes exactly that record. |
| `RegistrationLoop.RegisterThenDeregister` | core/registration.c:48-431 | The whole way, through the codec each time and through the client's transaction, with any state of the registry in between: the record is made, the client takes its location from the answer, and the deregistration removes exactly that record. |
| `RegistrationTrip.RegistrationUndone` | core/registration.c:93-431 | Registering under a new name and deregistering leaves the registry exactly as it was. |
| `RegistrationTrip.DeleteWithoutId` | core/registration.c:413-424 | A datagram with a DELETE of /rd removes the client with id 0, if there is one, and is refused with 4.00 otherwise. |
| `RegistrationTrip.PostWithId` | core/registration.c:356-406 | A datagram with a POST to /rd/<id> is answered, and changes the registry, exactly as one to /rd is, for every id; for names of at most 49 characters, which fit beside the longest id. |
| `ObserveTrip.ManagementTrip` | core/transaction.c:80-131 | A management request arrives as a confirmable message with its method, its id and the URI it was made for, unless its instance id is 65535. |
| `ObserveTrip.ObserveRequestTrip` | core/observe.c:385-428 | A request to observe arrives with its URI and the token of its observation. |
| `ObserveTrip.NotificationSaid` | core/observe.c:262-279 | A notification arrives as an acknowledgement with 2.04, its id, the token of the watcher, its count modulo 2^24 and at most 128 bytes of the value. |
| `ObserveTrip.NotificationTrip` | core/packet.c:281-311 | What a client sends a watcher that holds the token of a live observation arrives and runs that observation's callback, with its URI, the watcher's count modulo 2^24 and the value, if and only if the server has no transaction pending with its id. |
| `ObserveTrip.RefusalTrip` | core/packet.c:281-311 | A notification for an observation that is no more is reset if and only if the server has no transaction pending with its id; the reset arrives, and if no other watcher of a server at that address was last sent the same id, it takes the watcher it was sent for off the client's table. |
| `ObserveLoop.ObservedTrip` | core/observe.c:155-491 | The whole way: the request lwm2m_observe makes arrives; a client that recognizes the server, is registered with it and has no watcher of it on the URI makes one with the token of the observation; a change of the value is sent to that server and arrives; and in whatever state the server then is, as long as it knows the client, the callback of the observation with that token runs with the value and count 1 if and only if it is live and no transaction is pending with the id of the notification. |
| `Blockwise.ServeExact` | core/packet.c:224-265 | Which bytes a block holds, its number, size and more bit, or 4.02. |
| `Blockwise.ServeBlock` | core/packet.c:224-265 | The branches with their variables: a Block1 option that a successful response does not answer is refused; without Block2 the response goes out as it is; a client that asks for a block is served those bytes under that number and size, with the more bit exactly when bytes are left, or 4.02 behind the end. |
| `Blockwise.WholeTrip` | core/packet.c:195-280 | The answer to a request without a block option: its datagram parses to the code and the payload of the handler and the token of the request, as an acknowledgement of its id for a confirmable one and else as a non-confirmable message with an id of its own. |
| `Blockwise.Reassembly` | core/packet.c:224-265 | The blocks 0, 1, 2, … of a payload of 1..128 bytes add up to it, for every requested size; all but the last have the more bit; the next number is answered 4.02. |
| `Blockwise.BlockRequestTrip` | externals/er-coap-13/er-coap-13.c:1170-1183 | A request for a block arrives as one, so that its offset is number times size. |
| `Blockwise.BlockArrives` | externals/er-coap-13/er-coap-13.c:1170-1183 | A served block arrives with its number, its more bit and its bytes. |
| `Tlv.CreateHeader` | core/tlv.c:43-102 | The header bytes, at the width the id and the length need (section 6.4.3 of OMA-TS-LightweightM2M-V1_0). |
| `Tlv.OpaqueToTlv` | core/tlv.c:110-123 | The whole record, or 0 and an untouched buffer exactly when it does not fit. |
| `Tlv.DecodeTlv` | core/tlv.c:181-251 | The steps over the header give `Decoded` of the bytes. |
| `Tlv.RecordInverse` | core/tlv.c:43-251 | A record decodes to its type, id and data, whatever follows it, if and only if the data is at most 0xFFFFFF bytes long. |
| `TlvInteger.FillMagnitude` | core/tlv.c:150-164 | The loop stops at the least length that leaves the sign bit free. |
| `TlvInteger.IntToTlv` | core/tlv.c:139-173 | For every int64 but the minimum: what is left in the buffer decodes to a record of that type and id whose data, at the least length, stands for the integer; 0 for a type that holds no value or a buffer that is too small. |
| `TlvInteger.OpaqueToInt` | core/tlv.c:256-276 | The integer a byte string denotes, sign bit first. |
| `TlvInteger.OnlyMinDoesNotFit` | core/tlv.c:150-164 | The loop can stop within 8 bytes if and only if the integer is not the minimum. |
| `TlvInteger.IntBytesExact` | core/tlv.c:139-173 | The data bytes of an integer denote it, no shorter length fits it with the sign bit free, and that bit is set exactly for negative ones. |
| `TlvInteger.IntOfExact` | core/tlv.c:256-276 | Data of 1 to 8 bytes and no other stands for an integer, one that fits as many bytes with its sign. |
| `TlvInteger.IntegerRoundTrip` | core/tlv.c:139-276 | The record written for an integer decodes, whatever follows, to its type and id and to data that stands for the integer. |
| `TlvForest.Decode` | tests/TLV/decode.c:88-142 | The loop with its recursion takes a buffer apart as `Dissected` says, and stops on every buffer. |
| `TlvForest.ForestRoundTrip` | tests/TLV/decode.c:88-142 | Encoding any nested forest and taking it apart gives the forest and uses every byte. |
| `TlvBuffers.FirstBuffer` | tests/TLV/decode.c:146-156 | The first buffer of the test program holds three object instances with one resource each. |
| `TlvBuffers.SecondBuffer` | tests/TLV/decode.c:147-158 | Two records of the second: a resource of nine bytes and a multiple resource with two instances. |
| `TlvBuffers.ShortRecord` | core/tlv.c:43-102 | Byte by byte: a record whose length is told in its first byte (section 6.4.3 of OMA-TS-LightweightM2M-V1_0); |
| `TlvBuffers.LongRecord` | core/tlv.c:43-102 | one whose length takes a byte; |
| `TlvBuffers.WideRecord` | core/tlv.c:43-102 | one whose length takes two or three bytes and whose id takes two. |
| `TlvForest.TwoBytesEach` | core/tlv.c:181-251 | Every record, nested ones included, takes at least two bytes. |
| `TlvForest.StopsAtGarbage` | tests/TLV/decode.c:99-141 | The loop stops exactly where no record can be decoded. |

## Left out

- IntToTlv: is stated for every int64 but the minimum, for which the loop of core/tlv.c:150-164 does not stop within its buffer; `OnlyMinDoesNotFit` proves that this is the only one.
- SerializeMessage: asks for a buffer that holds the header the message would have, since the source writes it before it measures it; an overrun there is not modelled.
- ParseMessage: where an option runs past the end of the datagram, or has a number the bitmap has no room for, the source reads or writes on beyond it; the model ends in `Overrun` there and says nothing of what C would do.
- ResetFindsSender: needs that no other watcher of a server at that address was last sent the same id, which can fail when message ids have gone round once between two notifications, or for id 0, which a watcher not yet notified holds too.
- EveryRunSound: asks, for the registry, that it has fewer than 65536 clients and each client fewer than 65536 observations; with all ids in use the source hands one out twice, as `NewIdLeastUnused` says.
- ObsRequestCallback: a callback on a freed observation is logged as such, and what it does is not modelled.
- CancelObserve: asks that no entry is without watchers, which `EveryRunSound` keeps and the source relies on when it looks at the first watcher.
- Enrol: is the turn of one server in the loop of lwm2m_register (core/registration.c:109-129); a registration with several servers is as many inputs.
- OnResponse: is stated on values; the handlers it calls are the methods of the three lists, and that these lists share no memory is not modelled.
- RegistryContext.ClientList: the observations of a client are a sequence in its record and not nodes of their own; their operations are those proved on nodes in `IntrusiveList`.
- Bytes: the source reads plain `char` in places (core/tlv.c:211-266); bytes are taken as 0..255 everywhere.
- The clock reads the same second throughout one step, and addresses do not change during it.
- The list of servers is fixed while observing, and a comparison that reads past a shorter stored address is taken as a mismatch.
- Callbacks are events of the log; one that calls back into the library is not modelled.
- Failing allocation, the lifetime of the string behind a location path, and freeing a shifted payload.
- A socket, address resolution, logging and the loops of the test programs.
- `lwm2m_stringToUri`, the object dispatch with its reads, writes, creations and deletions, simple getters and setters, query variables, the value of a Proxy-Uri, Block1 transfers, bootstrap, security and the CONTIKI variant.
- Error answers of `lwm2m_handle_packet`, which reuse the input buffer (core/packet.c:316-331).
- Floating point and text conversion of resource values.
