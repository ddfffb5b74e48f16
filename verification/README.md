# A verified model of the SOCKS5 proxy

The proxy is a single-threaded, event-driven server. One connection is a state machine that negotiates
(greeting, credentials, request), connects to the origin and then relays bytes both ways through two
fixed buffers. This project models those handlers, the selector that dispatches to them, and the small
structures underneath, and proves what they keep over every run.

Reading order:

- `Bytes.dfy`, `Buffer.dfy`, `Protocol.dfy`: bytes and C strings, the direct-access buffer, protocol constants.
- `Relay.dfy`: the COPY state. Runs are sequences of readiness events with arbitrary partial reads and
  writes, ends of file and failures.
- `Greeting.dfy`, `Auth.dfy`, `Request.dfy`: the incremental parsers, each against a parser that reads its
  message in a single pass (RFC 1928 sections 3 and 4, RFC 1929 section 2). `Reply.dfy`: the answer to a request.
- `Proxy.dfy`: all the states of one connection as a transition system. On top of it: `Pipeline.dfy` (only
  payload reaches the origin), `Capacity.dfy` (how large the buffer must be for the negotiation), `Access.dfy`
  (who gets through), `Liveness.dfy` (when a connection can still move), `Jam.dfy` (how large the buffer must be
  for requests, and runs after which nothing moves), and `Scenario.dfy`, whole runs that show what the others
  have to except.
- `Selector.dfy`, `Dispatch.dfy`, `Notify.dfy`: the descriptor table, one round of dispatch while callbacks
  change the table, and notifications from worker threads as interleaved atomic steps.
- `Node.dfy`, `List.dfy`, `Users.dfy`, `Queue.dfy`: the linked structures.
- `Parser.dfy`, `StateMachine.dfy`, `AddressWalk.dfy`: the automaton generator and interpreter, the generic
  state-machine engine, and the walk over resolved addresses.

Each handler exists twice: a function on values (`Buf`, `Greet`, `Sel`, ...) and a method of a class that
works in place. The method's contract says that it computes the function; the lemmas say what the function
means. System calls are parameters: what `recv` delivered, what `send` returned, whether an allocation
succeeded, what `connect` answered. A script gives the operations that a callback performs on the selector.
Each event of a connection carries the user table of that moment, as users may come and go during it.

Where the code departs from its documentation or from what one would expect, the model follows the code:

- The greeting stops reading at the first 0x02, so methods offered behind it are left for the next state.
  `Greetings.ConsumesItsMessageIff` says exactly when a greeting is consumed whole, and
  `Greetings.LeftoverExample` gives a greeting that is not.
- A greeting without 0x02 is answered with 0xFF and the connection goes on to the REQUEST state
  (src/server/states/greeting.c:130-132), where RFC 1928 has the client close. So it is not true that only
  authenticated clients get through: `Scenarios.GetsThroughUnauthenticated` and
  `Scenarios.RelaysUnauthenticated` give runs, and `Access.AuthenticatedIffOffered` says exactly which
  clients authenticated.
- The request's availability test counts one port byte of two (src/server/states/request.c:148).
  `Requests.DecodedExactlyWhenWhole` says exactly when a request is decoded as sent,
  `Pipelines.OnlyPayloadIsRelayed` that only payload is relayed exactly if no read caught the request with
  that one byte missing, and `Scenarios.RequestByteIsRelayed` gives a run where one did.
- The length of a name is a local variable, lost between reads (src/server/states/request.c:115-146). A name
  that arrives in pieces is misread (`Requests.TornNameConsumedIff`), and a read while a name is being resolved takes an uninitialized value
  for its length: that value is a parameter. `Scenarios.NameByteIsRelayed` gives a run,
  `Requests.ReadWhileResolving` says what such a read does.
- `CONNECTION_DONE` and `NETWORK_UNREACHABLE` are the same number (src/server/include/connection_utils.h:10,
  src/server/include/reply.h:10), so an address that connects at once is answered as an unreachable network
  (`AddressWalks.NoWalkSucceeds`). Success is only sent for a connection that was pending. That is why no
  relay is ever entered without a selector slot for the origin (`Liveness.RelayNeverStalls`): an
  address that connects at once gets none, and a relay entered so would stall (`Relays.UnregisteredStalls`).
- A client whose bytes fill its buffer with part of a message jams the connection: reading nothing leaves it as
  it is, an end of file included, and there is no timeout (src/server/states/request.c:47-64). 791 bytes keep
  every first attempt from that (`Jams.FirstAttemptCapacity`), and no size keeps all later ones
  (`Jams.RequestsJam`), as the buffer is rewound only when it empties. `Liveness.StuckExactlyWhenJammed` says
  exactly when a connection is stuck, `Liveness.EndOfFile` exactly when an end of file ends it.
- A pending connection counts as made when no error is pending on its socket, which also holds while it is still
  in progress; and as the client's descriptor is armed for writing too, that is soon asked
  (src/server/states/request.c:245, src/server/states/connect.c:17-22). So success may be replied too early.
- After a failure reply the connection returns to the REQUEST state, so bytes sent ahead are read as a new
  request. The pipelining theorem therefore speaks of a list of requests, one for each attempt.
- The walk over addresses dereferences a null pointer when the last address gets no socket
  (src/server/states/connection_utils.c:15-25). `AddressWalks.OffTheEndExactlyWhen` gives the exact condition.
- Registration grows the table only for a descriptor beyond its size, not equal to it
  (src/shared/selector.c:329). `Selectors.Selector.RegisterFd` answers `None` in exactly that case, which no
  descriptor meets when the table has the server's 1025 slots.
- A write callback gets the attachment its descriptor had before the read callback ran
  (src/shared/selector.c:460-461). `Dispatches.WriteAttachment` says exactly after which operations that
  is still the current one, and `Dispatches.StaleAttachment` gives a case where it is not.
- `stm_init` asks for `initial < max_state`, which is stricter than its message says (src/shared/stm.c:20-24).
- On arrival in COPY with data pending, only the direction towards the origin is armed, so one failed write
  ends the relay. `Relays.UnarmedOnArrival` records this.

## Model

| member | source | states |
|---|---|---|
| Bytes.StrcmpIsEquality | src/server/users.c:8-12 | the comparison of two names is 0 exactly when they are the same name |
| Bytes.StrcmpTransitive | src/server/users.c:8-12 | the comparison orders names transitively, so a list can be sorted by it |
| Buffers.Buffer.constructor | src/shared/buffer.c:16-20 | a new buffer is empty, rewound, and as large as its storage |
| Buffers.Buffer.WriteAdv | src/shared/buffer.c:38-43 | exactly the bytes stored at the write index join the unread ones; a negative count changes nothing |
| Buffers.Buffer.ReadAdv | src/shared/buffer.c:45-55 | exactly the first bytes leave, and a buffer that empties is rewound to its full capacity |
| Buffers.Buffer.Read | src/shared/buffer.c:57-66 | returns the first unread byte and consumes it; an empty buffer reads as 0 and stays as it is |
| Buffers.Buffer.Write | src/shared/buffer.c:68-73 | one byte joins the unread ones, or is lost when there is no room |
| Buffers.Buffer.Compact | src/shared/buffer.c:75-87 | the overlapping move keeps the unread bytes and frees everything in front of them |
| Buffers.DropTwice | src/shared/buffer.c:45-55 | consuming in parts is consuming at once, rewinding included |
| Relays.StreamIntegrity | src/server/states/copy.c:75-165 | over every run and in each direction, what was pending followed by what the source delivered equals what was sent followed by what is still buffered: nothing lost, repeated, reordered or mixed |
| Relays.ReadConserves | src/server/states/copy.c:75-119 | a read adds to the destination's buffer exactly what arrived and touches nothing else in either stream |
| Relays.WriteConserves | src/server/states/copy.c:121-165 | a partial write moves exactly the accepted bytes from the buffer to the stream already sent |
| Relays.ExactArming | src/server/states/copy.c:13-46 | after a transfer a source is armed for reading iff there is room, a destination for writing iff there is data, and each direction at one end at least; the transfer fails iff an endpoint has no selector slot |
| Relays.FailureSettles | src/server/states/copy.c:107-114 | an end of file or failure disarms its own direction at both ends and nothing else |
| Relays.StepKeepsHealthy | src/server/states/copy.c:75-165 | every dispatched event keeps the remembered interests equal to the armed ones, with work behind each of them, and says DONE iff both directions are down |
| Relays.NeverStallsIffRegistered | src/server/states/copy.c:13-73 | entered by the client's slot, the relay is awake at every point of every run (an event the selector can report finds work, and a direction that is not down has something armed) iff the origin has a selector slot too |
| Relays.UnregisteredStalls | src/server/states/copy.c:68-72 | without that slot, pending data is never sent as no event can come; with nothing pending one event can, which fails the relay if it brings data and else leaves it waiting for nothing |
| Relays.DoneExactlyWhenBothDown | src/server/states/copy.c:103-118 | with or without the origin's slot, the last event of a run returns DONE iff both directions met an end of file or failure since anything last moved (with data pending at arrival, the direction to the client counts as down), and ERROR iff something moved without that slot |
| Relays.Connection.CopyArrival | src/server/states/copy.c:48-73 | whatever the slots were armed for before, the buffers are swapped between the endpoints, and with data pending only the write to the origin is armed |
| Relays.CopySt.UpdateTargetInterests | src/server/states/copy.c:13-46 | both selector slots and both remembered interests become those the buffers call for; with a slot missing, the first is still set and the interests are kept |
| Relays.CopySt.CopyRead | src/server/states/copy.c:75-119 | in place, the read handler does what the relay step says, on both endpoints and both buffers |
| Relays.CopySt.CopyWrite | src/server/states/copy.c:121-165 | in place, the write handler does what the relay step says, on both endpoints and both buffers |
| Relays.Connection.Handle | src/server/states/copy.c:75-165 | an event is handled for the endpoint whose descriptor it names |
| Greetings.ReadAgrees | src/server/states/greeting.c:18-100 | one read, after any history of reads, waits, fails or chooses exactly as one pass over all the bytes so far, leaves exactly the unread bytes, and queues version and method |
| Greetings.ScanIsThrough | src/server/states/greeting.c:73-91 | the method loop chooses 0x02 iff it was offered and stops right behind its first occurrence, or reads the whole list |
| Greetings.ChunkIndependence | src/server/states/greeting.c:18-100 | for every split into non-empty chunks the outcome is the one of the single pass over their concatenation |
| Greetings.ConsumesItsMessageIff | src/server/states/greeting.c:73-91 | the chosen method is 0x02 iff offered, and exactly the greeting is consumed iff no method follows the first 0x02 |
| Greetings.LeftoverExample | src/server/states/greeting.c:76-80 | offering 0x02 before 0x00 leaves the 0x00 unread |
| Greetings.PrefixWaits | src/server/states/greeting.c:45-71 | an incomplete greeting keeps the parser waiting |
| Greetings.Greeting.Read | src/server/states/greeting.c:18-100 | in place, the handler does what the model's greeting read says, on its fields and both buffers |
| Greetings.Greeting.ScanMethods | src/server/states/greeting.c:73-85 | the loop over the offered methods finds, chooses and consumes as the recursive scan does |
| Greetings.Greeting.Write | src/server/states/greeting.c:102-133 | the answer is sent in parts, and once it is out the next state is AUTH iff password authentication was chosen, else REQUEST |
| Greetings.Greeting.Arrival | src/server/states/greeting.c:11-16 | arrival resets the stage and the method |
| Auths.ReadAgrees | src/server/states/auth.c:21-141 | one read, after any history of reads, waits, fails or completes exactly as one pass over all the bytes so far, with the same user name, password and unread rest |
| Auths.ChunkIndependence | src/server/states/auth.c:43-141 | for every split into non-empty chunks, and whatever was pipelined behind the greeting, the outcome is that of the single pass, and the connection is authenticated iff the user map holds that name with that password |
| Auths.StoredText | src/server/states/auth.c:80-83 | the stored field means the same C string as the bytes received, an embedded NUL included |
| Auths.ConsumesItsMessage | src/server/states/auth.c:43-117 | parsing inverts the encoding of credentials and leaves exactly what follows them |
| Auths.PrefixWaits | src/server/states/auth.c:59-109 | incomplete credentials keep the parser waiting |
| Auths.Auth.Read | src/server/states/auth.c:21-141 | in place, the handler does what the model's read says, on its fields, text arrays, both buffers, asking the user table |
| Auths.Auth.CopyField | src/server/states/auth.c:80-83 | the copy loop stores exactly the next buffered bytes and a NUL, consumes them, and leaves the rest of the field alone |
| Auths.Auth.CheckCredentials | src/server/states/auth.c:119-132 | the connection becomes authenticated iff the table accepts the stored name and password |
| Auths.Auth.Write | src/server/states/auth.c:143-174 | once the answer is out the next state is REQUEST if authenticated and ERROR otherwise |
| Auths.Auth.Arrival | src/server/states/auth.c:13-19 | arrival forgets any earlier authentication |
| Requests.DecodedExactlyWhenWhole | src/server/states/request.c:112-205 | with part of a request behind its header buffered, address, port and unread rest are those sent iff the whole request is there; one byte short, the port lacks its low byte and that byte is left to be relayed; shorter, it waits, having lost the length byte of a name |
| Requests.HeaderVerdict | src/server/states/request.c:62-98 | a header is refused at its first bad byte with that byte's reply code and consumed through it, else it passes |
| Requests.HeaderPasses | src/server/states/request.c:66-97 | a CONNECT header is consumed, and only it |
| Requests.AtoiDecimal | src/server/states/request.c:203-204 | reading the port text back gives the port, so the text loses nothing |
| Requests.PortFits | src/server/states/request.c:203-204 | the text of any 16-bit port fits its field with the NUL, so it is never cut |
| Requests.TornNameConsumedIff | src/server/states/request.c:134-150 | a name torn once, its request whole at the next read, is still consumed exactly iff its first byte is one less than its length, or its length with nothing behind the request |
| Requests.ReadWhileResolving | src/server/states/request.c:155-178 | a read while a name is being resolved takes up to two bytes more than the uninitialized length says, whatever they are, and asks for another resolution |
| Requests.RequestState.ReadRequest | src/server/states/request.c:39-101 | in place and in every stage, the handler with its two receives does what the model's request read says |
| Requests.RequestState.ReadHeader | src/server/states/request.c:66-97 | the header is taken from the buffer byte by byte with the outcome the model gives |
| Requests.RequestState.ResolveAddress | src/server/states/request.c:112-192 | length, availability test, address and port are taken from the buffer as the model says, for all three address types |
| Requests.RequestState.GetAddress | src/server/states/request.c:258-265 | the byte loop stores exactly the next address bytes and consumes them |
| Requests.RequestState.GetPort | src/server/states/request.c:199-205 | the stored text reads back as the two port bytes, high byte first |
| Replies.AnnounceIsInOrder | src/server/states/reply.c:11-56 | with room for it, an answer queues version, code, reserved byte and the bound address behind what was pending, in order |
| Replies.Reply.Arrival | src/server/states/reply.c:11-56 | in place, arrival queues the answer, and remembers whether the address could be had |
| Replies.Reply.Write | src/server/states/reply.c:58-90 | in place, the answer goes out in parts, a failed send only delaying it, and then leads to COPY iff the code is success, else back to REQUEST; without an address it is an error |
| Proxies.Step | src/server/socks5nio.c:20-61 | no handler of any state takes back client input, returns to the negotiation, disarms a negotiating client, or breaks the order of the buffer that is sent to it |
| Pipelines.OnlyPayloadIsRelayed | src/server/states/request.c:39-205 | a client sends greeting, credentials, requests and payload in one stream, cut anywhere, except that no name is torn; if no read caught a request one byte short, what reaches the origin after the k-th attempt is a prefix of what was sent behind the k-th request; and with the earlier requests not caught so, what is relayed is what came behind the k-th iff it was not caught so either |
| Pipelines.StepKeeps | src/server/socks5nio.c:144-160 | every handler of every state consumes exactly its own message or nothing |
| Pipelines.GreetingReadKeeps | src/server/states/greeting.c:18-100 | on a prefix of the stream, the greeting is consumed exactly and chooses password authentication |
| Pipelines.AuthReadKeeps | src/server/states/auth.c:21-141 | on a prefix of the stream, the credentials are consumed exactly, accepted or not |
| Pipelines.RequestReadKeeps | src/server/states/request.c:39-197 | a request read that tears no name consumes nothing, the header, or exactly what is there of the request, which lacks its last byte iff the read came one byte short |
| Pipelines.ReplyWriteKeeps | src/server/states/reply.c:58-90 | replying consumes no client bytes, whether it leads to the relay or back to REQUEST |
| Pipelines.CopyKeeps | src/server/states/copy.c:75-165 | relaying keeps what was sent to the origin and what waits for it equal to the client's bytes behind the request |
| Capacity.ExactCapacity | src/shared/buffer.c:45-55 | after every handshake read that waits for more there is room to receive it, for all messages and all chunkings, iff the buffer holds at least 770 bytes |
| Capacity.TooSmallForCredentials | src/server/states/auth.c:75-109 | for every capacity from 257 to 769 some run leaves the credentials waiting with a full buffer |
| Capacity.TooSmallForGreeting | src/server/states/greeting.c:66-71 | for every smaller capacity some run leaves the greeting waiting with a full buffer |
| Capacity.ServerBuffersSuffice | src/server/include/defines.h:17-19 | the default size of 1024 bytes suffices |
| Access.AuthenticatedIffOffered | src/server/states/auth.c:119-173 | over every run, a connection past the negotiation sent a whole greeting, and was authenticated iff 0x02 is among the methods it offers; if so, with the credentials it sent behind the greeting, which the user map held at that instant; the relay starts only after a success reply was sent whole |
| Scenarios.GetsThroughUnauthenticated | src/server/states/greeting.c:124-132 | every greeting without 0x02 leads to the REQUEST state without authentication |
| Scenarios.RelaysUnauthenticated | src/server/states/greeting.c:124-132 | and there is a run from such a greeting to the relay |
| Scenarios.RequestByteIsRelayed | src/server/states/request.c:148-150 | for every port, a run that ends its read one byte before the request does relays that byte, though no payload was sent |
| Scenarios.NameByteIsRelayed | src/server/states/request.c:134-150 | for every port, a run that tears a name relays a byte of the request, though no payload was sent |
| Access.AuthHandledKeeps | src/server/states/auth.c:119-141 | a read that agrees with the single pass authenticates iff the credentials are whole and the table accepts them, and then awaits the answer being sent |
| Liveness.StuckExactlyWhenJammed | src/server/states/request.c:47-64 | over every run, a connection that has not ended can still be changed by calls that do not fail, iff its client's buffer is not full of part of a message; jammed in REQUEST, not even failing calls change it |
| Liveness.RelayNeverStalls | src/server/states/copy.c:13-73 | over every run, a relay is entered only with slots for both endpoints, every event it asks for finds work, and one can come |
| Liveness.EndOfFile | src/server/states/request.c:58-64 | an end of file ends GREETING, AUTH and REQUEST as DONE iff nothing of a message is buffered, or only a request's header, and changes nothing in the middle of a message |
| Jams.FirstAttemptCapacity | src/server/states/request.c:43-150 | up to its first attempt no connection is ever stuck, for all messages, chunkings and outcomes, iff the buffer holds at least 791 bytes |
| Jams.RequestsJam | src/server/states/request.c:47-64 | for every capacity from 5 on, some run leaves the connection in REQUEST with two bytes of a request and a full buffer, where no event changes anything |
| Jams.NoCapacitySuffices | src/shared/buffer.c:45-55 | for every capacity some run leaves a connection that has not ended and that nothing moves |
| Liveness.ConnectKeeps | src/server/states/connect.c:11-101 | a success is replied, and sent, only with a selector slot for the origin |
| Selectors.RunRefinesMap | src/shared/selector.c:319-433 | over every sequence of operations the statuses and the table are those of a finite map, the bitmaps hold exactly the registered descriptors with that interest, the maximum is the greatest registered one, and every armed descriptor is within the range given to select |
| Selectors.StepRefines | src/shared/selector.c:199-225 | one operation keeps slots, bitmaps and maximum consistent and does to the table what it does to a map |
| Selectors.MaxFdIsMax | src/shared/selector.c:199-210 | the scan returns the greatest descriptor in use, or 0 |
| Selectors.LeastPowerIs | src/shared/selector.c:166-181 | where the doubling stops is the smallest power of two strictly above the size |
| Selectors.GrowthKeeps | src/shared/selector.c:253-269 | a table with unused slots added means the same, whatever else those slots hold |
| Selectors.Selector.constructor | src/shared/selector.c:275-291 | a new selector has room for the asked descriptors, none registered, and is consistent |
| Selectors.Selector.NextCapacity | src/shared/selector.c:166-181 | the loop returns the smallest power of two strictly above its argument, capped at 1024, plus one |
| Selectors.Selector.EnsureCapacity | src/shared/selector.c:232-273 | success means the descriptor has a slot; nothing shrinks, every old slot is kept, every new one is unused, and a failure changes nothing |
| Selectors.Selector.ItemsMaxFd | src/shared/selector.c:199-210 | the loop computes the scan of the model |
| Selectors.Selector.UpdateFdSet | src/shared/selector.c:212-225 | the bits of one descriptor become those of its interest and no other bit changes |
| Selectors.Selector.RegisterFd | src/shared/selector.c:319-356 | registration does what it does on a map, growing the table if it must, and keeps the selector consistent; a valid registration has no slot to go to iff the descriptor equals the size of the table |
| Selectors.Selector.UnregisterFd | src/shared/selector.c:358-390 | the close callback runs first, and then slot, bits and maximum become those of the table it left without the descriptor; there is no slot to clear iff the callback removed the registration itself |
| Selectors.Selector.UnregisterFdWithoutClosing | src/shared/selector.c:392-415 | the slot, its bits and the maximum become those of the table without the descriptor |
| Selectors.Selector.SetInterestFd | src/shared/selector.c:417-433 | the slot and its bits take the new interest; an unused slot is refused |
| Dispatches.EveryCallIsJustified | src/shared/selector.c:451-482 | whatever callbacks do to the table, each runs for a descriptor in the snapshot that is at that instant registered with that interest and that handler, and a read callback gets the current attachment |
| Dispatches.CallsAreOrdered | src/shared/selector.c:457-481 | callbacks run in descriptor order, read before write, so at most once each |
| Dispatches.TurnDoesWhatIsDue | src/shared/selector.c:457-481 | at its turn a descriptor's callback runs iff it was reported and is then registered with that interest, the write half being judged after the read callback |
| Dispatches.RoundDoesWhatIsDue | src/shared/selector.c:451-482 | in a whole round a descriptor's callback runs iff it is due at its turn and the descriptor is not beyond the greatest at the start |
| Dispatches.WriteAttachment | src/shared/selector.c:460-478 | a write callback gets the attachment of the turn's start; it is the current one iff the read callback's operations, followed one by one, lead from it back to it |
| Dispatches.AttachmentIs | src/shared/selector.c:319-433 | following only its own registrations and removals through a list of operations gives a descriptor's attachment |
| Dispatches.StaleAttachment | src/shared/selector.c:460-478 | a read callback that registers its descriptor anew makes the write callback get the old attachment |
| Dispatches.RunKeepsSilent | src/shared/selector.c:381-386 | a slot freed by a callback asks for nothing, even after any further operations |
| Dispatches.HandleIteration | src/shared/selector.c:451-482 | in place, the loop runs exactly the callbacks of the model's round and leaves its table |
| Notifications.NothingLostOrRepeated | src/shared/selector.c:484-529 | over every interleaving of workers and loop, each pushed notification is delivered, discarded or pending exactly once, and it is delivered iff its descriptor was registered at its turn |
| Notifications.EveryCallIsAccountedFor | src/shared/selector.c:506-529 | from a selector nobody has notified yet, what was pushed are exactly the calls that workers made and that are no longer on their way, each with its own descriptor, and of each of them the same holds |
| Notifications.StepKeepsExclusive | src/shared/selector.c:488-522 | only the lock's owner is in the critical section, and the list it linked to is still the current one when it publishes |
| Notifications.StepConserves | src/shared/selector.c:484-529 | every atomic step keeps pushed equal to delivered, discarded and pending together |
| Notifications.DrainedIsARun | src/shared/selector.c:484-504 | a whole drain is a sequence of the loop's own steps under its lock |
| Notifications.JobList.HandleBlockNotifications | src/shared/selector.c:484-504 | walking the links, the drain gives every job its turn, calls the handlers the model calls, and empties the list |
| Notifications.JobList.NotifyBlock | src/shared/selector.c:510-522 | linking the new node through the head and publishing it are the model's two atomic steps of the worker that owns the lock, and the linked list stays the shared list of the model |
| Lists.InsertedIsSorted | src/shared/list.c:40-78 | inserting keeps the list strictly sorted under any antisymmetric and transitive comparison |
| Lists.WithoutIsSorted | src/shared/list.c:80-105 | removing keeps the list strictly sorted |
| Lists.List.Add | src/shared/list.c:40-78 | relinking inserts before the first larger element, or nothing if an equal one is there, with size and links consistent |
| Lists.List.Remove | src/shared/list.c:80-105 | relinking removes the first equal element, if any, with size and links consistent |
| Users.RunRefinesMap | src/server/users.c:29-114 | over any sequence of operations the list stays strictly sorted and every status is the one a finite map from names to password and role gives |
| Users.StartRefinesMap | src/server/users.c:15-27 | the same from the table the server starts with |
| Users.StepRefines | src/server/users.c:50-114 | one operation on the list does what it does on the map, with the same status |
| Users.StandsIsFunctional | src/server/users.c:29-39 | a list stands for one map only |
| Users.UserCmpIsOrder | src/server/users.c:8-12 | the comparison of users is an order, as the list needs |
| Users.UserTable.constructor | src/server/users.c:15-27 | the table starts with the administrator and nobody else |
| Users.UserTable.GetIfExists | src/server/users.c:29-39 | the iteration finds the node that holds the name, or null |
| Users.UserTable.CreateUser | src/server/users.c:50-72 | creation refuses texts of 255 bytes or more, then existing names, and else inserts; only a new administrator is counted |
| Users.UserTable.RemoveUser | src/server/users.c:74-82 | the named user is removed, or the name is refused |
| Users.UserTable.ChangeUserRole | src/server/users.c:95-102 | the write through the returned pointer changes that user's role and nothing else |
| Users.UserTable.AuthenticateUser | src/server/users.c:105-114 | unknown names, wrong passwords and accepted pairs are told apart, and the table is not changed |
| Queues.RunConserves | src/shared/queue.c:46-90 | over any run, what left followed by what is inside equals what was inside followed by what was enqueued, in order, and a capacity is never exceeded |
| Queues.KeepsTheNewest | src/shared/queue.c:46-73 | however many elements are enqueued, a bounded queue then holds the newest ones, in order, as many as fit |
| Queues.Queue.Enqueue | src/shared/queue.c:46-73 | relinking through the tail pointer appends the element, dropping the oldest if full; the tail pointer denotes the last node |
| Queues.Queue.Dequeue | src/shared/queue.c:75-90 | the oldest element is returned and unlinked, and emptying the queue clears both pointers |
| Queues.Queue.Peek | src/shared/queue.c:92-98 | the oldest element is returned and nothing changes |
| Parsers.ComparerIsCorrect | src/shared/parser_utils.c:70-130 | the last event on a non-empty input is EQ iff it is the text ignoring case, MAYEQ iff it is a proper prefix of it, and after NEQ only NEQ follows |
| Parsers.ComparerReaches | src/shared/parser.c:43-73 | the state reached counts the bytes that agree, or is the failure state |
| Parsers.CaseMatch | src/shared/parser_utils.c:97-102 | a byte matches one of the two conditions of a state iff it is the text's byte ignoring case |
| Parsers.Strcmpi | src/shared/parser_utils.c:70-130 | the arrays filled by the generator hold exactly the automaton, three slots per state |
| Parsers.Automaton.FeedByte | src/shared/parser.c:43-73 | the loop takes the first matching transition, runs its actions and moves, or changes nothing when none matches |
| Parsers.Automaton.constructor | src/shared/parser.c:30-39 | a parser begins in the start state of its definition |
| Parsers.Automaton.Reset | src/shared/parser.c:41 | only the state goes back to the start |
| Parsers.ResetComparesAnew | src/shared/parser.c:41 | whatever it was fed before, a parser put back to its start compares the next input as a fresh one does |
| StateMachines.RunIsProper | src/shared/stm.c:12-97 | over every run of an accepted machine, arrivals and departures alternate, each handler runs between its state's arrival and departure, no visit follows one to the same state, callbacks run exactly where defined, and the reported state is the one last arrived at |
| StateMachines.SelfAnswersNeverLeave | src/shared/stm.c:36-50 | however long a state answers itself, it is never left: handlers run, and neither departure nor arrival |
| StateMachines.Engine.Init | src/shared/stm.c:12-25 | initialization accepts exactly tables in order whose initial state is below the last |
| StateMachines.Engine.HandleEvent | src/shared/stm.c:52-83 | in place, an event arrives at the initial state if needed, runs the handler, and jumps, in that order |
| StateMachines.Engine.CurrentState | src/shared/stm.c:91-97 | the reported state is the current one, or the initial one before any event |
| AddressWalks.AttemptsAreAPrefix | src/server/states/connect.c:22-57 | from the first call through every retry, with sockets coming up, the addresses tried are a prefix of the resolution list in order and once each, and retries are fewer than the addresses |
| AddressWalks.WalkKeepsOrder | src/server/states/connection_utils.c:9-69 | with any failures, the addresses passed and those left always make up the whole list, and the walk never gets longer |
| AddressWalks.OffTheEndExactlyWhen | src/server/states/connection_utils.c:14-43 | the walk runs off the list iff the last address gets no usable socket and no earlier one ends the walk |
| AddressWalks.SlotExactlyWhenPending | src/server/states/connection_utils.c:27-43 | after a walk the origin has a selector slot iff a connection is in progress, and an open descriptor iff the walk stayed on the list |
| AddressWalks.NoWalkSucceeds | src/server/states/request.c:217-255 | no walk is answered as a success, an immediate connection like an unreachable network, and only a connection in progress goes unanswered |
| AddressWalks.SuccessMeansSlot | src/server/states/connect.c:17-100 | in the CONNECT state success is replied iff no error is pending on the socket, which then keeps its descriptor and slot, or if the last address broke with one of four errors, which leaves neither |
| AddressWalks.RunKeeps | src/server/states/connect.c:17-57 | each retry takes at least one address from those left |
| AddressWalks.Origin.TryConnection | src/server/states/connection_utils.c:9-61 | in place, the recursion ends as the model's walk does, with the descriptor and the selector slot it leaves |
| AddressWalks.Origin.ConnectToDest | src/server/states/request.c:207-255 | in place, the walk is begun if there is an address; reply code, descriptor, slot and both interests are those of the model |
| AddressWalks.Origin.ConnectWrite | src/server/states/connect.c:11-101 | in place, a broken connection is closed and moves on to the next address if there is one, and else answers; reply code, descriptor, slot and both interests are those of the model |

## Left out

- Sockets, `select`, signals, threads, name resolution, text forms of addresses, shutdown and logging: system calls are parameters, addresses are raw bytes.
- One class for the whole connection: every state's handlers work in place on their own fields and the two buffers, and the states are put together on values. What this does not capture is that some of the fields overlap in memory; no state reads what another left in the overlap.
- Pipelines.OnlyPayloadIsRelayed: where names are requested, assumes that no read tears one, because the code does not keep the claim otherwise; and claims nothing of attempts beyond those planned, where payload is read as a request, or behind a request caught short.
- Requests that give a name and arrive in pieces: what one read does with them is stated, and one run; not what any number of reads do.
- What follows a walk off the end of its list: a connection's run goes on only from walks that return.
- Events of an origin whose pending error could not be asked for: its slot stays armed for writing, so they reach the handlers of REPLY, and in REQUEST an assertion of the state machine.
- A resolution that finishes when the connection is past the REQUEST state, which the state machine refuses with an assertion.
- Delivery of everything buffered before the relay closes: an end of file disarms the destination at once, so only prefixes are claimed.
- Selectors.Selector.UnregisterFd: does not say what happens when the close callback removes its own registration, because the code then works with the descriptor -1; the connection's own callback, which does that at shutdown, is not modelled.
- Selectors.Selector.RegisterFd: does not say what happens for a descriptor equal to the size of the table, because the code then writes past it.
- Dispatch on tables smaller than 1024 slots, where a callback could reallocate the table under the loop.
- Byte classes of the parser, whose table is one entry short of the documented 256: the generated automata use none, and the model takes 256 zeros.
- Changing a password, which keeps the tail of a longer old one, and what the count of administrators is good for.
- Allocation failure in lists, queues, notifications and resolutions; stale iterators.
- The PAM management protocol, the management client, command-line parsing, metrics, the log formatter and server start-up.
