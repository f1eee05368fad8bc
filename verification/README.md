# Verified models of the repository's hard parts

A Dafny 4.11 project beside the repository: it models the middleware, the concurrent protocols, the
CAN mechanisms and the data structures, and proves what their code and headers promise. Where the
code breaks a promise, the project shows the failing case and states exactly when it holds.

Check everything with `dafny verify dfyconfig.toml`.

## The parts

**RPC over SOME/IP.** `Bytes`, `SomeIp`, `Sd` and `SdRoundTrip` are the two codecs (AUTOSAR
PRS_SOMEIPProtocol section 4.1.2; AUTOSAR PRS_SOMEIPServiceDiscoveryProtocol section 4.1.2, R19-11
numbering): a specification, the byte loops proved against it, and round trips both ways; `SomeIp` and
`SdLayout` also say byte by byte, in plain arithmetic, what is written and what is read. `ProxySpec`
says on values what the client does; `ProxyObject` is the object with its table, queue and counters,
each method proved to do that. A handler is a script of actions (call again, destroy the proxy) chosen
freely per call. `ProxyLedger` and `ProxyContract` prove the five numbered promises of proxy.hpp,
`ProxyMoments` the first of them at every moment inside an event at which a handler starts.
`ProxyDecisions` says which calls are refused and for what, `ProxyOutcomes` what their handlers are told
and what the counters count, `ProxyHandlers` that each handler acts at once, `TakenSession` when a session
id is taken.
`Skeleton` is the server's answer; `RpcSystem` puts both over a network whose history may be replayed
in any order and any number of times, so loss, duplication, delay and reordering are included, and
`StaleReply` shows that its one assumption cannot be weakened. `Registry`, `OfferedEndpoint`,
`RuntimeSpec`, `RuntimeObject`, `RuntimeRuns`, `RuntimeLeases` and `Availability` are discovery: leases, the
endpoint a client uses, polling, what runs in which order, what is held, and what an open proxy believes.

**Concurrent protocols.** Each atomic or locked action is one step and threads interleave freely.
`RingIndex`, `SpscProtocol` and `SpscRing` cover both single-producer rings in one model: an acquire load
may return any earlier value not older than the last one seen, counters wrap at 2^64, and slots are
masked or reduced modulo; `SpscWrap` is what the wrap does to the latter. `SharedOwnership` and `SharedPointer` are the control block, with threads in
the middle of releases and locks and an object that owns weak pointers to itself. `SemaphoreQueue` and
`SemaphoreQueueRuns` are the queue on two semaphores with its shutdown relay, `SemaphoreMaximum` the
declared maximum of its tokens. `ThreadPool` models the
condition variable so that a notification nobody waits for is lost. `ConcQueue`, `CockpitPipeline` and
`CockpitRuns` are the cockpit's queue, its three threads and its ordered shutdown. The objects in these
modules have methods that are whole calls, proved to be runs of the protocol's steps.

**CAN.** `ArbitrationBits`, `Arbitration` and `ArbitrationOutcome` (section 3.2.1, Part B, of the Bosch
CAN Specification 2.0); `FaultConfinement` (section 8, Part B); `ValueBits`, `SignalBits` and
`SignalPacking` for signals in both byte orders, `SignalBytes` for what whole bytes are worth; `CanFrame`,
`Tunnel`, `TunnelLayout` and `SequenceTracking`.

**Data structures and algorithms.** `AvlTrees` and `AvlMap`; `InternalPages`, `LeafPages` and `BPlusTree`,
with pages edited in place; `ProbeTable` and `HashTable`; `Recency` and `LruCache`, with real linked nodes;
`TaskSchedule`, `TaskCounts`, `TaskScheduler` and `TaskRun` for the optimal schedule; `ReplacementWindow`;
`Reordering` and `RescueBoats`.

## What the proofs found

- Arbitration stops at the shortest field even after that frame has lost, so a standard frame and two
  extended frames of one lower base end with two different winners, against the comment at
  automotive/libs/av_can/src/arbitration.cpp:93-97. `ArbitrationOutcome.TiesAreIdenticalExactly` says when.
- The hash map's insert stops at a tombstone and can store a key twice; erasing it then brings the old
  value back. `HashTable.HashMap.Insert` says exactly when an insertion is a map update.
- A proxy opened while its service is known is greeted on the next poll without asking the registry
  again. `Availability.ProxiesAgree` says exactly which proxies disagree with the registry.
- The cockpit counts an overwrite even if there was nothing left to pop, so its report can fail to
  balance although nothing was lost. `CockpitRuns.ReportBalancesExactly` says when.
- An unknown SD option decodes to a default-constructed option, whose type is that of an IPv4 endpoint.
  It keeps its place in the list, as intended, but the registry takes it for the method endpoint.
  `OfferedEndpoint.UsableExactly` says which offers still name a usable one.
- The queue on two semaphores can release more tokens than the semaphore's declared maximum: a close of
  a full queue does, a push overtaken by a close can, and every further close adds one.
  `SemaphoreMaximum.ReleaseOverflowsExactly` says when a release does, `SemaphoreMaximum.OneCloseExceedsExactly`
  when a run with one close ever does. Producers that wait at a full queue stay blocked.
- The shared-memory ring reduces its counters modulo any capacity. Unless the capacity divides 2^64 it
  comes to overwrite an unread element when the counters wrap (`SpscWrap.WrapIsHarmlessExactly`).
- A call finds its session id taken whenever a waiting call took its own 65535 ids before, even if that is
  the only one waiting, against the comment at automotive/libs/av_mw/src/proxy.cpp:187-189. The check there
  is therefore needed (`TakenSession.TakenExactly`).
- A reply that arrives 65535 session ids late is taken for the answer to another call (`StaleReply`).

## Model

| member | source | states |
|---|---|---|
| SomeIp.SerializeInto | automotive/libs/av_service/src/someip.cpp:60-93 | the byte-appending encoder puts every field at its place, high byte first, refuses exactly the payloads whose length does not fit the Length field, and leaves the output empty then |
| SomeIp.SerializedOnWire | automotive/libs/av_service/src/someip.cpp:60-93 | the datagram byte by byte: each 16-bit field as 256 times its first byte plus the second, the length bytes counting 8 + payload, protocol version 1, the five type bytes, and exactly when there is one |
| SomeIp.ReadExactlyFromTheWire | automotive/libs/av_service/src/someip.cpp:95-143 | a datagram is read as a message if and only if its bytes are, field by field, those of that message |
| SomeIp.RoundTrip | automotive/libs/av_service/src/someip.cpp:60-143 | decoding a serialised message gives back every header field and the payload |
| SomeIp.Reserialise | automotive/libs/av_service/src/someip.cpp:95-143 | every accepted datagram re-serialises to the same bytes, so no two accepted datagrams mean the same |
| SomeIp.AcceptedExactlyWhenProduced | automotive/libs/av_service/src/someip.cpp:60-143 | a datagram is accepted if and only if it is an output of the serialiser |
| SomeIp.SessionCounter.Next | automotive/libs/av_service/src/someip.cpp:145-155 | each id is the next term of the sequence 1..0xFFFF that starts again at 1 |
| SomeIp.SessionsRepeatEvery65535 | automotive/libs/av_service/src/someip.cpp:145-155 | no id is 0, and two calls get the same id exactly when they are a multiple of 65535 apart |
| Bytes.U16Codec | automotive/libs/av_service/src/someip.cpp:19-34 | two bytes are those written for a value if and only if the value is 256 times the first plus the second, and that is what the reader finds |
| Bytes.U32Codec | automotive/libs/av_service/src/someip.cpp:24-40 | the same for four bytes, high byte first |
| Bytes.U24Codec | automotive/libs/av_service/src/sd.cpp:79-88 | the same for the three-byte TTL |
| Sd.AppendOptions | automotive/libs/av_service/src/sd.cpp:130-162 | appending one entry's options extends the shared array by exactly their encodings, or reports an address that is not IPv4 |
| Sd.IndexableStep | automotive/libs/av_service/src/sd.cpp:248-306 | one more entry can be indexed exactly while it has at most 15 options and all entries together at most 255 |
| Sd.SerializeInto | automotive/libs/av_service/src/sd.cpp:248-306 | the one-pass encoder writes exactly the message `Serialize` describes, and fails on exactly the messages that have none |
| Sd.ParseOptionsLoop | automotive/libs/av_service/src/sd.cpp:170-208 | the option loop computes `ParseOptions`: the decoded list, or rejection of a truncated or overlong array |
| Sd.ParseEntriesLoop | automotive/libs/av_service/src/sd.cpp:210-242 | the entry loop keeps exactly the entries `ParseEntry` accepts, in order |
| Sd.ParsePayloadLoop | automotive/libs/av_service/src/sd.cpp:308-349 | the payload decoder computes `ParsePayload`, including every length check |
| SdRoundTrip.UnknownOptionsKeepTheirPlace | automotive/libs/av_service/src/sd.cpp:170-208 | for any array of well-formed options, known or not, element i of the decoded list is the meaning of option i: an unknown option never shifts another one's index |
| SdRoundTrip.AcceptedArrays | automotive/libs/av_service/src/sd.cpp:170-208 | the accepted option arrays are exactly the concatenations of well-formed options |
| SdRoundTrip.OptionsRoundTrip | automotive/libs/av_service/src/sd.cpp:130-208 | a serialised option list parses to itself |
| SdRoundTrip.EntryRoundTrip | automotive/libs/av_service/src/sd.cpp:210-242 | an entry reads back with its own slice of the shared options, wherever that slice lies |
| SdRoundTrip.EntriesRoundTrip | automotive/libs/av_service/src/sd.cpp:210-306 | all entries of a message read back in order, each with its own options |
| SdRoundTrip.PayloadRoundTrip | automotive/libs/av_service/src/sd.cpp:248-349 | the whole SD payload parses to the message in canonical form |
| SdRoundTrip.MessageRoundTrip | automotive/libs/av_service/src/sd.cpp:248-349 | for every message that can be sent, SOME/IP and SD decoding give it back with its session id; fields that are not on the wire come back at their defaults and TTLs cut to 24 bits |
| SdRoundTrip.SerializeRefuses | automotive/libs/av_service/src/sd.cpp:248-306 | a message is refused exactly when it cannot be indexed or is too long for the length field |
| SdLayout.MessageOnWire | automotive/libs/av_service/src/sd.cpp:130-306 | the bytes of every message that can be sent, and exactly when it can: service 0xFFFF, method 0x8100, the flag bits, both array lengths, for every entry its type byte, index, count, ids, version, three-byte TTL and last field, for every option its length 9, type byte, address, protocol and port |
| SdLayout.FrontOptionReads | automotive/libs/av_service/src/sd.cpp:170-208 | exactly when an option is accepted, how many bytes it takes, and what its bytes mean |
| SdLayout.EntryReads | automotive/libs/av_service/src/sd.cpp:210-242 | exactly when an entry is kept, and what its bytes mean, field by field |
| SdLayout.PayloadReads | automotive/libs/av_service/src/sd.cpp:308-349 | exactly when a payload is accepted: its two arrays fill it, with whole entries and well-formed options; and what the flag bits mean |
| ProxyObject.Proxy.constructor | automotive/libs/av_mw/src/proxy.cpp:91-121 | a new proxy is the start state of the specification |
| ProxyObject.Proxy.PostFailure | automotive/libs/av_mw/src/proxy.cpp:210-221 | queues the failure for the next poll and completes nothing |
| ProxyObject.Proxy.Call | automotive/libs/av_mw/src/proxy.cpp:158-208 | a call is queued as not available, busy or malformed exactly if it is refused for that; otherwise, and only then, its request leaves and it waits; no handler starts |
| ProxyObject.Proxy.Transmit | automotive/libs/av_mw/src/proxy.cpp:183-208 | the part after a session id is taken: serialise, send, and enter the table or queue the failure |
| ProxyObject.Proxy.Close | automotive/libs/av_mw/src/proxy.cpp:122-138 | cancels: the table is emptied and nothing completes |
| ProxyObject.Proxy.Take | automotive/libs/av_mw/src/proxy.cpp:223-233 | removes and returns the waiting call of a session, if there is one |
| ProxyObject.Proxy.Perform | automotive/libs/av_mw/include/av/mw/proxy.hpp:33-36 | what a handler does to the proxy -- further calls, destruction -- one action after the other |
| ProxyObject.Proxy.RunHandler | automotive/libs/av_mw/src/proxy.cpp:248-306 | a completed call leaves its record before its handler acts |
| ProxyObject.Proxy.OnReply | automotive/libs/av_mw/src/proxy.cpp:248-282 | the waiting call that a reply finds is handed the server's code for an error, a refusal for another version, else the payload, and its handler acts; a reply that finds none is counted as late; anything else changes nothing |
| ProxyObject.Proxy.Complete | automotive/libs/av_mw/src/proxy.cpp:262-282 | the part after the call is taken: which outcome, and which counter |
| ProxyObject.Proxy.ReadReplies | automotive/libs/av_mw/src/proxy.cpp:235-246 | the reading loop stops when a handler destroys the proxy |
| ProxyObject.Proxy.FailListed | automotive/libs/av_mw/src/proxy.cpp:284-329 | the loop over a copied list of sessions fails each that still waits, whatever the handlers do in between |
| ProxyObject.Proxy.CheckTimeouts | automotive/libs/av_mw/src/proxy.cpp:284-306 | a tick fails the expired calls as `CheckTimeouts` says |
| ProxyObject.Proxy.FailAll | automotive/libs/av_mw/src/proxy.cpp:308-329 | fails every waiting call |
| ProxyObject.Proxy.OnAvailabilityChanged | automotive/libs/av_mw/src/proxy.cpp:331-352 | a change of availability, with its counters, its failures and the application's listener |
| ProxyObject.Proxy.RunPosted | automotive/libs/av_mw/src/runtime.cpp:155-167 | the queue is swapped out first; what a task posts runs in the next poll |
| ProxyDecisions.CallDecides | automotive/libs/av_mw/src/proxy.cpp:158-208 | for every state and request: not available if the service is away or nobody knows where it is, or if the socket refuses; busy if max_pending calls wait or the next session id is taken; malformed if the length field cannot count it; else the request leaves, for the fixed endpoint if there is one and else the discovered one, with these bytes, and the call waits under the next session id from now on |
| ProxyOutcomes.WhatHandlersAreTold | automotive/libs/av_mw/src/proxy.cpp:158-329 | over every run and all handlers: a refused call's handler is told that refusal with code 0 and nothing else; a call whose request left is answered or fails as remote, of another version, timed out or not available; only the server's error carries a code |
| ProxyOutcomes.CountersCount | automotive/libs/av_mw/src/proxy.cpp:158-352 | after every run each counter is the number of calls whose handlers were told that outcome, or will be on the next poll, or would have been without destruction; every request that left is its call's own, and no call was sent twice: there is no retry |
| ProxyHandlers.ReplyCompletes | automotive/libs/av_mw/src/proxy.cpp:235-282 | by the bytes of the datagram: the call waiting under bytes 10 and 11 gets type 0x81 as the server's error with byte 15, type 0x80 of another version in byte 13 as refused, any other type 0x80 as the bytes from 16 on; else nothing completes |
| ProxyHandlers.RepliesInTurn | automotive/libs/av_mw/src/proxy.cpp:235-246 | datagrams are read one after the other, unreadable ones skipped, until a handler destroys the proxy |
| ProxyHandlers.ActCarriesOut | automotive/libs/av_mw/include/av/mw/proxy.hpp:33-36 | a handler's actions are carried out in order, each once, up to one that destroys the proxy |
| ProxyHandlers.StepIsHandled | automotive/libs/av_mw/src/proxy.cpp:235-352 | what the application does in one event is exactly this: each handler of the calls that complete, in their order, with all its actions before the next; and on a change of availability, which is made and counted first, the listener |
| ProxyHandlers.RunStaysLinked | automotive/libs/av_mw/src/proxy.cpp:158-352 | over every run exactly the calls that were made by somebody are on record, in that order |
| TakenSession.TakenExactly | automotive/libs/av_mw/src/proxy.cpp:187-194 | after every run the next call finds its session id taken if and only if some waiting call took its own a multiple of 65535 ids before, however few calls wait |
| TakenSession.OneWaitingCallIsEnough | automotive/libs/av_mw/src/proxy.cpp:187-194 | against the comment there: a run with one waiting call and room in the table in which the next call is refused as busy |
| ProxyLedger.CallKeepsLedger | automotive/libs/av_mw/src/proxy.cpp:158-221 | a call adds exactly one entry, to the table or to the queue, is counted once, and completes nothing: no handler runs inside `call()` |
| ProxyLedger.CloseKeepsLedger | automotive/libs/av_mw/src/proxy.cpp:122-138 | destroying the proxy cancels exactly the waiting calls, by name, and keeps the books |
| ProxyLedger.ActKeepsLedger | automotive/libs/av_mw/include/av/mw/proxy.hpp:33-36 | nothing a handler does completes a call or touches another waiting call, even if it calls again or destroys the proxy |
| ProxyLedger.TakeKeepsLedger | automotive/libs/av_mw/src/proxy.cpp:223-233 | moving a call from the table to the completed ones keeps every call in exactly one place |
| ProxyLedger.DeliveredKeepsLedger | automotive/libs/av_mw/src/proxy.cpp:248-282 | when the handler of a matched reply starts, its call has left the table and the books balance, whatever the reply says |
| ProxyLedger.ReportedKeepsLedger | automotive/libs/av_mw/src/runtime.cpp:155-163 | when the handler of a queued failure starts, its call has left the queue and the books balance |
| ProxyLedger.SilencedKeepsLedger | automotive/libs/av_mw/src/proxy.cpp:210-221 | a queued failure that finds the proxy destroyed is handed to nobody, and its call counts as cancelled |
| ProxyLedger.FailEachFailsTheListed | automotive/libs/av_mw/src/proxy.cpp:284-329 | a walk fails exactly the listed calls, in order, stops early only if the proxy is destroyed, leaves unlisted calls alone, and treats calls made meanwhile as new |
| ProxyLedger.RunTasksRunsThemInOrder | automotive/libs/av_mw/src/runtime.cpp:155-167 | queued completions run in order, each with its own failure |
| ProxyContract.OnReplyKeepsLedger | automotive/libs/av_mw/src/proxy.cpp:248-282 | any datagram that parses keeps the books, and completed calls stay as they are |
| ProxyContract.StepKeepsLedger | automotive/libs/av_mw/src/proxy.cpp:122-352 | every event, with any handler behaviour, keeps the books; what completed or was cancelled stays so, and nothing completes after destruction |
| ProxyContract.RunKeepsLedger | automotive/libs/av_mw/src/proxy.cpp:122-352 | the same over every run |
| ProxyContract.ExactlyOnce | automotive/libs/av_mw/include/av/mw/proxy.hpp:13-23 | between the events of every run, also after destruction, each call issued is in exactly one of five places: waiting, queued, completed, cancelled while it waited, cancelled while its failure was queued; none completes twice; the counters add up to the calls; and the table never exceeds max_pending |
| ProxyContract.CancelledForGood | automotive/libs/av_mw/src/proxy.cpp:122-138 | a call that was cancelled never completes, whatever happens later |
| ProxyMoments.ExactlyOnceAtEveryMoment | automotive/libs/av_mw/include/av/mw/proxy.hpp:13-36 | the same inside the events: at every moment of every run at which a call's handler or the availability handler starts, whatever the handlers before it did, each call issued so far is in exactly one of waiting, queued or still to be run, and completed; the counters add up; the table is within max_pending |
| ProxyMoments.HandlersStartAtTheseMoments | automotive/libs/av_mw/src/proxy.cpp:223-352 | and those are all the moments: every completion of the run is the start of a handler at one of them, with exactly the completions before it behind it |
| ProxyContract.TimeoutsFailExactlyTheExpired | automotive/libs/av_mw/src/proxy.cpp:284-306 | a tick fails exactly the calls for which now - sent_at > timeout, in ascending session order, each as a timeout with code 0 |
| ProxyContract.LosingTheServiceFailsAll | automotive/libs/av_mw/src/proxy.cpp:308-352 | when the service goes away every waiting call fails at once as not available, in ascending session order, and none is left waiting, not even one made by those handlers |
| ProxyContract.PostedRunInOrder | automotive/libs/av_mw/src/runtime.cpp:155-167 | the next poll completes what was queued before it, in order, each call with the failure it was queued with |
| ProxyContract.EveryCallCompletes | automotive/libs/av_mw/include/av/mw/proxy.hpp:16-23 | once the clock has passed every timeout, one tick and one poll settle every call issued before: it has completed or, if the application destroyed the proxy meanwhile, it completed or was cancelled |
| Skeleton.Server.AnswerRequest | automotive/libs/av_mw/src/skeleton.cpp:68-117 | the reply sent, if any, byte by byte as `AnswerOnWire` says, and the counters: a reply is one of code 0, any other is an error |
| Skeleton.AnswerOnWire | automotive/libs/av_mw/src/skeleton.cpp:68-117 | service, method, client and session ids are those of the request, the version is the server's; the code is 0x02 if the service differs, else 0x08 if the version does, else 0x03 if no handler is registered, else the handler's; type 0x80 with the handler's bytes for code 0, type 0x81 and an empty payload otherwise; and exactly when there is an answer |
| Skeleton.AnswerReads | automotive/libs/av_mw/src/skeleton.cpp:68-117 | what a client reads in any answer: its own session, and success only if the handler was asked about this very request and returned OK |
| RpcSystem.FreshReplyFindsItsOwnCall | automotive/libs/av_mw/src/proxy.cpp:248-282 | a reply that no 65534 later session ids have outlived finds, if anything, the call whose request it answers |
| RpcSystem.StepStaysWired | automotive/libs/av_mw/src/proxy.cpp:158-329 | every event keeps each waiting call tied to the last request sent under its session id |
| RpcSystem.NextStaysSound | automotive/libs/av_mw/src/proxy.cpp:158-282 | every move of client, server or network keeps every success and every remote error truthful |
| RpcSystem.RunsStaySound | automotive/libs/av_mw/src/proxy.cpp:158-282 | the same over every run of a network that loses, duplicates, delays and reorders datagrams |
| RpcSystem.SuccessCarriesTheHandlersAnswer | automotive/libs/av_mw/include/av/mw/proxy.hpp:16-23 | a call that ended in success carries the bytes that the server's handler returned, with code OK, for that call's own method and request bytes |
| RpcSystem.RemoteErrorCarriesTheServersCode | automotive/libs/av_mw/src/skeleton.cpp:95-115 | a call that ended with a remote error got a code that the server sent for that call's own request: 0x02 for another service, 0x08 for another version, 0x03 if the method was not registered when the request came, else what the handler returned for it; and this client never has to refuse a version itself |
| StaleReply.AnOlderReplyReachesTheWrongCall | automotive/libs/av_mw/src/proxy.cpp:248-282 | the bound is sharp: in a run in which a reply is delayed for 65535 later session ids, it completes another call with bytes that no handler returned for it |
| Registry.ServiceRegistry.Observe | automotive/libs/av_service/src/sd.cpp:351-386 | the records and the reported change after an entry |
| Registry.ServiceRegistry.Expire | automotive/libs/av_service/src/sd.cpp:388-401 | the records that are left, and the keys that ran out, in key order |
| Registry.HeldExactlyWhileLeased | automotive/libs/av_service/src/sd.cpp:351-401 | a service is held if and only if its latest offer was no StopOffer and no sweep since has found its lease over, which a TTL of 0xFFFFFF never is; it ends `ttl` after the offer came, and names the last method endpoint and the last event group of the offer |
| Registry.NewsAlternates | automotive/libs/av_service/src/sd.cpp:351-401 | per service the reported changes strictly alternate, beginning with Available, and the last one is right |
| OfferedEndpoint.UsableExactly | automotive/libs/av_service/src/sd.cpp:170-240 | for the bytes of any accepted offer: the registry keeps a usable method endpoint if and only if the last option the entry refers to that is no multicast group is an IPv4 endpoint, and it keeps that one; if that option is one the stack does not know, its placeholder is kept instead |
| OfferedEndpoint.LastNoGroupIs | automotive/libs/av_service/src/sd.cpp:367-374 | which option that is: the one behind which only multicast groups stand |
| RuntimeObject.Runtime.Find | automotive/libs/av_mw/src/runtime.cpp:442-464 | registers an interest, and owes a greeting if the service is already known |
| RuntimeObject.Runtime.CancelFind | automotive/libs/av_mw/src/runtime.cpp:466-466 | drops an interest |
| RuntimeObject.Runtime.Notify | automotive/libs/av_mw/src/runtime.cpp:256-271 | tells the interests of one service, copied out first, skipping those cancelled meanwhile |
| RuntimeObject.Runtime.Observe | automotive/libs/av_mw/src/runtime.cpp:200-235 | an entry that arrived, and who is told |
| RuntimeObject.Runtime.ExpireLeases | automotive/libs/av_mw/src/runtime.cpp:273-280 | all leases that ran out are dropped before anybody is told |
| RuntimeObject.Runtime.RunPosted | automotive/libs/av_mw/src/runtime.cpp:155-163 | every job that was queued runs, once and in queue order, and what is queued meanwhile is all that is left |
| RuntimeRuns.PollRuns | automotive/libs/av_mw/src/runtime.cpp:383-406 | besides news one poll runs exactly: the handlers of the other ready descriptors, each once, in their order; every tick once; every job queued before or during the poll up to then, once, in queue order; what those queue is left for the next poll, and from the sweep of the leases on nothing runs while a lease that is over is held |
| RuntimeRuns.EveryJobRunsOnce | automotive/libs/av_mw/src/runtime.cpp:155-163 | over every run the jobs that have run and those still queued are, in this order, all jobs ever queued, and every action of every piece of application code that ran was carried out once |
| RuntimeRuns.NewsIsPassedOn | automotive/libs/av_mw/src/runtime.cpp:256-271 | over every run what one proxy passes on alternates, beginning with available, its last news is what it believes, and a destroyed proxy passes nothing on any more |
| RuntimeLeases.RegistryFollowsTheNetwork | automotive/libs/av_mw/src/runtime.cpp:169-280 | after every run the registry holds a service if and only if the latest offer for it that arrived was no StopOffer and no poll since has found its lease over, whatever the application did |
| Availability.IdsBelowAre | automotive/libs/av_mw/src/runtime.cpp:256-262 | the interests that are told are those of the service, in the order of registration |
| RuntimeObject.Runtime.Dispatch | automotive/libs/av_mw/src/runtime.cpp:110-138 | one round of dispatching: discovery entries and other descriptors' handlers, in any order |
| RuntimeObject.Runtime.Poll | automotive/libs/av_mw/src/runtime.cpp:383-406 | one poll: what is ready, leases, ticks, queue, in this order |
| Availability.StepSettles | automotive/libs/av_mw/src/runtime.cpp:383-406 | every event keeps each proxy's belief right except around a greeting, and every greeting queued since the last swap belongs to a newcomer that has been told nothing while the registry holds its service |
| Availability.RunSettles | automotive/libs/av_mw/src/runtime.cpp:383-406 | the same over every run and every application script |
| Availability.ProxiesAgree | automotive/libs/av_mw/src/runtime.cpp:442-464 | at rest, a proxy that registered while its service was absent believes exactly what the registry holds; any proxy disagrees with the registry if and only if its greeting is still queued or came when the service had already gone |
| Availability.AStaleGreeting | automotive/libs/av_mw/src/runtime.cpp:448-458 | the greeting that is not re-checked does leave a proxy available while the registry holds nothing |
| PowersOfTwo.MaskIsModulo | cplus_review/phase05_concurrency/include/spsc_ring.hpp:116-120 | a mask of 2^k - 1 computes the remainder by 2^k |
| PowersOfTwo.PowerOfTwoTest | cplus_review/phase05_concurrency/include/spsc_ring.hpp:48-49 | the compile-time test accepts exactly the powers of two |
| RingIndex.MaskedDivides | cplus_review/phase05_concurrency/include/spsc_ring.hpp:48-49 | every capacity the in-process ring admits divides the counters' range |
| RingIndex.PlacesApart | cplus_review/phase05_concurrency/include/spsc_ring.hpp:116-120 | elements fewer than a capacity apart have different slots, always or before the counters wrap |
| SpscWrap.WrapIsHarmlessExactly | automotive/libs/av_ipc/include/av/ipc/shared_ring.hpp:137-171 | over all runs, in any interleaving, the modulo ring never constructs over an unread element if and only if its capacity divides 2^64 |
| SpscWrap.OverwritesAfterTheWrap | automotive/libs/av_ipc/include/av/ipc/shared_ring.hpp:137-171 | for any other capacity, a run from the empty ring after which the producer is about to construct over an element that was not read |
| SpscProtocol.FullMeansFull | cplus_review/phase05_concurrency/include/spsc_ring.hpp:80-82 | both rings' tests for a full ring mean the same, on wrapped counters and stale snapshots |
| SpscProtocol.EmptyMeansEmpty | cplus_review/phase05_concurrency/include/spsc_ring.hpp:95-97 | the test for an empty ring finds nothing exactly when all that was seen published has been taken |
| SpscProtocol.ConstructsInAnEmptySlot | cplus_review/phase05_concurrency/include/spsc_ring.hpp:74-88 | no unread element is ever overwritten |
| SpscProtocol.MovesOutTheOldest | cplus_review/phase05_concurrency/include/spsc_ring.hpp:91-104 | the consumer moves out the oldest element, fully constructed |
| SpscProtocol.NeverOnOneSlot | cplus_review/phase05_concurrency/include/spsc_ring.hpp:74-104 | producer and consumer are never at work on one slot |
| SpscProtocol.StepKeepsInv | cplus_review/phase05_concurrency/include/spsc_ring.hpp:74-104 | every load, write, publication, move and destruction keeps the invariant |
| SpscRing.RunKeepsInv | cplus_review/phase05_concurrency/include/spsc_ring.hpp:74-104 | the same over every interleaving and any staleness of the acquire loads |
| SpscRing.PoppedIsAPrefixOfPushed | cplus_review/phase05_concurrency/include/spsc_ring.hpp:54-104 | what was popped is a prefix of what was pushed, at most a capacity is in flight, each in its own slot, and elements are destroyed once, in order |
| SpscRing.MaskedRingsNeverFail | cplus_review/phase05_concurrency/include/spsc_ring.hpp:46-49 | for a masked ring this holds for runs of any length |
| SpscRing.RingBuffer.constructor | cplus_review/phase05_concurrency/include/spsc_ring.hpp:52-52 | a new ring is the start state |
| SpscRing.RingBuffer.Emplace | cplus_review/phase05_concurrency/include/spsc_ring.hpp:74-88 | one push is one run of the protocol's steps; it fails exactly when the ring is full |
| SpscRing.RingBuffer.Pop | cplus_review/phase05_concurrency/include/spsc_ring.hpp:91-104 | one pop is one run of the protocol's steps; it returns the oldest element or finds the ring empty |
| SpscRing.RingBuffer.Clear | cplus_review/phase05_concurrency/include/spsc_ring.hpp:54-61 | the destructor destroys exactly what is still in flight and leaves every slot unused |
| SharedOwnership.OwnerLeavesKeepsInv | cplus_review/phase02_stl/include/smart_ptr.hpp:101-111 | dropping an owner |
| SharedOwnership.InnerLeavesKeepsInv | cplus_review/phase02_stl/include/smart_ptr.hpp:160-168 | the object's own weak pointers dropping out while its destructor runs |
| SharedOwnership.LockGoesOnKeepsInv | cplus_review/phase02_stl/include/smart_ptr.hpp:148-157 | a lock attempt on a stale value, and its retries |
| SharedOwnership.StepKeepsInv | cplus_review/phase02_stl/include/smart_ptr.hpp:62-168 | every atomic step of every operation keeps the counts exact: strong = owners, weak = weak pointers + the strong side's one reference |
| SharedPointer.RunKeepsInv | cplus_review/phase02_stl/include/smart_ptr.hpp:62-168 | the same over every interleaving |
| SharedPointer.RunTracksPointers | cplus_review/phase02_stl/include/smart_ptr.hpp:62-168 | after every run the pointers of each kind are those that were made and not dropped, and both counters say how many there are |
| SharedPointer.NoUseAfterFree | cplus_review/phase02_stl/include/smart_ptr.hpp:49-58 | no operation, the end of the destructor included, finds the control block freed, and an owner's object is alive |
| SharedPointer.DestroyedOnceFreedOnceLater | cplus_review/phase02_stl/include/smart_ptr.hpp:101-111 | the object is destroyed at most once, with no owner left; the block is freed at most once, and only after that |
| SharedPointer.NeverRevived | cplus_review/phase02_stl/include/smart_ptr.hpp:148-157 | once no owner is left none ever appears again |
| SharedPointer.LockAnswersTruly | cplus_review/phase02_stl/include/smart_ptr.hpp:148-157 | lock gives up only when the object is gone, however stale its loads and also inside the object's own destructor, and succeeds only while it is alive |
| SharedPointer.NothingLeaks | cplus_review/phase02_stl/include/smart_ptr.hpp:49-58 | between operations: destroyed exactly if no owner is left, freed exactly if nobody is left |
| SharedPointer.InnerIsNotLast | cplus_review/phase02_stl/include/smart_ptr.hpp:104-106 | while the destructor runs, dropping an inner weak pointer never frees the block |
| SharedPointer.ControlBlock.DestroyObject | cplus_review/phase02_stl/include/smart_ptr.hpp:104-104 | the object's destructor, with the release of each weak pointer it owns |
| SharedPointer.ControlBlock.ReleasePin | cplus_review/phase02_stl/include/smart_ptr.hpp:105-109 | the strong side's own weak reference, dropped last |
| SharedPointer.ControlBlock.ReleaseShared | cplus_review/phase02_stl/include/smart_ptr.hpp:101-111 | the release of an owner is a run of the protocol's steps |
| SharedPointer.ControlBlock.ReleaseWeak | cplus_review/phase02_stl/include/smart_ptr.hpp:160-168 | the release of a weak pointer is a run of the protocol's steps |
| SharedPointer.ControlBlock.Lock | cplus_review/phase02_stl/include/smart_ptr.hpp:148-157 | an undisturbed lock succeeds exactly while the object is alive |
| SemaphoreQueue.PushKeepsInv | cplus_review/phase05_concurrency/include/bounded_queue.hpp:51-63 | each step of a push keeps the permits |
| SemaphoreQueue.PopKeepsInv | cplus_review/phase05_concurrency/include/bounded_queue.hpp:67-80 | each step of a pop, relay included, keeps the permits |
| SemaphoreQueue.CloseKeepsInv | cplus_review/phase05_concurrency/include/bounded_queue.hpp:85-91 | each step of a close keeps the permits |
| SemaphoreQueue.StepKeepsInv | cplus_review/phase05_concurrency/include/bounded_queue.hpp:51-91 | every step keeps the invariant |
| SemaphoreQueueRuns.PermitsAddUp | cplus_review/phase05_concurrency/include/bounded_queue.hpp:51-91 | in every interleaving free slots + items + slots in hand = Capacity, tokens free or held = items + closes, the queue never exceeds Capacity, and items leave in order |
| SemaphoreQueueRuns.EmptyMeansClosed | cplus_review/phase05_concurrency/include/bounded_queue.hpp:70-74 | a consumer that finds nothing finds a closed queue |
| SemaphoreQueueRuns.DrainedForGood | cplus_review/phase05_concurrency/include/bounded_queue.hpp:65-66 | after that nothing ever comes again |
| SemaphoreQueueRuns.WorkRunsOut | cplus_review/phase05_concurrency/include/bounded_queue.hpp:51-91 | calls under way finish or block within a bounded number of steps |
| SemaphoreQueueRuns.OneCloseWakesEveryConsumer | cplus_review/phase05_concurrency/include/bounded_queue.hpp:82-91 | after one close no consumer stays blocked; only producers can, and exactly when the queue is full |
| SemaphoreQueueRuns.ProducersCanStayBlocked | cplus_review/phase05_concurrency/include/bounded_queue.hpp:84-91 | a run in which a producer does stay blocked, with one token more than the queue has slots |
| SemaphoreMaximum.ReleaseOverflowsExactly | cplus_review/phase05_concurrency/include/bounded_queue.hpp:51-91 | each of the three releases of items_ready_ -- after a push, on the relay, in close -- and any number of closes: it goes beyond the declared maximum if and only if queued items and closes are more than the capacity and the tokens in other threads' hands |
| SemaphoreMaximum.ExceededExactly | cplus_review/phase05_concurrency/include/bounded_queue.hpp:106-107 | the same at every moment of every run |
| SemaphoreMaximum.WithinMaximum | cplus_review/phase05_concurrency/include/bounded_queue.hpp:51-91 | so pushes and relays stay within the maximum before a close, and the relay also after one |
| SemaphoreMaximum.OneCloseExceedsExactly | cplus_review/phase05_concurrency/include/bounded_queue.hpp:81-91 | one close, made when every accepted push has signalled, exceeds the maximum at some moment of the rest of the run if and only if the queue is full and no consumer holds a token when it releases its own |
| SemaphoreMaximum.RunWithOneCloseExceedsExactly | cplus_review/phase05_concurrency/include/bounded_queue.hpp:81-91 | the same for whole runs from the start with one close in them |
| SemaphoreMaximum.ASignalCanOverflow | cplus_review/phase05_concurrency/include/bounded_queue.hpp:51-62 | a push that is overtaken by the close exceeds the maximum when it signals, although the close did not |
| SemaphoreMaximum.ClosesAloneOverflow | cplus_review/phase05_concurrency/include/bounded_queue.hpp:85-91 | closes alone leave as many tokens as there were closes, on an empty queue that nobody uses |
| SemaphoreMaximum.PermitsStayWithinMaximum | cplus_review/phase05_concurrency/include/bounded_queue.hpp:106-107 | before any close both semaphores stay within their maximum |
| SemaphoreQueueRuns.BoundedQueue.Push | cplus_review/phase05_concurrency/include/bounded_queue.hpp:51-63 | one push: the item is appended unless the queue is closed, and the slot is handed back then |
| SemaphoreQueueRuns.BoundedQueue.Pop | cplus_review/phase05_concurrency/include/bounded_queue.hpp:67-80 | one pop: the oldest item, or nothing with the token passed on |
| SemaphoreQueueRuns.BoundedQueue.Close | cplus_review/phase05_concurrency/include/bounded_queue.hpp:85-91 | one close: closed, and one token more |
| ThreadPool.StepKeepsInv | cplus_review/phase05_concurrency/include/thread_pool.hpp:47-107 | every locked section, notification and finished task keeps the invariant; in particular no wake-up is lost |
| ThreadPool.AcceptsUntilStopped | cplus_review/phase05_concurrency/include/thread_pool.hpp:60-84 | exactly the tasks submitted before the pool is stopped are accepted |
| ThreadPool.NoTaskRunsTwice | cplus_review/phase05_concurrency/include/thread_pool.hpp:91-107 | tasks start in the order of submission and none runs twice |
| ThreadPool.EveryAcceptedTaskRan | cplus_review/phase05_concurrency/include/thread_pool.hpp:45-54 | when nothing is under way every accepted task has run exactly once, and a pool being destroyed has no worker left to wait for |
| ThreadPool.WorkRunsOut | cplus_review/phase05_concurrency/include/thread_pool.hpp:91-107 | submitted work is done within a bounded number of steps |
| ThreadPool.SomeStepRemains | cplus_review/phase05_concurrency/include/thread_pool.hpp:91-107 | until then some step can be made |
| ConcQueue.BoundedQueue.Emplace | automotive/libs/av_conc/include/av/conc/bounded_queue.hpp:162-166 | appends to the contents of the circular buffer |
| ConcQueue.BoundedQueue.Take | automotive/libs/av_conc/include/av/conc/bounded_queue.hpp:168-173 | removes the oldest element |
| ConcQueue.BoundedQueue.Push | automotive/libs/av_conc/include/av/conc/bounded_queue.hpp:61-74 | the locked section of a blocking push |
| ConcQueue.BoundedQueue.TryPush | automotive/libs/av_conc/include/av/conc/bounded_queue.hpp:81-94 | Closed before Full before accepted, and the contents after each |
| ConcQueue.BoundedQueue.Pop | automotive/libs/av_conc/include/av/conc/bounded_queue.hpp:102-114 | the locked section of a blocking pop: nothing only if closed and empty |
| ConcQueue.BoundedQueue.TryPop | automotive/libs/av_conc/include/av/conc/bounded_queue.hpp:118-129 | the oldest element, or nothing from an empty queue |
| ConcQueue.BoundedQueue.Close | automotive/libs/av_conc/include/av/conc/bounded_queue.hpp:136-143 | closing discards nothing |
| CockpitPipeline.StepKeepsInv | automotive/apps/cockpit/main.cpp:86-213 | every queue operation and counter update of the three threads keeps the ledger of frames and states and their order |
| CockpitRuns.ReportBalancesExactly | automotive/apps/cockpit/main.cpp:197-220 | at the report every frame and state is accounted for, states were shown in order and the newest one was shown; the balance the program checks holds if and only if the decoder never found an empty queue when making room |
| CockpitRuns.RunsEnd | automotive/apps/cockpit/main.cpp:174-197 | no interleaving goes on for ever |
| CockpitRuns.NeverStuck | automotive/apps/cockpit/main.cpp:189-197 | the shutdown order cannot deadlock |
| CockpitRuns.BalanceCanFail | automotive/apps/cockpit/main.cpp:140-144 | for queues of any size there is a run whose report does not balance |
| ArbitrationBits.BadIdIsTooLarge | automotive/libs/av_can/src/arbitration.cpp:82-85 | an id has bits outside its mask exactly when it is larger than the mask |
| ArbitrationBits.ArbitrationField | automotive/libs/av_can/src/arbitration.cpp:43-72 | the loop that builds a field produces `Field` |
| ArbitrationBits.ValueOfHead | automotive/libs/av_can/include/av/can/arbitration.hpp:65-84 | what the first thirteen bits are worth, by format |
| ArbitrationBits.ValueOfField | automotive/libs/av_can/include/av/can/arbitration.hpp:65-84 | what the whole field is worth, by format |
| ArbitrationBits.OrderWithinFormat | automotive/libs/av_can/include/av/can/arbitration.hpp:24-26 | within one format fields compare by identifier, then data before remote |
| Arbitration.BusLevel | automotive/libs/av_can/src/arbitration.cpp:108-115 | the wired-AND of those still in the round |
| Arbitration.ReadBack | automotive/libs/av_can/src/arbitration.cpp:120-128 | who stays in and who withdraws on one bit |
| Arbitration.BitDecides | automotive/libs/av_can/src/arbitration.cpp:103-132 | the nodes that read back their own bit are exactly those that have driven the least value so far |
| Arbitration.RunRound | automotive/libs/av_can/src/arbitration.cpp:103-132 | the round ends with exactly the nodes of least value, and its trace is right at every bit |
| Arbitration.Arbitrate | automotive/libs/av_can/src/arbitration.cpp:74-135 | nothing for an empty or invalid input; otherwise the winners are exactly the contenders whose compared bits are least, in order, with a right trace |
| ArbitrationOutcome.EachLoserWithdrawsOnce | automotive/libs/av_can/src/arbitration.cpp:117-131 | every contender either wins or withdraws at exactly one traced bit, recessive against dominant |
| ArbitrationOutcome.BusCarriesTheWinner | automotive/libs/av_can/include/av/can/arbitration.hpp:19-22 | the bus carried the winner's own bits |
| ArbitrationOutcome.LeastIdWins | automotive/libs/av_can/include/av/can/arbitration.hpp:24-26 | with one frame format the least identifier wins, data before remote |
| ArbitrationOutcome.HeadsDecide | automotive/libs/av_can/src/arbitration.cpp:93-101 | with a standard frame on the bus the first thirteen bits decide |
| ArbitrationOutcome.StandardBeatsExtended | automotive/libs/av_can/include/av/can/arbitration.hpp:79-83 | no extended frame survives a standard frame whose identifier is at most its base |
| ArbitrationOutcome.TiesAreIdenticalExactly | automotive/libs/av_can/src/arbitration.cpp:93-97 | all winners drive one field if and only if the comparison was not cut short between different extended frames |
| ArbitrationOutcome.TwoWinnersThatDiffer | automotive/libs/av_can/src/arbitration.cpp:93-101 | any two different extended frames of one base, with any standard frame above it, both win |
| FaultConfinement.RunStaysInRange | automotive/libs/av_can/src/error_state.cpp:64-78 | no counter leaves its range |
| FaultConfinement.TecIsTheWorstStretch | automotive/libs/av_can/src/error_state.cpp:28-49 | until bus-off the transmit counter is the largest balance, eight per error less one per success, of any stretch up to now |
| FaultConfinement.BusOffExactly | automotive/libs/av_can/src/error_state.cpp:71-78 | the node leaves the bus if and only if some stretch of its run weighs 256 or more |
| FaultConfinement.RecIsTheWorstStretch | automotive/libs/av_can/src/error_state.cpp:35-62 | as long as it is at most 127, the receive counter is the largest balance -- one per error, eight per error after the own flag, less one per success -- of any stretch up to now |
| FaultConfinement.ReceivePassiveExactly | automotive/libs/av_can/src/error_state.cpp:35-69 | a node that stays on the bus is put passive by its receive counter if and only if some stretch weighs 128 or more |
| FaultConfinement.ReceiveSteps | automotive/libs/av_can/src/error_state.cpp:35-69 | what one event does to the receive counter at any value, up to 256; one good frame gives back all beyond 127 |
| FaultConfinement.ListenersStayOn | automotive/libs/av_can/src/error_state.cpp:64-69 | without a transmit error it never does |
| FaultConfinement.RecoveryTakes128Windows | automotive/libs/av_can/src/error_state.cpp:16-26 | off the bus only recessive windows count, and the 128th starts the node afresh |
| FaultConfinement.ErrorCounters.On | automotive/libs/av_can/src/error_state.cpp:15-79 | the object after an event |
| FaultConfinement.ErrorCounters.Reset | automotive/libs/av_can/src/error_state.cpp:91-96 | a freshly powered controller |
| FaultConfinement.ErrorCounters.State | automotive/libs/av_can/src/error_state.cpp:81-89 | bus-off exactly at 256, passive exactly above 127 before that |
| SignalBits.WalkIsLinear | automotive/libs/av_can/src/bit.cpp:27-32 | in either byte order the walk counts up through one numbering of the bits |
| SignalBits.WalkIsInjective | automotive/libs/av_can/src/bit.cpp:27-32 | a walk never meets a bit twice |
| SignalBits.SetsOneBit | automotive/libs/av_can/src/bit.cpp:96-102 | the masked store changes exactly one bit |
| SignalPacking.ExtractBits | automotive/libs/av_can/src/bit.cpp:49-73 | defined exactly if the arguments are sane and the walk fits; the result has exactly the signal's bits |
| SignalPacking.InsertBits | automotive/libs/av_can/src/bit.cpp:75-107 | succeeds under exactly the same condition; the signal's bits are written, all others and a refused buffer are untouched |
| SignalPacking.ReadsBack | automotive/libs/av_can/include/av/can/bit.hpp:36-49 | reading back what was written gives the value modulo 2^length |
| SignalPacking.OthersAreKept | automotive/libs/av_can/include/av/can/bit.hpp:41-42 | a signal on a disjoint walk is not disturbed |
| SignalPacking.PackInAnyOrder | automotive/libs/av_can/include/av/can/bit.hpp:41-42 | signals with disjoint walks may be packed in any order |
| SignalBytes.MotorolaIsHighFirst | automotive/libs/av_can/src/bit.cpp:27-73 | a Motorola signal of whole bytes is worth the number that its bytes make, high byte first |
| SignalBytes.IntelIsLowFirst | automotive/libs/av_can/src/bit.cpp:27-73 | an Intel signal of whole bytes is worth the number that its bytes make, low byte first |
| SignalBytes.TwoBytes | automotive/libs/av_can/src/bit.cpp:34-47 | of two bytes a and b: 256a + b in Motorola order, a + 256b in Intel order |
| ValueBits.SignExtendIs | automotive/libs/av_can/src/bit.cpp:109-126 | sign extension gives the signed value congruent to the raw one |
| ValueBits.SignExtendInvertsMask | automotive/libs/av_can/src/signal.cpp:49-60 | extending the masked bits of a signed value in range gives it back |
| ValueBits.MaskInvertsSignExtend | automotive/libs/av_can/src/bit.cpp:109-126 | and masking the extended value gives the raw bits back |
| CanFrame.DlcRoundTrip | automotive/libs/av_can/src/frame.cpp:19-44 | the two DLC tables invert each other wherever a length can be encoded |
| CanFrame.DlcMeans | automotive/libs/av_can/src/frame.cpp:12-44 | which lengths the codes stand for: 0 to 8, and with FD 12, 16, 20, 24, 32, 48 and 64; every other code means 8, and no other length has a code |
| Tunnel.TunnelEncode | automotive/libs/av_can/src/tunnel.cpp:45-112 | the encoder's loops produce `Encode`, or an empty buffer for exactly the batches that cannot be sent |
| Tunnel.TunnelDecode | automotive/libs/av_can/src/tunnel.cpp:114-170 | the decoder's loops compute `Decode` |
| Tunnel.TunnelRoundTrip | automotive/libs/av_can/src/tunnel.cpp:45-170 | decoding gives back header and frames, with the unused payload zeroed |
| Tunnel.AcceptedPacketsCanBeForwarded | automotive/libs/av_can/src/tunnel.cpp:114-170 | whatever is accepted can be sent on and means the same to the next receiver |
| TunnelLayout.EncodedOnWire | automotive/libs/av_can/src/tunnel.cpp:45-112 | the packet byte by byte -- "AVET", version 1, count, sequence, timestamp, and each record with its identifier word, length, flags and padded payload -- and exactly when there is one |
| TunnelLayout.RecordReads | automotive/libs/av_can/src/tunnel.cpp:143-166 | exactly when a record is accepted, and what its bytes mean |
| TunnelLayout.PacketReads | automotive/libs/av_can/src/tunnel.cpp:114-170 | exactly when a packet is accepted, and what its header means |
| SequenceTracking.SequenceTracker.Observe | automotive/libs/av_can/src/tunnel.cpp:172-211 | the object and the answer after a datagram |
| SequenceTracking.BooksBalance | automotive/libs/av_can/src/tunnel.cpp:172-211 | over every non-empty run accepted + stale = datagrams, and highest = first + (accepted - 1) + lost modulo 2^32 |
| SequenceTracking.TracksTheTrueNumbers | automotive/libs/av_can/src/tunnel.cpp:180-188 | if true numbers stay within 2^31 of the highest, the tracker holds the highest true number through any number of wraps, and counts exactly the skipped ones |
| SequenceTracking.AcceptsExactlyTheNewer | automotive/libs/av_can/src/tunnel.cpp:180-210 | then each datagram is judged as if the numbers never wrapped |
| SequenceTracking.HalfAheadIsStale | automotive/libs/av_can/src/tunnel.cpp:188-201 | the bound is sharp |
| AvlTrees.RotateRightKeeps | cplus_review/phase02_stl/include/avl_tree.hpp:63-76 | a right rotation keeps the in-order bindings |
| AvlTrees.RotateLeftKeeps | cplus_review/phase02_stl/include/avl_tree.hpp:78-85 | a left rotation keeps the in-order bindings |
| AvlTrees.RebalanceKeeps | cplus_review/phase02_stl/include/avl_tree.hpp:101-117 | rebalancing keeps the in-order bindings in all four cases |
| AvlTrees.RebalanceBalances | cplus_review/phase02_stl/include/avl_tree.hpp:101-117 | it restores balance and exact heights, and a side too high becomes one lower |
| AvlMap.InsertPlaces | cplus_review/phase02_stl/include/avl_tree.hpp:87-98 | insertion into the tree is insertion into the sorted list of its bindings |
| AvlMap.InsertKeepsAvl | cplus_review/phase02_stl/include/avl_tree.hpp:87-117 | every insertion keeps order, exact heights and balance, changes exactly one binding, and raises the height by at most one |
| AvlMap.HeightIsLogarithmic | cplus_review/phase02_stl/include/avl_tree.hpp:3-6 | a balanced tree of height h has at least Fib(h+2) - 1 nodes |
| AvlMap.AvlTree.InsertNode | cplus_review/phase02_stl/include/avl_tree.hpp:87-98 | the recursive insertion, counting a new key once |
| AvlMap.AvlTree.Insert | cplus_review/phase02_stl/include/avl_tree.hpp:30-30 | the container after an insertion: one binding updated, size the number of keys |
| AvlMap.AvlTree.Find | cplus_review/phase02_stl/include/avl_tree.hpp:32-40 | finds a binding exactly if there is one, in at most height steps |
| AvlMap.AvlTree.SortedKeys | cplus_review/phase02_stl/include/avl_tree.hpp:42-47 | all keys, strictly ascending |
| InternalPages.RouteIsTheOneThatCovers | bptree-from-scratch/include/page/internal_page.hpp:37-39 | the entry a key is routed to is the one whose key range covers it |
| InternalPages.JoinRoutes | bptree-from-scratch/include/page/internal_page.hpp:104-118 | two pages joined around a key route below it by the left page, from it on by the right |
| InternalPages.SplitRoutes | bptree-from-scratch/include/page/internal_page.hpp:84-102 | after a split the two pages with the pushed-up key between them route every key as before |
| InternalPages.InsertRoutes | bptree-from-scratch/include/page/internal_page.hpp:54-70 | a new separator sends the upper part of what the split child covered to the new child, and nothing else |
| InternalPages.RemoveRoutes | bptree-from-scratch/include/page/internal_page.hpp:72-82 | removing a child hands what it covered to its neighbour, and nothing else |
| InternalPages.InternalPage.Lookup | bptree-from-scratch/include/page/internal_page.hpp:40-52 | the binary search returns the child that covers the key |
| InternalPages.InternalPage.InsertNodeAfter | bptree-from-scratch/include/page/internal_page.hpp:57-70 | the shift in place inserts after the first entry of the old child |
| InternalPages.InternalPage.RemoveChild | bptree-from-scratch/include/page/internal_page.hpp:74-82 | the shift in place removes the first entry of the child |
| InternalPages.InternalPage.MoveHalfTo | bptree-from-scratch/include/page/internal_page.hpp:87-102 | page, pushed-up key and recipient together are the old page |
| InternalPages.InternalPage.MoveAllTo | bptree-from-scratch/include/page/internal_page.hpp:106-118 | the recipient becomes the two pages joined around the parent's key |
| InternalPages.SplitAndMerge | bptree-from-scratch/include/page/internal_page.hpp:84-118 | splitting and merging around the same key restores the page exactly |
| LeafPages.RankSplits | bptree-from-scratch/include/page/leaf_page.hpp:30-33 | the lower bound is the one place between smaller and not smaller keys |
| LeafPages.FindMeans | bptree-from-scratch/include/page/leaf_page.hpp:28-38 | a key is found with a value exactly if the page holds that pair |
| LeafPages.InsertBinds | bptree-from-scratch/include/page/leaf_page.hpp:40-57 | an insertion keeps the order and adds exactly one binding |
| LeafPages.RemoveUnbinds | bptree-from-scratch/include/page/leaf_page.hpp:60-75 | a removal keeps the order and removes exactly one binding |
| LeafPages.LeafPage.Lookup | bptree-from-scratch/include/page/leaf_page.hpp:28-38 | the binary search finds what the page binds |
| LeafPages.LeafPage.Insert | bptree-from-scratch/include/page/leaf_page.hpp:40-57 | the shift in place; refuses exactly a key that is there |
| LeafPages.LeafPage.Remove | bptree-from-scratch/include/page/leaf_page.hpp:60-75 | the shift in place; refuses exactly a key that is not there |
| LeafPages.LeafPage.MoveHalfTo | bptree-from-scratch/include/page/leaf_page.hpp:77-87 | the two leaves together hold the old bindings, and the new one enters the chain |
| LeafPages.LeafPage.MoveAllTo | bptree-from-scratch/include/page/leaf_page.hpp:89-94 | the bindings are appended, and the emptied leaf leaves the chain |
| LeafPages.SplitAndMerge | bptree-from-scratch/include/page/leaf_page.hpp:77-94 | splitting and merging restores bindings and chain |
| BPlusTree.OnlyThatChild | bptree-from-scratch/include/tree/bplus_tree.hpp:67-70 | only the child that a key is routed to can hold it |
| BPlusTree.FindLeafPage | bptree-from-scratch/include/tree/bplus_tree.hpp:52-72 | in any well-formed page graph the descent ends at a leaf that answers for the whole tree |
| ProbeTable.StoreKeepsReachable | cplus_review/phase02_stl/include/hash_map.hpp:37-46 | a store keeps every occupied slot reachable from its home |
| ProbeTable.BuryKeepsReachable | cplus_review/phase02_stl/include/hash_map.hpp:67-67 | a tombstone keeps every other slot reachable |
| ProbeTable.CountIsSize | cplus_review/phase02_stl/include/hash_map.hpp:77-77 | without duplicates size is the number of keys |
| HashTable.ProbeStops | cplus_review/phase02_stl/include/hash_map.hpp:37-44 | the insert probe ends while a slot is free |
| HashTable.StoredUpdates | cplus_review/phase02_stl/include/hash_map.hpp:37-46 | an insertion into a duplicate-free table is a map update if and only if no tombstone precedes the key on its path |
| HashTable.ErasedKeyComesBack | cplus_review/phase02_stl/include/hash_map.hpp:38-46 | otherwise the key is there twice, and erasing it brings its old value back |
| HashTable.NextPow2 | cplus_review/phase02_stl/include/hash_map.hpp:90-94 | the least power of two that is large enough |
| HashTable.HashMap.constructor | cplus_review/phase02_stl/include/hash_map.hpp:30-31 | a new map is empty |
| HashTable.HashMap.Seek | cplus_review/phase02_stl/include/hash_map.hpp:37-44 | where the insert probe stops |
| HashTable.HashMap.Store | cplus_review/phase02_stl/include/hash_map.hpp:37-46 | the store at that slot keeps size and reachability |
| HashTable.HashMap.Insert | cplus_review/phase02_stl/include/hash_map.hpp:33-47 | grows when overloaded; a duplicate-free table stays one, with exactly one binding updated, if and only if it grew or no tombstone hides the key |
| HashTable.HashMap.Rehash | cplus_review/phase02_stl/include/hash_map.hpp:96-105 | keeps the map, leaves no tombstone and no duplicate, and never grows again inside |
| HashTable.HashMap.Find | cplus_review/phase02_stl/include/hash_map.hpp:49-60 | finds a key exactly if it is there; without duplicates, its binding |
| HashTable.HashMap.Erase | cplus_review/phase02_stl/include/hash_map.hpp:62-75 | a duplicate-free table loses exactly the key; an absent key changes nothing |
| Recency.OrderedByLastUse | leetcode/solutions/0146_Lru.py:40-76 | over every run the cache stays within capacity, lists each key once, and lists them by last use, so a full cache pushes out the least recently used key |
| Recency.OneMoreOperation | leetcode/solutions/0146_Lru.py:40-76 | a lookup changes no binding; a store binds its key and changes no other binding, except that a new key in a full cache pushes out exactly the one whose last use is the longest ago |
| Recency.FindsTheLastStored | leetcode/solutions/0146_Lru.py:40-76 | what a lookup finds is what was last stored |
| LruCache.LRUCache.constructor | leetcode/solutions/0146_Lru.py:11-20 | two sentinels and an empty dictionary, for any capacity |
| LruCache.LRUCache.Remove | leetcode/solutions/0146_Lru.py:23-28 | unlinks a node from the doubly linked list |
| LruCache.LRUCache.InsertToTail | leetcode/solutions/0146_Lru.py:31-38 | links a node in before the last sentinel |
| LruCache.LRUCache.Get | leetcode/solutions/0146_Lru.py:40-51 | the value or -1; what was found becomes most recently used; list and dictionary hold the same nodes |
| LruCache.LRUCache.Put | leetcode/solutions/0146_Lru.py:53-76 | updates, or evicts the least recently used and inserts; list and dictionary hold the same nodes; with capacity 0 there is nothing to evict, and it fails |
| LruCache.LRUCache.Admit | leetcode/solutions/0146_Lru.py:64-76 | a new key: a full cache evicts exactly its least recently used one first |
| LruCache.CacheSize | leetcode/solutions/0146_Lru.py:66-66 | the dictionary is as large as the list |
| TaskSchedule.NoScheduleIsShorter | leetcode/solutions/0621_task_schedule.py:4-31 | no valid schedule is shorter than max(|tasks|, (f-1)(n+1)+m) |
| TaskCounts.LevelsAreBounded | leetcode/solutions/0621_task_schedule.py:4-31 | what remains above any level, with that level's cooldowns, stays within the bound |
| TaskCounts.TallyBound | leetcode/solutions/0621_task_schedule.py:4-5 | the bound read off the counts of the distinct tasks |
| TaskScheduler.RunsInTime | leetcode/solutions/0621_task_schedule.py:23-29 | the task that the heap gives up is never late |
| TaskScheduler.RunKeepsClock | leetcode/solutions/0621_task_schedule.py:18-29 | expiries lie ahead, one per slot, so none is missed |
| TaskScheduler.RunKeepsInv | leetcode/solutions/0621_task_schedule.py:14-29 | a slot in which a task runs keeps the invariant |
| TaskScheduler.IdleKeepsInv | leetcode/solutions/0621_task_schedule.py:14-21 | an idle slot keeps the invariant |
| TaskRun.Counter | leetcode/solutions/0621_task_schedule.py:4-4 | the counts of the distinct tasks |
| TaskRun.HeapPop | leetcode/solutions/0621_task_schedule.py:24-24 | the least element of the heap, taken out |
| TaskRun.LeastInterval | leetcode/solutions/0621_task_schedule.py:2-31 | the loop on heap and queue terminates, its time is the bound, some valid schedule has that length, and none is shorter |
| ReplacementWindow.WindowIsBest | leetcode/solutions/0424_longest_repeating_character_replace.py:18-33 | the window is as long as the longest stretch that fits so far, though the count it trusts is stale |
| ReplacementWindow.CharacterReplacement | leetcode/solutions/0424_longest_repeating_character_replace.py:2-33 | some stretch of the returned length becomes uniform with k replacements, and no longer one does |
| RescueBoats.NoMatchingIsLarger | leetcode/solutions/0881_boats_to_save_people.py:9-22 | nobody can pair up more people than the two pointers do |
| RescueBoats.SeatsTaken | leetcode/solutions/0881_boats_to_save_people.py:5-24 | people aboard = boats + boats with two |
| RescueBoats.NoFleetIsSmaller | leetcode/solutions/0881_boats_to_save_people.py:2-24 | no admissible fleet is smaller than what the two pointers count |
| RescueBoats.NumRescueBoats | leetcode/solutions/0881_boats_to_save_people.py:2-24 | for people in any order: the list is sorted in place, the count is reached by an admissible fleet of the people as they came, and no fleet is smaller |
| RescueBoats.TwoPointers | leetcode/solutions/0881_boats_to_save_people.py:5-24 | the loop on the sorted list counts the boats of a smallest fleet |
| RescueBoats.FleetMoves | leetcode/solutions/0881_boats_to_save_people.py:3-3 | a fleet for the people in one order is one of the same size for them in any other |
| Reordering.SortedReorders | leetcode/solutions/0881_boats_to_save_people.py:3-3 | the sorted list has the elements of the list, each in its own new place |

## Left out

- Sockets, epoll, shared-memory set-up, threads' start and join, logging and clocks: sends may fail, datagrams are atomic, time is an integer parameter.
- Events: following, dropping and reading event groups, and the server's `notify`.
- The runtime's watches, repeated finds and offers, answered finds and reboot detection; ticks other than the proxies' timeouts.
- ProxyObject.Proxy.Close: dropping the event group and unregistering from the runtime.
- ProxyObject.Proxy.OnAvailabilityChanged: following and dropping the event group.
- RuntimeObject.Runtime.Find: the reset of the time of the last FindService, which brings the next one forward.
- RuntimeObject.Runtime.Poll: the FindService and OfferService messages it repeats.
- A handler is a script of calls, destruction and nothing else; other proxies reach a proxy only through the runtime. The proxy's share of the runtime's queue is modelled as its own queue.
- The text form of IPv4 addresses: an address is a 32-bit value or missing, and a missing one is refused.
- PayloadWriter and PayloadReader, floating-point payloads, the DBC parser and the scaling of physical values.
- `std::map` and `std::unordered_map` inside the originals are maps; their iteration order is modelled where it is observable (sessions and leases in key order).
- Memory-model details beyond stale monotone snapshots; cache lines; moves and swaps of smart pointers, which relabel a handle; spurious failures of compare-and-exchange are steps, spurious wake-ups of condition variables are not.
- The semaphores' counters are unbounded integers, so what an implementation does beyond the declared maximum is not modelled; `SemaphoreMaximum` says when that happens.
- Counters of statistics and sizes are unbounded integers; the widths that matter (session ids, sequence numbers, TTLs, ring counters, error counters, raw signal values) are modelled.
- ThreadPool and the cockpit's threads are modelled as states and steps, not as objects; futures and exceptions of tasks are not modelled.
- AvlTrees: nodes are values, not heap objects, since every node has one owner; node identity across rotations is not captured.
- InternalPages.InternalPage.RemoveChild, InternalPages.InternalPage.InsertNodeAfter: a missing child, and a full page, are preconditions, as they are for the original's callers; likewise MoveHalfTo on a page of fewer than two entries.
- LeafPages.LeafPage.Insert: a full page is a precondition, as in the original.
- BPlusTree: pinning and the buffer pool; the tree has no insertion of its own yet.
- HashTable: the load test is 10 * size > 7 * capacity, which is what the comparison of doubles decides for a power-of-two capacity below 2^52; keys are integers with an arbitrary hash function.
- LruCache.LRUCache.Put: with capacity 0 it reports that the original raises an error; the half-unlinked list that the error leaves behind is not modelled further.
- RescueBoats.NumRescueBoats: `list.sort` is the function `Reordering.Sorted`; nobody is heavier than a boat's limit, without which there is no fleet at all.
- TaskRun: `heapq` is a multiset from which the least element is taken.
- SpscRing, SemaphoreQueueRuns, SharedPointer: the objects' methods are undisturbed calls; interleavings are covered by the step models they refer to.
- The pool allocator, the binary heap, the provinces, the ship's capacity and the rebuilt binary tree: self-contained, and easier than what is here.
