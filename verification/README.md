# Protocol engines of the mesh: a verified model

This Dafny project models the hand-written protocol engines of the mesh repository and proves what they
promise over all inputs and all runs. Everything the repository changes in place is a class or an array
here, proved to follow a specification function; the theorems are lemmas about those functions. Every
`await` is a step boundary: a run is any interleaving of the handlers, timers and suspended continuations.

| file | what it models |
|---|---|
| `BridgeProtocol.dfy` | the serial bridge's byte-at-a-time frame reader and its one-level resync |
| `ConnectionTables.dfy`, `RelaySession.dfy` | relay sessions of the phone client that runs both Bluetooth roles |
| `SingleRoleRelay.dfy` | the same session discipline in the client that only connects outwards |
| `ConnectConfirm.dfy` | one outbound connection attempt, confirmed by tagged events |
| `Fragments.dfy`, `Reassembly.dfy`, `ReassemblyRuns.dfy` | fragmentation and reassembly, in the Wi-Fi and the phone-link variant |
| `QuotedPrintable.dfy`, `Lines.dfy`, `SmtpData.dfy` | what the e-mail relay writes to a connection against the SMTP server that receives it |
| `CdataScan.dfy` | the feed parser's tag scanner, which jumps over CDATA sections |
| `FifoMaps.dfy`, `BoundedMaps.dfy`, `RateLimiter.dfy` | the bounded map and the two-layer rate limiter built on it |
| `RowLocks.dfy`, `NodeAssignment.dfy`, `MeshIdentityStore.dfy` | row-locked transactions: node assignment with its audit chain, once-only mesh identities |
| `CommandPoller.dfy` | the box's command queue with its give-up age |
| `DeliveryDedup.dfy` | the reservation around an asynchronous send, shared by the three relays |
| `NewsSync.dfy` | overlapping feed synchronisations with capped announcements |
| `Sha256.dfy` | the phone's SHA-256 in signed 32-bit arithmetic against FIPS 180-4 |
| `Wrappers.dfy`, `Bits.dfy`, `Arithmetic.dfy` | options, bytes, bitwise operations, rounded-up division |

Where the code and its documentation differ, the model follows the code:

- The bridge header promises that every byte of a failed record is rescanned. The 8-bit record counter
  keeps that promise exactly up to 252 payload bytes (`FullRescanExactlyUpTo252`).
- Soft line breaks are meant to keep section 6.7 of RFC 2045's limit of 76 octets. The `=` appended after a
  cut at 76 makes 77; the limit is kept exactly when every cut meets an escape (`WidthLimitExactly`).
- The 4096-byte cap of the Wi-Fi reassembler counts first arrivals only. A longer repeat can return more
  (`CapCanBeExceeded`); the exact size is `RequestSize`, and the cap holds exactly under the condition of
  `CapHoldsExactly`.
- A per-peer budget of 0 still lets the first request of each window through; for every other budget a
  tracked caller keeps to it (`ZeroBudgetServesExactly`). Over whole runs it does exactly if the map has room
  for all callers (`PerPeerExactlyUpToMax`).
- A rejected request opens a new mesh window when the last one is over (`RejectionIsFree`). So, with a real
  clock, twice the mesh budget fits into one window length exactly if one caller can use up its own budget
  before the mesh's is used up and be remembered, as with the defaults (`TwiceTheBudgetHappens`).
- The outward-only relay client takes its list of devices to disconnect after an await, and disconnects
  after another one in its cleanup: a session begun meanwhile can lose a live link
  (`OvertakenTeardownSeversLiveLink`, `LateCleanupSeversLiveLink`), exactly under the conditions of
  `LiveLinkIsSeveredExactly`, and never in the runs of `OrderlyRunsSeverNothingLive`. The two-role client
  cannot (`NoLiveLinkIsSevered`).
- Data callbacks of an older session have no session check in either client: a HELLO that one of them
  delivers identifies a waiting record of the live session (`StaleStepsAreInvisible`,
  `StaleTurnsAreInvisible`; runs in which it happens are `StaleHelloIdentifies` of both modules).
- An activation of the outward-only client stores the handle of its scan interval without a session check.
  Late back from its scan it overwrites a newer session's, whose interval then outlives that session, exactly
  under the condition of `IntervalLeaksExactly` (a run is `IntervalLeaks`); it never scans again
  (`LeakedIntervalRunsOn`).
- A disconnect event names only its device: reported late, it drops a newer record of that device and
  direction, exactly if there is one (`LateDisconnectDropsNewerExactly`).
- A feed of more than 512 emergencies is announced again and again: without repetition exactly up to 512
  (`NeverRepeatedExactlyUpTo512`). One of more than 4096 items reports unchanged ones as changed: nothing new
  exactly up to 4096 (`NothingNewExactlyUpTo4096`).
- A node's first assignment has no row to lock, so its audit entries may not join up
  (`FirstAssignmentCanLoseHistory`); `AuditChain` says exactly which entries do not.
- A request answered as a duplicate can be one whose send still fails (`DuplicateAnswerIsNoReceipt`); when
  the answer means delivered is `DuplicateMeansDeliveredExactly`. A key is sent at most once exactly as long
  as the map has a slot for every key (`SentOnceExactlyUpToMax`).
- The SMTP server cuts an envelope address at its first ">" (`AddressIsExtracted`).

## Model

| member | source | states |
|---|---|---|
| BridgeProtocol.ChecksumDetectsOneByte | firmware/sx126x-bridge/bridge_protocol.cpp:3-7 | changing any one payload byte changes the checksum |
| BridgeProtocol.WireLayout | firmware/sx126x-bridge/bridge_protocol.cpp:3-17 | on the wire: marker, type, length, payload, and last the exclusive or of everything between marker and itself |
| BridgeProtocol.ChecksumCoversTheWire | firmware/sx126x-bridge/bridge_protocol.cpp:3-17 | with any single byte between marker and checksum damaged, type and length included, the checksum no longer fits |
| BridgeProtocol.XorIsParity | firmware/sx126x-bridge/bridge_protocol.cpp:4-5 | each binary digit of the checksum is the parity of that digit over the bytes |
| BridgeProtocol.ComputeBridgeChecksum | firmware/sx126x-bridge/bridge_protocol.cpp:3-7 | the loop over the payload array computes the checksum function |
| BridgeProtocol.EncodeBridgeFrame | firmware/sx126x-bridge/bridge_protocol.cpp:9-17 | the buffer starts with exactly the encoded frame and is unchanged after it |
| BridgeProtocol.StepConsumes | firmware/sx126x-bridge/bridge_protocol.cpp:19-54 | the automaton holds exactly the bytes of the record in progress, and a completed frame is the encoding of what it consumed |
| BridgeProtocol.EveryReportIsASlice | firmware/sx126x-bridge/bridge_protocol.cpp:56-99 | for every input, the reported frames are valid encoded slices of it, disjoint and in order, for every length byte |
| BridgeProtocol.EveryFrameIsReported | firmware/sx126x-bridge/bridge_protocol.cpp:9-99 | encoded frames separated by noise without SOF bytes are reported exactly, each on its last byte |
| BridgeProtocol.FrameFinishes | firmware/sx126x-bridge/bridge_protocol.cpp:19-54 | a reader that has taken the first k bytes of a frame delivers it on its last byte |
| BridgeProtocol.FullRescanExactlyUpTo252 | firmware/sx126x-bridge/bridge_protocol.cpp:56-99 | after a mismatch the push equals the plain automaton on the failed record, for all records, if and only if the length is at most 252 |
| BridgeProtocol.LostCommand | firmware/sx126x-bridge/bridge_protocol.cpp:75-82 | for lengths 253 to 255 a concrete record whose embedded command a full rescan delivers and the firmware drops |
| BridgeProtocol.SwallowedCommandIsDelivered | firmware/sx126x-bridge/bridge_protocol.h:66-79 | a corrupted length that swallows the start of the next command does not lose it: it is delivered on its own last byte |
| BridgeProtocol.BridgeFrameReader.constructor | firmware/sx126x-bridge/bridge_protocol.h:80-98 | a new reader is idle with an empty history |
| BridgeProtocol.BridgeFrameReader.Transition | firmware/sx126x-bridge/bridge_protocol.cpp:19-54 | the fields follow the plain automaton, and the output changes only when a frame completes |
| BridgeProtocol.BridgeFrameReader.PushByte | firmware/sx126x-bridge/bridge_protocol.cpp:56-99 | the reader follows the run of its whole input history and answers true exactly when that run reports |
| BridgeProtocol.BridgeFrameReader.WriteRecord | firmware/sx126x-bridge/bridge_protocol.cpp:75-80 | the snapshot written through the wrapping 8-bit index leaves what the rescan addresses |
| BridgeProtocol.BridgeFrameReader.Rescan | firmware/sx126x-bridge/bridge_protocol.cpp:82-98 | the replay loop equals the plain automaton on the addressed bytes, stopped at its first completion or mismatch |
| ConnectionTables.EvictionIsOldestFirst | mobile/www/ble-dual-role-client.js:496-500 | at capacity, and only then, exactly the longest-standing inbound entry is evicted |
| RelaySession.RunsKeepInvariant | mobile/www/ble-dual-role-client.js:475-849 | every interleaving of activations, deactivations, events, timers and continuations keeps the session invariant |
| RelaySession.ActiveSessionOwnsItsState | mobile/www/ble-dual-role-client.js:690-701 | while active, table, seen cache, GATT queue and records belong to the current session; at most 7 outbound and 7 inbound entries |
| RelaySession.StaleStepsAreInvisible | mobile/www/ble-dual-role-client.js:510-681 | nothing an older session left behind inserts, deletes, clears, disconnects or unregisters anything of a live one; its unguarded data listeners change a live record exactly when they deliver a HELLO that the device's tracked record of that direction waits for, and then identify only that record |
| RelaySession.StaleHelloIdentifies | mobile/www/ble-dual-role-client.js:669-681 | a run in which a data listener of an older session identifies a record of the live one |
| RelaySession.OwnRecordOnly | mobile/www/ble-dual-role-client.js:475-485 | a resumed attempt or timer removes at most its own record, even if the device is tracked again |
| RelaySession.NoLiveLinkIsSevered | mobile/www/ble-dual-role-client.js:806-825 | a native disconnect is only issued for a device that no live session tracks |
| RelaySession.PeersAreFinal | mobile/www/ble-dual-role-client.js:424-447 | a record's peer, once set, is the same after every later run |
| RelaySession.RunningSessionKeepsItsRadio | mobile/www/ble-dual-role-client.js:764-849 | no older teardown takes down a running session's listeners, service, advertising or scan |
| RelaySession.AttemptsEndWithoutLeak | mobile/www/ble-dual-role-client.js:510-559 | no event sends an attempt back, each resumption brings it closer to its end, and an ended attempt leaves its record identified or untracked |
| RelaySession.InboundTimerFreesSlot | mobile/www/ble-dual-role-client.js:607-647 | an unidentified inbound record is under a running timer, which frees it |
| RelaySession.HandshakeIdentifies | mobile/www/ble-dual-role-client.js:510-576 | an active session with room connects a scanned device and identifies it by its HELLO |
| RelaySession.InboundIsIdentified | mobile/www/ble-dual-role-client.js:607-647 | in every active session that hears it, a central that connects and sends its HELLO is tracked and identified with its timer off; all earlier records stay, except the oldest inbound one of seven |
| RelaySession.FailedAttemptDisconnectsExactly | mobile/www/ble-dual-role-client.js:475-559 | an attempt that fails is over and untracked, and its device is disconnected exactly if its record still held the slot |
| RelaySession.FailedHelloEndsAttempt | mobile/www/ble-dual-role-client.js:532-559 | a HELLO that fails or times out ends the attempt at its next resumption |
| RelaySession.IdentifiedAttemptEnds | mobile/www/ble-dual-role-client.js:532-559 | once its HELLO has come, an attempt of the current session ends without touching anything else |
| RelaySession.ActivationCompletes | mobile/www/ble-dual-role-client.js:690-762 | left alone, an activation makes all its native calls and is up with an empty table of its own |
| RelaySession.ActivationOrder | mobile/www/ble-dual-role-client.js:709-757 | on the way, listeners come before the service, the service before advertising, advertising before the scan |
| RelaySession.OvertakenActivationEnds | mobile/www/ble-dual-role-client.js:664-716 | an overtaken activation registers the rest of its six listeners and then ends, touching nothing else |
| RelaySession.FailedActivationSwitchesOff | mobile/www/ble-dual-role-client.js:758-761 | a failed native call ends its activation, and switches the relay off exactly if no newer session has begun |
| RelaySession.TeardownCompletes | mobile/www/ble-dual-role-client.js:764-849 | left alone, a deactivation stops the scan, advertising, the service, in this order, disconnects exactly the tracked outbound devices in order, removes the listeners and then clears the session's variables |
| RelaySession.DeactivationWithoutPlugin | mobile/www/ble-dual-role-client.js:764-849 | without a plugin the session is off and cleared at once |
| RelaySession.DisconnectEventFreesSlot | mobile/www/ble-dual-role-client.js:595-599 | a disconnect event of the current session frees its device's slot of that direction, and only it |
| RelaySession.LateDisconnectDropsNewerExactly | mobile/www/ble-dual-role-client.js:595-660 | over every run, the event that reports the end of a record's link drops another record if and only if a newer one of that device and direction is tracked |
| RelaySession.DualRoleClient.constructor | mobile/www/ble-dual-role-client.js:180-203 | the module starts inactive, with an empty table and nothing pending |
| RelaySession.DualRoleClient.ActivateRelay | mobile/www/ble-dual-role-client.js:690-711 | a fresh session with a fresh table, cache and queue, and its first native call |
| RelaySession.DualRoleClient.ResumeActivation | mobile/www/ble-dual-role-client.js:709-762 | goes on with the next native call only for the latest session; a failure switches off only its own session |
| RelaySession.DualRoleClient.DeactivateRelay | mobile/www/ble-dual-role-client.js:764-790 | switches off, takes a new session number and starts its teardown |
| RelaySession.DualRoleClient.ResumeDeactivation | mobile/www/ble-dual-role-client.js:786-849 | each teardown step, and the final clearing, happens only while no newer session has begun |
| RelaySession.DualRoleClient.DisconnectOutbound | mobile/www/ble-dual-role-client.js:816-833 | the disconnect loop goes on to its next outbound entry, or to removing the listeners |
| RelaySession.DualRoleClient.CountOutbound | mobile/www/ble-dual-role-client.js:569-569 | the loop counts the outbound entries |
| RelaySession.DualRoleClient.HandleDeviceScanned | mobile/www/ble-dual-role-client.js:562-576 | reserves a slot for an untracked device while there is outbound room |
| RelaySession.DualRoleClient.HandleDeviceDisconnected | mobile/www/ble-dual-role-client.js:595-599 | drops the device's outbound entry, for the current session only |
| RelaySession.DualRoleClient.EvictOldestInbound | mobile/www/ble-dual-role-client.js:496-500 | collects the inbound entries and removes the first when there are seven |
| RelaySession.DualRoleClient.HandleCentralConnected | mobile/www/ble-dual-role-client.js:607-647 | makes room, reserves an inbound slot and arms its HELLO timer |
| RelaySession.DualRoleClient.HandleCentralDisconnected | mobile/www/ble-dual-role-client.js:656-660 | drops the device's inbound entry, for the current session only |
| RelaySession.DualRoleClient.HandleHello | mobile/www/ble-dual-role-client.js:424-447 | identifies a tracked, waiting record once |
| RelaySession.DualRoleClient.CleanupConnection | mobile/www/ble-dual-role-client.js:475-485 | removes and disconnects a record only if it still holds its slot |
| RelaySession.DualRoleClient.ResumeConnectToPeer | mobile/www/ble-dual-role-client.js:510-559 | checks the session after each await and cleans up when it has ended |
| RelaySession.DualRoleClient.RejectHello | mobile/www/ble-dual-role-client.js:532-551 | a timeout or failed HELLO disarms the record and queues its failure |
| RelaySession.DualRoleClient.FireHelloTimer | mobile/www/ble-dual-role-client.js:620-630 | frees the slot only for its own session and its own record |
| RelaySession.DualRoleClient.Turn | mobile/www/ble-dual-role-client.js:475-849 | after any sequence of turns the client's variables are those of the run of its history |
| SingleRoleRelay.ActiveSessionOwnsItsState | mobile/www/ble-client.js:625-757 | while active, table and seen cache are the session's own, at most 7 devices, and no slot leaks |
| SingleRoleRelay.ActivationCompletes | mobile/www/ble-client.js:664-696 | left alone, an activation is up with an empty table, its scan callback registered and its interval running; each tick stops the scan and starts a new one, and a scan that fails to start is retried |
| SingleRoleRelay.FailedActivationSwitchesOff | mobile/www/ble-client.js:679-690 | a failed initialization switches the relay off exactly if no newer session has begun, and starts nothing |
| SingleRoleRelay.HandshakeIdentifies | mobile/www/ble-client.js:580-636 | a scanned device gets a slot exactly if fewer than seven are tracked and not this one; it then connects and its HELLO identifies it |
| SingleRoleRelay.DroppedFreesItsSlot | mobile/www/ble-client.js:545-549 | the disconnect callback drops its own record, if tracked, and no other |
| SingleRoleRelay.FailedAttemptDisconnectsExactly | mobile/www/ble-client.js:528-542 | an attempt that fails is over and untracked, and after one more await its device is disconnected exactly if its record still held the slot |
| SingleRoleRelay.FailedHelloEndsAttempt | mobile/www/ble-client.js:592-620 | a HELLO that fails or times out ends the attempt at its next resumption |
| SingleRoleRelay.IdentifiedAttemptEnds | mobile/www/ble-client.js:612-617 | once its HELLO has come, an attempt of the current session ends without touching anything else |
| SingleRoleRelay.TeardownCompletes | mobile/www/ble-client.js:712-757 | left alone, a deactivation stops the scan and the interval, disconnects exactly the tracked devices in order, and then clears the session's variables |
| SingleRoleRelay.DeactivationWithoutPlugin | mobile/www/ble-client.js:712-757 | without a plugin the session is off and cleared at once |
| SingleRoleRelay.StaleTurnsAreInvisible | mobile/www/ble-client.js:455-695 | nothing of an older session changes a live one's records, attempts, scan callback, table, seen cache or flags, except that its notification callback identifies a record exactly when that record waits for the HELLO it delivers, and that its activation puts its own interval into `scanRefreshTimer` exactly when it comes back from its scan |
| SingleRoleRelay.StaleHelloIdentifies | mobile/www/ble-client.js:588-591 | a run in which a notification callback of an older session identifies a record of the live one |
| SingleRoleRelay.IntervalLeaksExactly | mobile/www/ble-client.js:692-719 | a deactivation leaves its session's interval running if and only if an older activation's scan call came back after that session had set its interval |
| SingleRoleRelay.LeakedIntervalRunsOn | mobile/www/ble-client.js:693-695 | an interval so left runs for ever and never scans again |
| SingleRoleRelay.IntervalLeaks | mobile/www/ble-client.js:692-719 | a run in which an interval is left running |
| SingleRoleRelay.TeardownListIsItsOwnExactlyWhenNotOvertaken | mobile/www/ble-client.js:724-734 | the records a teardown's list is made from are of the sessions it ends if and only if no later activation has put its table in place |
| SingleRoleRelay.LiveLinkIsSeveredExactly | mobile/www/ble-client.js:528-745 | every native disconnect of every run: a teardown's hits a device a live session tracks only if a newer session has begun, a cleanup's if and only if a record made since the cleanup began holds the slot |
| SingleRoleRelay.OrderlyRunsSeverNothingLive | mobile/www/ble-client.js:528-745 | with no activation during a teardown no teardown severs a live link, and with no scan result for a device being cleaned up no cleanup does |
| SingleRoleRelay.OvertakenTeardownSeversLiveLink | mobile/www/ble-client.js:712-745 | a run in which a teardown disconnects a device of the session begun meanwhile |
| SingleRoleRelay.LateCleanupSeversLiveLink | mobile/www/ble-client.js:528-542 | a run in which a cleanup disconnects a device found again meanwhile |
| SingleRoleRelay.RelayClient.ResumeIssueScan | mobile/www/ble-client.js:648-660 | a superseded session never registers its scan callback |
| SingleRoleRelay.RelayClient.StartInterval | mobile/www/ble-client.js:692-695 | the interval is set and its handle stored, whatever the session |
| SingleRoleRelay.RelayClient.ClearInterval | mobile/www/ble-client.js:716-719 | only the interval whose handle is stored is cleared |
| SingleRoleRelay.RelayClient.ResumeDeactivation | mobile/www/ble-client.js:724-757 | snapshot, per-device calls and guarded final clearing |
| SingleRoleRelay.RelayClient.DeviceIds | mobile/www/ble-client.js:734-734 | the snapshot lists the table's devices in order |
| SingleRoleRelay.RelayClient.HandleScanResult | mobile/www/ble-client.js:625-636 | reserves a slot for an untracked device while fewer than seven are tracked |
| SingleRoleRelay.RelayClient.HandlePeerDisconnected | mobile/www/ble-client.js:545-549 | drops the record the callback was given, if it still holds its slot |
| SingleRoleRelay.RelayClient.HandleHello | mobile/www/ble-client.js:455-481 | a record's registered notification callback identifies the device's tracked, waiting record once |
| SingleRoleRelay.RelayClient.CleanupConnection | mobile/www/ble-client.js:528-535 | removes a record only if it still holds its slot, and then awaits |
| SingleRoleRelay.RelayClient.ResumeConnectToPeer | mobile/www/ble-client.js:580-622 | checks the session after each await and cleans up when it has ended |
| SingleRoleRelay.RelayClient.On | mobile/www/ble-client.js:528-757 | after any sequence of turns the client's variables are those of the run of its history |
| ConnectConfirm.SettlesOnce | mobile/www/ble-dual-role-client.js:287-293 | once settled, no later event changes the outcome |
| ConnectConfirm.TimeoutSettles | mobile/www/ble-dual-role-client.js:295-295 | until it settles the timer runs, and the timer settles it |
| ConnectConfirm.ResolvesOnlyForItsDevice | mobile/www/ble-dual-role-client.js:304-311 | it resolves if and only if what settles it is the connected event of its own device |
| ConnectConfirm.SettledExactlyBy | mobile/www/ble-dual-role-client.js:287-331 | an open call is settled by exactly its timer, an event of its own device, a denied registration or its rejected connect |
| ConnectConfirm.ListenersAreRemovedOnce | mobile/www/ble-dual-role-client.js:280-321 | once everything has settled, each registered listener has been removed exactly once |
| ConnectConfirm.ConnectUnderBothListeners | mobile/www/ble-dual-role-client.js:311-326 | connect is issued at most once, and only with both listeners registered |
| ConnectConfirm.Attempt.On | mobile/www/ble-dual-role-client.js:274-331 | the call's variables follow the history of its callbacks |
| ConnectConfirm.Attempt.FinishWith | mobile/www/ble-dual-role-client.js:287-293 | settles once, stops the timer and removes the stored listeners |
| ConnectConfirm.Attempt.Capture | mobile/www/ble-dual-role-client.js:311-326 | stores the handles, and removes, rejects or connects |
| Fragments.Fragmenter.FragmentBytes | nomad-hub/wifi-gatt-protocol.ts:68-93 | rejects exactly an unusable MTU or too many fragments; otherwise numbered pieces within the MTU under a rolling id |
| Fragments.ConcatChunks | nomad-hub/wifi-gatt-protocol.ts:80-92 | the pieces joined give the bytes back |
| Fragments.ChunkCount | nomad-hub/wifi-gatt-protocol.ts:73-73 | there are ceil(length / size) pieces, one for no bytes |
| Fragments.ParseWire | nomad-hub/wifi-gatt-protocol.ts:127-135 | the receiver's header parse undoes the sender's header |
| Fragments.ParseExactly | nomad-hub/wifi-gatt-protocol.ts:127-135 | exactly the wires of a valid index and total parse as fragments, each to its own fields; everything else is malformed |
| Fragments.WireLayout | nomad-hub/wifi-gatt-protocol.ts:80-92 | the header is the message id, then index and total with their high bytes first |
| Reassembly.FragmentReassembler.AddFragment | nomad-hub/wifi-gatt-protocol.ts:126-179 | one fragment, malformed ones included, changes the table as the specification says |
| Reassembly.JoinParts | nomad-hub/wifi-gatt-protocol.ts:162-177 | the joining loop returns all parts in index order, or nothing if one is missing |
| Reassembly.AddKeepsBounds | nomad-hub/wifi-gatt-protocol.ts:126-160 | slots, indices, chunk counts and counted bytes stay within their bounds for any input |
| Reassembly.RejectedChangesNothing | nomad-hub/wifi-gatt-protocol.ts:127-151 | a malformed fragment, or one with another total, leaves every partial message as it was |
| Reassembly.EntryLeavesExactly | nomad-hub/wifi-gatt-protocol.ts:137-168 | a partial message leaves the table exactly if its fragment completes it or exceeds the cap, or if it is the oldest of a full table and a new message comes; all others are unchanged |
| Reassembly.AcceptedExactly | nomad-hub/wifi-gatt-protocol.ts:137-178 | what an accepted fragment returns, and the table it leaves |
| Reassembly.AddKeepsOrder | nomad-hub/wifi-gatt-protocol.ts:137-144 | the messages that stay keep their order of arrival, and a new one comes last |
| ReassemblyRuns.RunsKeepBounds | nomad-hub/wifi-gatt-protocol.ts:126-178 | the same over every sequence of byte strings |
| ReassemblyRuns.EntriesAreHistory | nomad-hub/wifi-gatt-protocol.ts:137-160 | an entry holds the latest payload per index of its own id and total since it was made, and counts the first arrivals |
| ReassemblyRuns.MessageIsHistory | nomad-hub/wifi-gatt-protocol.ts:159-178 | a returned message uses only fragments of one id and one total since its entry was made |
| ReassemblyRuns.RequestSize | nomad-hub/wifi-gatt-protocol.ts:152-159 | a returned request is exactly its counted bytes, at most 4096, plus what repeats added |
| ReassemblyRuns.CapHoldsExactly | nomad-hub/wifi-gatt-protocol.ts:152-159 | if no repeat is longer than what it replaces, a returned request is within 4096 bytes; in general exactly if counted bytes and growth together are |
| ReassemblyRuns.CapCanBeExceeded | nomad-hub/wifi-gatt-protocol.ts:152-159 | a run of three fragments that returns 5001 bytes |
| ReassemblyRuns.RoundTrip | mobile/www/ble-link.js:130-218 | over every allowed run, with any malformed or mismatching writes in between, each message is returned exactly once, on its last missing fragment, and nothing else ever is |
| ReassemblyRuns.SentBytesAreReturned | nomad-hub/wifi-gatt-protocol.ts:68-179 | what is returned is byte for byte what the sender was given |
| ReassemblyRuns.RequestCharacteristic.WriteValue | nomad-hub/wifi-gatt-server.ts:277-292 | each device's writes go to its own table, the oldest device making room |
| ReassemblyRuns.DevicesAreIsolated | nomad-hub/wifi-gatt-server.ts:277-292 | every device's table is the one its own writes alone would give |
| ReassemblyRuns.DeviceLeavesExactly | nomad-hub/wifi-gatt-server.ts:277-292 | a device loses its table exactly if it is the oldest of eight and a ninth writes; the others keep theirs, in order |
| Lines.SplitJoin | email-relay/fake-smtp-server.ts:127-135 | lines without CR and LF survive joining and splitting |
| Lines.SplitResumes | email-relay/fake-smtp-server.ts:127-135 | splitting does not depend on how the text was cut into chunks |
| QuotedPrintable.SoftWrapQuotedPrintable | email-relay/smtp-client.ts:92-104 | the loop terminates with the specified segments |
| QuotedPrintable.QuotedPrintableEncodeLine | email-relay/smtp-client.ts:78-89 | the loop over the octets gives the specified encoded line |
| QuotedPrintable.EscapeIsWellFormed | email-relay/smtp-client.ts:78-89 | escaped text decodes to its octets and does not end in a blank |
| QuotedPrintable.EscapesOnlyWhatItMust | email-relay/smtp-client.ts:78-89 | printable ASCII but "=", and blanks not at the end, stand for themselves; every other octet, and no other, takes three |
| QuotedPrintable.Utf8IsReadBack | email-relay/smtp-client.ts:79-79 | reading the octets by section 3 of RFC 3629 gives back each character, an unpaired surrogate as U+FFFD |
| QuotedPrintable.CutIsOutsideEscape | email-relay/smtp-client.ts:95-101 | no soft break splits an escape |
| QuotedPrintable.WrappedLines | email-relay/smtp-client.ts:92-104 | no wrapped line ends in a blank or exceeds 77 octets |
| QuotedPrintable.WidthLimitExactly | email-relay/smtp-client.ts:92-104 | all lines are within 76 octets if and only if every cut meets an escape |
| QuotedPrintable.PlainLinesOverflow | email-relay/smtp-client.ts:95-99 | every unescaped line longer than 76 is sent with a first line of 77 |
| QuotedPrintable.Utf8KeepsLines | email-relay/smtp-client.ts:116-121 | splitting into lines before or after UTF-8 encoding is the same |
| QuotedPrintable.DecodeEncode | email-relay/smtp-client.ts:116-121 | decoding by section 6.7 of RFC 2045 gives the text's UTF-8 octets with CRLF line ends |
| SmtpData.HeadersAreSingleLines | email-relay/smtp-client.ts:53-57 | guarded header values cannot start another line |
| SmtpData.HeadersAreRead | email-relay/smtp-client.ts:123-135 | a reader of header fields finds in the header block exactly the addresses, subject, date and identifier the message was given, and how its body is encoded |
| SmtpData.SendsExactly | email-relay/smtp-client.ts:245-248 | a message is sent exactly if neither address nor its subject holds a CR or an LF |
| SmtpData.WireLinesOf | email-relay/smtp-client.ts:123-135 | the wire text is the headers, an empty line, the stuffed body lines and the terminator, whichever terminator was chosen |
| SmtpData.MessageIsStored | email-relay/fake-smtp-server.ts:137-205 | the server leaves the data state exactly at the client's terminator and stores the body up to one trailing CRLF |
| SmtpData.StoredBodyDecodes | email-relay/fake-smtp-server.ts:188-205 | decoding the stored body gives the text, up to one trailing CRLF |
| SmtpData.SessionIsStored | email-relay/smtp-client.ts:245-287 | all the client writes on one connection, from EHLO to QUIT, makes the server store exactly that message, or nothing after a refused login or a rejection |
| SmtpData.AnyChunking | email-relay/fake-smtp-server.ts:107-205 | the same on the connection object, however the octets are cut: what it holds is the message with its own envelope if and only if neither address has a ">" |
| SmtpData.AddressIsExtracted | email-relay/fake-smtp-server.ts:210-213 | the server reads an address back if and only if it has no ">" |
| SmtpData.AddressIsBetween | email-relay/fake-smtp-server.ts:210-213 | the address taken is what lies between the first "<" and the next ">", nothing if either is missing |
| SmtpData.CaseIsIgnored | email-relay/fake-smtp-server.ts:149-149 | commands are recognized in any mixture of cases |
| SmtpData.FakeSmtpConnection.constructor | email-relay/fake-smtp-server.ts:107-112 | a connection starts greeted with nothing received |
| SmtpData.FakeSmtpConnection.OnData | email-relay/fake-smtp-server.ts:127-135 | for every chunking the state is that of the complete lines received so far |
| SmtpData.FakeSmtpConnection.HandleLine | email-relay/fake-smtp-server.ts:137-186 | one line, in the data state or as a command |
| SmtpData.FakeSmtpConnection.FinishDataStage | email-relay/fake-smtp-server.ts:188-205 | splits header block from body and stores the message, unless a failure was armed |
| CdataScan.FindCdataSpans | gateway/local-services/rss-feed.ts:201-216 | the spans are ordered, disjoint and exactly the characters a reader going one by one finds inside sections |
| CdataScan.FindSpanContaining | gateway/local-services/rss-feed.ts:219-230 | the binary search finds the span around an index if and only if there is one |
| CdataScan.ExecOutsideCdata | gateway/local-services/rss-feed.ts:244-253 | the jumping search returns what the naive scan of every position returns |
| CdataScan.MatchAllOutsideCdata | gateway/local-services/rss-feed.ts:256-266 | all matches of the naive scan, left to right |
| CdataScan.MatchesAreDisjoint | gateway/local-services/rss-feed.ts:256-266 | the matches listed are outside every section, in order, and do not overlap |
| CdataScan.EveryMatchIsCovered | gateway/local-services/rss-feed.ts:256-266 | every match outside sections starts within a listed one |
| CdataScan.FindClosingTag | gateway/local-services/rss-feed.ts:269-272 | the first closing tag outside every section |
| CdataScan.MatchAllTagBlocks | gateway/local-services/rss-feed.ts:293-309 | terminates with the naive blocks and their texts |
| CdataScan.BlocksAreDisjoint | gateway/local-services/rss-feed.ts:293-309 | blocks are disjoint and increasing, both their tags start outside every section, and each ends with its first closing tag |
| CdataScan.NoTagIsMissed | gateway/local-services/rss-feed.ts:293-309 | an opening tag outside sections lies in a block unless it follows one that nothing closes any more |
| BoundedMaps.SetKeepsBound | node/src/bounded-map.ts:62-74 | the size never exceeds the maximum, an existing key evicts nothing, and all other entries survive |
| BoundedMaps.SetKeepsOrder | node/src/bounded-map.ts:62-74 | what stays keeps its place, a new key comes last, and setting an old one does not move it |
| BoundedMaps.LowestIsLowest | node/src/bounded-map.ts:76-92 | the victim has the lowest score, the earliest of equals |
| BoundedMaps.BoundedFifoMap.Put | node/src/bounded-map.ts:62-74 | inserts or overwrites and names the key that had to go |
| BoundedMaps.BoundedFifoMap.PickEvictionCandidate | node/src/bounded-map.ts:76-92 | the scanning loop finds the victim |
| BoundedMaps.BoundedFifoMap.Delete | node/src/bounded-map.ts:50-52 | removes a key and tells whether it was there |
| RateLimiter.OverallBudget | gateway/local-services/internet-gateway.ts:179-200 | with a monotone clock no half-open interval of length L holds more than budget * (ceil(L / window) + 1) accepted requests |
| RateLimiter.TwiceTheBudget | gateway/local-services/internet-gateway.ts:179-200 | at most twice the budget in one window length |
| RateLimiter.RejectionIsFree | gateway/local-services/internet-gateway.ts:179-200 | a rejected request is charged to neither budget, and opens a new mesh window exactly if the last one is over |
| RateLimiter.TwiceTheBudgetHappens | gateway/local-services/internet-gateway.ts:179-200 | for a clock past the epoch's window, twice the budget fits into one window length if and only if the budget is 0, or windows are longer than a millisecond, callers are remembered, and a caller's own budget (at least one request) is below the mesh's |
| RateLimiter.PeerBudgetHolds | gateway/local-services/flatnotes-gateway.ts:230-251 | the same for each caller with its own budget, at least one request, while its entry stays |
| RateLimiter.ZeroBudgetServesExactly | gateway/local-services/internet-gateway.ts:189-197 | every tracked caller keeps to the configured budget in all runs if and only if that is not 0, or nothing is accepted or remembered at all |
| RateLimiter.PerPeerExactlyUpToMax | gateway/local-services/internet-gateway.ts:189-197 | over whole runs, evictions included, no caller of at most n exceeds its budget, whatever the mesh's budget, if and only if n is 0, or the budget is not 0 and n is at most the size of the map |
| RateLimiter.Limiter.CheckRateLimit | gateway/local-services/internet-gateway.ts:179-200 | the method accepts exactly the allowed calls and its fields follow the run |
| NodeAssignment.RowsAndAuditsMatch | mirror-portal/lib/auth-db.ts:100-126 | over every interleaving, whichever statements fail, committed assignments and committed audit entries correspond one to one, and the table is what the entries say |
| NodeAssignment.AuditChain | mirror-portal/lib/auth-db.ts:373-406 | entries of a row that existed name the organization just before them; an entry breaks the chain if and only if its SELECT found no row and another assignment of the node was committed between that SELECT and the entry |
| NodeAssignment.NeighboursJoin | mirror-portal/lib/auth-db.ts:373-406 | of two neighbouring entries of such a row the later names the earlier's organization |
| RowLocks.RowIsLastEntry | mirror-portal/lib/auth-db.ts:387-404 | a row is what the last committed write of it left |
| RowLocks.ReadIsStaleExactly | mirror-portal/lib/auth-db.ts:360-371 | what a committed transaction read is out of date at its commit if and only if its locking read found no row and a write of the row was committed since |
| RowLocks.NoDeadlock | mirror-portal/lib/auth-db.ts:383-397 | while any transaction is open, one of them can go on |
| RowLocks.SelectWaitsExactly | mirror-portal/lib/auth-db.ts:360-371 | a locking read waits exactly while another open transaction has read or written the row, and the row exists |
| RowLocks.BrokenLeavesNothing | mirror-portal/lib/auth-db.ts:100-116 | after a failed statement a transaction can only roll back, and then leaves no row, audit entry or lock |
| NodeAssignment.FirstAssignmentCanLoseHistory | mirror-portal/lib/auth-db.ts:370-371 | a run of the program in which two first assignments overlap and the second names no predecessor |
| RowLocks.Database.BeginTx | mirror-portal/lib/auth-db.ts:103-103 | opens a transaction |
| RowLocks.Database.SelectForUpdate | mirror-portal/lib/auth-db.ts:384-385 | waits for the row's lock and reads the committed value; locks nothing where there is no row |
| RowLocks.Database.WriteRow | mirror-portal/lib/auth-db.ts:387-397 | waits for the lock and keeps the write aside |
| RowLocks.Database.InsertAudit | mirror-portal/lib/auth-db.ts:118-126 | keeps an audit entry aside, on the same transaction |
| RowLocks.Database.CommitTx | mirror-portal/lib/auth-db.ts:105-107 | applies what was kept aside and releases the lock; a failed one applies nothing |
| RowLocks.Database.RollbackTx | mirror-portal/lib/auth-db.ts:108-114 | drops what was kept aside and releases the lock |
| MeshIdentityStore.EveryCallReturnsTheSame | mirror-portal/lib/mesh-identity-store.ts:23-49 | all calls that return for one user give the same identity, the one in the row |
| MeshIdentityStore.KeysChangeOnce | mirror-portal/lib/mesh-identity-store.ts:38-47 | a call committed after another for the same user finds the keys that one returned and writes nothing |
| CommandPoller.Poller.FetchPendingCommands | arald-backend/command-poller.ts:58-64 | the oldest pending commands in order, at most twenty |
| CommandPoller.Poller.PollAndDeliverCommands | arald-backend/command-poller.ts:148-179 | one tick settles exactly the fetched commands; the three counts add up to them and match the status changes |
| CommandPoller.OutcomeHasAReason | arald-backend/command-poller.ts:123-177 | delivered exactly on 200 to 299; failed exactly on 400, 413, 422 or past 24 hours; still pending exactly on anything else |
| CommandPoller.TerminalNeverReverts | arald-backend/command-poller.ts:66-72 | delivered and failed are final over every run |
| CommandPoller.TickClears | arald-backend/command-poller.ts:152-177 | a tick clears twenty of the commands ahead of an expired one |
| CommandPoller.ExpiredCommandsEnd | arald-backend/command-poller.ts:27-39 | a command older than 24 h with r pending ones ahead is terminal after floor(r / 20) + 1 completed ticks, whatever the node answers |
| DeliveryDedup.AtMostOnce | email-relay/server.ts:124-171 | for a key never evicted, over every interleaving at most one send is under way and at most one succeeds |
| DeliveryDedup.AnswersExactly | email-relay/server.ts:124-159 | a request is a duplicate exactly while its key is reserved, readable or not; otherwise an unreadable one is refused and reserves nothing |
| DeliveryDedup.RoomMeansNoEviction | email-relay/server.ts:69-69 | with a slot for every key of the run nothing is evicted |
| DeliveryDedup.ReleasedByItsReserver | webhook-relay/server.ts:180-189 | only the request that reserved a key takes it back, after its failed send, and the key is then free |
| DeliveryDedup.FailureIsRetryable | whatsapp-relay/server.ts:161-170 | after a failed send, whatever else happens, the next request for the key is sent |
| DeliveryDedup.DuplicateMeansDeliveredExactly | email-relay/server.ts:124-171 | over every run a duplicate answer repeats a success or a send under way; for a key never evicted it means delivered if and only if no send of the key is under way |
| DeliveryDedup.DuplicateAnswerIsNoReceipt | email-relay/server.ts:125-128 | a duplicate can be answered 200 and nothing be delivered |
| DeliveryDedup.SentOnceExactlyUpToMax | email-relay/server.ts:124-171 | for every map size, runs over at most n keys send each at most once if and only if n is at most the size |
| DeliveryDedup.RelayServer.Route | email-relay/server.ts:124-159 | the request is answered as a duplicate, refused, or reserved and sent |
| DeliveryDedup.RelayServer.AfterSend | email-relay/server.ts:160-171 | the reservation stays after a success and goes after a failure |
| NewsSync.OnlyTheLatestCommits | gateway/local-services/news-gateway.ts:325-338 | a sync changes anything only if none started after it; syncs commit in order; at most five announcements each |
| NewsSync.LatestSyncCommits | gateway/local-services/news-gateway.ts:325-423 | a sync that no other overtakes does commit its feed, whatever becomes of those before it |
| NewsSync.RunIsItsFeeds | gateway/local-services/news-gateway.ts:325-422 | after every run the gateway stands where its committed feeds have left it, and serves the last of them |
| NewsSync.ReportIsTheChanges | gateway/local-services/news-gateway.ts:376-422 | over every run with at most 4096 ids, a committed sync reports exactly the items whose content is not the one last published under their id, in feed order |
| NewsSync.FirstAndRepeatedFeeds | gateway/local-services/news-gateway.ts:376-422 | the first sync reports its whole feed, a repeated feed reports nothing, so a changed item is reported once |
| NewsSync.NothingNewExactlyUpTo4096 | gateway/local-services/news-gateway.ts:416-419 | all later syncs of an unchanged feed report nothing if and only if it has at most 4096 items |
| NewsSync.EachAnnouncedOnce | gateway/local-services/news-gateway.ts:340-420 | with an unchanged feed every waiting item is announced exactly once, in the sync its place gives it |
| NewsSync.UnchangedFeed | gateway/local-services/news-gateway.ts:340-423 | n at most 512 distinct emergencies are each announced exactly once by ceil(n / 5) committed syncs, and never again |
| NewsSync.NeverRepeatedExactlyUpTo512 | gateway/local-services/news-gateway.ts:395-400 | an unchanged feed is announced without any repetition, for ever, if and only if it has at most 512 emergencies |
| NewsSync.RunIsItsCommits | gateway/local-services/news-gateway.ts:325-339 | overlapping, failing and overtaken syncs of one feed amount to its committed syncs |
| NewsSync.PutInFeed | gateway/local-services/news-gateway.ts:395-400 | announcing an item of such a feed throws out no other entry |
| NewsSync.NewsGateway.StartSync | gateway/local-services/news-gateway.ts:325-327 | a new generation is awaiting its feed |
| NewsSync.NewsGateway.Publish | gateway/local-services/news-gateway.ts:357-420 | one pass of the loop: change tracking and the capped announcement |
| NewsSync.NewsGateway.FinishSync | gateway/local-services/news-gateway.ts:327-423 | a superseded or malformed result changes nothing; the latest one is committed |
| Sha256.PaddingIsStandardExactlyBelow512MiB | mobile/www/ble-identity.js:54-64 | the program's padding is that of section 5.1.1 of FIPS 180-4 if and only if the message is shorter than 2^29 bytes |
| Sha256.PaddingIsInjective | mobile/www/ble-identity.js:57-64 | two messages, of whatever lengths, are never padded alike |
| Sha256.LeastPadding | mobile/www/ble-identity.js:57-57 | the padded length is the least that fits, a multiple of 64 |
| Sha256.ConstantsAreRootsOfPrimes | mobile/www/ble-identity.js:38-47 | each round constant is the first 32 fractional bits of its prime's cube root |
| Sha256.InitialHashIsRootsOfPrimes | mobile/www/ble-identity.js:66-67 | each initial word is the first 32 fractional bits of its prime's square root |
| Sha256.RotRIsRotR | mobile/www/ble-identity.js:49-51 | whatever the signs, the rotation is the standard's |
| Sha256.RotationMovesBits | mobile/www/ble-identity.js:49-51 | a rotation moves the low bits to the top and loses none |
| Sha256.WordIsReadBack | mobile/www/ble-identity.js:71-100 | words are written high byte first and read back |
| Sha256.RoundIs | mobile/www/ble-identity.js:79-89 | one round of signed arithmetic is one round of section 6.2.2 |
| Sha256.NextWordIs | mobile/www/ble-identity.js:72-76 | one signed schedule step is the standard's |
| Sha256.Pad | mobile/www/ble-identity.js:55-64 | the padded array |
| Sha256.PrepareSchedule | mobile/www/ble-identity.js:71-76 | the word array holds the message schedule of its chunk |
| Sha256.Mix | mobile/www/ble-identity.js:78-89 | sixty-four rounds |
| Sha256.HashChunks | mobile/www/ble-identity.js:69-93 | the chunk loop computes the intermediate hash of all blocks |
| Sha256.Sha256 | mobile/www/ble-identity.js:54-100 | below 2^29 bytes the digest is SHA-256; always it is the hash of what was padded |

## Left out

- Sockets, TLS, HTTP routing, the Bluetooth, SPI and D-Bus bindings and the database protocol: a foreign call is a step with an arbitrary outcome.
- Cryptography other than SHA-256: a delivery is readable or not, an identity is a value; encryption and key export are taken to be undone by their inverses.
- JSON, `Date.parse` and the regular expression engine: a regular expression is a table of match lengths by position; `findCdataSpans`'s marker search is modelled.
- Text decoding from UTF-8, entity decoding and field extraction of feeds, and the HTML and command-line surfaces.
- The AUTH check of the SMTP server is a flag, its responses are not modelled, and a message's subject line is not extracted.
- `pendingQueue` of the relay clients: its failed sends requeue into whatever session is current.
- Forwarding, packet classification and the SOS queue of the relay clients; a data packet changes nothing modelled.
- Connection records are values with an identity, their mutable fields maps of the client, so aliasing between records is not modelled. The tables of `RequestCharacteristic` are values likewise.
- The order in which the JavaScript engine runs microtasks: a settled promise's continuation may run at any later step, which allows more interleavings than the engine does.
- A native call takes effect when it is issued; a call caught in flight by a session change, which the source accepts as a residual risk, is not modelled.
- `stopNotifications`: an overtaken teardown of the outward-only client also stops the notifications of each device just before it disconnects it, live ones included.
- Which error a failed database statement reports, and isolation levels other than READ COMMITTED.
- RateLimiter.PeerBudgetHolds: speaks of the requests served since the caller's entry was made, because eviction forgets them; whole runs are `PerPeerExactlyUpToMax`.
- DeliveryDedup.AtMostOnce: holds for keys the bounded map has not evicted, because a forgotten key is sent again (`SentOnceExactlyUpToMax`).
- NewsSync: `generateDigest`, the timers and the content store; publishing is one step per item.
- CommandPoller: the request bodies and error texts; commands queued during a tick are queued after it.
- Login limits of the design tool, pairing, SOS arbitration and the discovery directory.
