# Verified models of a Nostr client library

Dafny models of the parts of the library with the most state, branching and arithmetic, and proofs about
every run, every log, every graph and every byte string. `dafny verify dfyconfig.toml` checks them all.

| file | what it models |
|---|---|
| `RelayConnection.dfy` | connecting, disconnecting and reconnecting of one relay |
| `RelayInbound.dfy` | incoming events: asynchronous validation, buffers per subscription, sorted flushes, the EOSE barrier |
| `RelayStores.dfy` | the bounded stores of latest replaceable and addressable events, and the client's lookup across relays |
| `RelayAcks.dfy` | waiting for an acknowledgement, and the loop over a handler list that shrinks while it runs |
| `ScriptGraph.dfy` | the checker of the npm script graph: cycles and repeated leaf scripts |
| `GroupReducers.dfy`, `GroupLaws.dfy` | the NIP-29 reductions of an event log to members, admins and a membership status, and what they mean pubkey by pubkey |
| `Base64.dfy`, `Nip44.dfy` | the byte layer of NIP-44: base64, padding, payload framing, encryption round trip |
| `Nip19.dfy`, `Nip19Format.dfy` | the TLV entities of NIP-19, and their bytes in literal terms |
| `Bunker.dfy` | the NIP-46 remote signer: request ids, sessions, challenges, signatures |
| `Events.dfy`, `AccessTimes.dfy`, `ByteStrings.dfy`, `Wrappers.dfy` | events and their orders, access times, bytes, options and results |

A component that changes state step by step is a value `State` with a function `Next` for one step and `Run`
for any sequence of steps, and beside it a class with the component's own fields, whose methods are proved to
make exactly those steps (`View() == Next(old(View()), ...)`). The theorems are about `Run`. Callbacks, timers,
promise continuations and validation results are steps of their own that may come in any order; in
`RelayConnection` a callback is cut where it hands control to event handlers, so that handlers may call back
into the relay. Loops over buffers, lists and maps are methods with loops, each proved to compute a function
about which the theorems speak.

Theorems of two kinds stand side by side: what no run may do (invariants, bounds, conservation, what a result goes
back to), and what each step must do, stated as an equivalence over every run without the model's own functions: who
is settled how, when a connection is retried, which request is answered how, who is admin with which roles, which
bytes an entity has.

`Date.now()` is, for access times, a strictly increasing clock, and for the remote signer a clock that never runs
backwards. Event ids are numbers, since the order of 64-digit hex strings is the order of the numbers. Script names
are numbers too, and the order of joined name lists is an arbitrary total order. Elliptic-curve keys, key
derivation, ChaCha20 and HMAC are functions with these laws only: the conversation key is symmetric, ChaCha20 keeps
the length and undoes itself, a MAC has 32 bytes. Bech32 is an inverse pair.

Where a promise of the documentation does not hold of the code, the code is modelled, runs or inputs show the
failure, and a lemma says exactly when the promise is kept:

- `disconnect()` called from a Disconnect handler of a lost live connection is followed by a reconnect
  (`DisconnectIsFinal`, `DisconnectIsFinalUntouched`, `DisconnectInHandlerReconnects`).
- `disconnect()` and `connect()` called from the Disconnect handler of an attempt that never opened can leave that
  `connect()` without an outcome: no timer, event or later call settles it (`TimeoutSettlesExactlyTheCurrent`,
  `HangingConnects`, `ConnectIsLeftHanging`).
- An onEOSE callback that throws leaves the mark behind and is called again (`EoseCallsNeverOutnumberMessages`).
- Of several waiting sends registered for Disconnect in a row, one Disconnect event reaches every other one only; the
  rest wait for their timers (`EventSettlesExactly`, `DisconnectReachesEveryWaiter`, `SecondWaiterIsLeft`).
- The replaceable store keeps the first of several events of equal time, whatever their ids
  (`ReplaceableOrderMatters`).
- After a lookup of the empty pubkey the replaceable store is no longer bounded, until a reset
  (`PubkeyStoreIsBounded`, `EmptyKeyEndsEviction`, `EmptyLookupEndsEviction`).
- The fallback base64 encoder never writes padding (`ManualRoundTrip`).
- Relay URLs of 256 to 512 bytes and identifiers above 255 bytes are encoded with a truncated length, and a kind of
  2^31 or more comes back negative (`ProfileRoundTrip`, `PointerRoundTrip`, `AddressRoundTrip`, `KindRoundTrip`,
  `LongProfileRelayIsLost`, `LongPointerRelayIsLost`, `LongIdentifierIsLost`).
- A put that a newer snapshot superseded still counts as Granted (`GrantedMeansMember`, `SupersededPutIsGranted`).
- A signature awaited while its client leaves is still returned (`ResultComesInSession`,
  `AResultCanComeAfterLeaving`).

## Model

| member | source | states |
|---|---|---|
| `RelayConnection.ConnectedStates` | src/nip01/relay.ts:144-555 | In every run, `connected` implies that a socket is held, and the flush interval is armed exactly while `connected` |
| `RelayConnection.ReconnectAttemptsBounded` | src/nip01/relay.ts:503-555 | In every run with a fixed positive maximum, `reconnectAttempts` never exceeds it |
| `RelayConnection.DisconnectIsFinal` | src/nip01/relay.ts:381-464 | After `disconnect()`, whatever timers, late socket events, timeouts and continuations follow, nothing starts an attempt or sets `connected` until the owner next calls `connect()`; this holds for a state exactly when `disconnect()` is not called from inside the Disconnect event of a lost live connection |
| `RelayConnection.DisconnectIsFinalUntouched` | src/nip01/relay.ts:381-464 | The same over continuations in which the owner makes no call: nothing starts or connects exactly when no lost live connection is being reported, or reconnecting is disabled, or the reconnect budget is used up |
| `RelayConnection.LostLiveRevives` | src/nip01/relay.ts:244-270 | The other half: with such an event under way, some continuation without a call of `connect()`, one in which reconnecting is enabled, starts a new attempt; and, if it is enabled and the budget not used up, some continuation without any call of the owner |
| `RelayConnection.LostConnectionIsReachable` | src/nip01/relay.ts:244-292 | The state in that event is reached by connect, open and close |
| `RelayConnection.DisconnectInHandlerReconnects` | src/nip01/relay.ts:244-270 | The concrete run: `disconnect()` inside the Disconnect handler of a lost connection is followed by a reconnect that ends `connected` |
| `RelayConnection.TimeoutSettlesExactlyTheCurrent` | src/nip01/relay.ts:200-240 | In every run, also when the owner calls from inside handlers: between callbacks the connection timer rejects an unsettled `connect()` exactly when its attempt is the current one, and then the timer is still set |
| `RelayConnection.HangingConnects` | src/nip01/relay.ts:244-265 | In every run an unsettled `connect()` stays unsettled in every continuation exactly when no callback of its attempt is running and `disconnect()` would not reach its finalizer, because that is released or no socket is held |
| `RelayConnection.ConnectIsLeftHanging` | src/nip01/relay.ts:244-265 | The concrete run: `disconnect()` and `connect()` inside the Disconnect handler of an attempt that closed before it opened, and one more `connect()`, leave the inner `connect()` unsettled for ever |
| `RelayConnection.TimeoutSettlesEveryPendingConnect` | src/nip01/relay.ts:200-240 | While the owner calls only between callbacks nothing can be left hanging: every unsettled `connect()` is the current attempt, its connection timer is still set, and the timer going off rejects it |
| `RelayConnection.ConnectInsideHandlers` | src/nip01/relay.ts:144-151 | A `connect()` issued from inside nested handlers keeps its attempt, so that its socket opening connects the relay, exactly when every handler under way is of an open event or of a lost live connection; all others invalidate it when they return |
| `RelayConnection.FailedConnectIsRetried` | src/nip01/relay.ts:332-353 | In every run, when the continuation of a rejected `connect()` runs, it arms a new reconnect timer of the present generation exactly if no `disconnect()` came since the step that began the attempt, reconnecting is enabled and the budget is not used up; a used-up budget leaves no timer, in the other cases the timer stays as it was; it runs once |
| `RelayConnection.ReconnectTimerConnects` | src/nip01/relay.ts:535-552 | In every run a timer is armed only while reconnecting is enabled; enabling it changes no timer; the armed timer going off is used up and counted and, if the relay is neither connected nor connecting, starts exactly one new attempt; any other timer does nothing |
| `RelayConnection.OpenConnects` | src/nip01/relay.ts:276-291 | In every run the opening of the current socket connects the relay, resets the counter, cancels the reconnect timer and resolves its pending `connect()`; any other opening does nothing |
| `RelayConnection.ErrorRejectsTheCurrent` | src/nip01/relay.ts:296-314 | In every run an error event rejects a pending `connect()` exactly if its attempt is the current one, and leaves an open connection as it is |
| `RelayConnection.CloseRejectsTheCurrent` | src/nip01/relay.ts:244-265 | In every run a close event rejects a pending `connect()` exactly if its attempt is the current one; one of a superseded attempt does nothing |
| `RelayConnection.LostConnectionIsRetried` | src/nip01/relay.ts:244-270 | In every run the first close of the live current connection disconnects the relay and then arms a new timer of the present generation exactly if reconnecting is enabled and the budget is not used up |
| `RelayConnection.TimeoutReleasesSocket` | src/nip01/relay.ts:208-240 | In every run, after the timeout of the current pending attempt no socket, promise or finalizer is held |
| `RelayConnection.DisconnectReportsLiveSockets` | src/nip01/relay.ts:381-464 | In every run, between callbacks, `disconnect()` reports a close exactly if a socket and a finalizer are held, and the held finalizer is of an attempt that neither failed nor was closed |
| `RelayConnection.Relay.Connect` | src/nip01/relay.ts:144-200 | `connect()` moves the object to the successor state of the transition system, for a socket that is created or fails to be |
| `RelayConnection.Relay.Disconnect` | src/nip01/relay.ts:381-464 | `disconnect()`: new generation and attempt number, no promise, timer, socket, flush interval or `connected`, then the held close finalizer runs as user-initiated |
| `RelayConnection.Relay.FinalizeClose` | src/nip01/relay.ts:244-252 | A close is handled once, and only for the current attempt unless the owner asked for it |
| `RelayConnection.Relay.HandleClose` | src/nip01/relay.ts:294-294 | A close event runs the close finalizer on behalf of the socket |
| `RelayConnection.Relay.HandleOpen` | src/nip01/relay.ts:276-290 | Opening counts only for the current attempt; it clears the connection timer, resets the reconnect counter and cancels the reconnect timer |
| `RelayConnection.Relay.HandleError` | src/nip01/relay.ts:296-300 | An error event clears the connection timer of the current attempt; one of a superseded attempt is ignored |
| `RelayConnection.Relay.HandleTimeout` | src/nip01/relay.ts:200-208 | A timeout acts only for the current, unconnected attempt that holds a socket |
| `RelayConnection.Relay.ReturnFromHandlers` | src/nip01/relay.ts:229-314 | What each socket callback does after its handlers return: settle, invalidate the attempt, or schedule a reconnect |
| `RelayConnection.Relay.ArmReconnect` | src/nip01/relay.ts:503-555 | A reconnect timer is armed for the present generation unless the maximum is reached |
| `RelayConnection.Relay.CatchConnectFailure` | src/nip01/relay.ts:332-356 | A failed attempt schedules a reconnect only if no `disconnect()` came since it began |
| `RelayConnection.Relay.ReleasePromise` | src/nip01/relay.ts:363-376 | The stored promise is cleared only by its own settling |
| `RelayConnection.Relay.FireReconnect` | src/nip01/relay.ts:535-552 | Only the timer presently owned may reconnect, and only in the generation it was armed in |
| `RelayConnection.Relay.EnableAutoReconnect` | src/nip01/relay.ts:578-585 | Disabling cancels the reconnect timer |
| `RelayConnection.Relay.LimitReconnectAttempts` | src/nip01/relay.ts:591-598 | The new maximum, and nothing else, changes |
| `RelayInbound.NextAt` | src/nip01/relay.ts:901-948 | The pipeline is one independent machine per subscription id: a step about an id acts on it as the one-id machine does, and another id is at most hung up on or loses its buffer to eviction |
| `RelayInbound.EventsAreConserved` | src/nip01/relay.ts:1020-1043 | In every run, for a live subscription: accepted events are, as multisets, those delivered, buffered or dropped; the pending count is the number of validations not yet cleaned up; every EVENT message is waiting, refused, ignored or accepted; no buffer exceeds its cap |
| `RelayInbound.EveryDeliveryIsSorted` | src/nip01/relay.ts:1220-1266 | In every run each step delivers nothing for an id, or appends exactly a permutation of its whole buffer, newest first and lowest id first on ties |
| `RelayInbound.EoseBarrier` | src/nip01/relay.ts:1174-1215 | In every run a step that calls onEOSE calls it once, with no validation of that id in flight and its buffer empty: each valid event received so far was delivered or dropped |
| `RelayInbound.ValidEventIsBuffered` | src/nip01/relay.ts:1020-1043 | In every run a valid event of a live subscription is accepted and put at the end of its buffer, whose oldest event gives way if there are 100, and nothing is delivered or finalized; without a live subscription it is ignored |
| `RelayInbound.EoseMessageIsAnswered` | src/nip01/relay.ts:1188-1215 | In every run an EOSE message for a live subscription, if no validation is in flight, hands the whole buffer over in order, calls onEOSE, removes the mark and closes an auto-closing subscription, unless the handler left or onEOSE throws; otherwise it leaves the mark and nothing else |
| `RelayInbound.LastValidationIsAnswered` | src/nip01/relay.ts:1174-1186 | In every run the end of the last validation in flight of a live subscription hands its buffer over and finalizes an outstanding EOSE in the same way; the end of any other validation does neither |
| `RelayInbound.TicksAndEndings` | src/nip01/relay.ts:1163-1249 | In every run a flush tick hands over the buffer of a live subscription and throws away any other; what unsubscribing, hanging up and a CLOSED message end, and what they leave |
| `RelayInbound.SubscriptionsBegin` | src/nip01/relay.ts:857-921 | In every run a new id is subscribed as asked with an empty buffer, and an EVENT message begins one validation |
| `RelayInbound.EvictionTakesOldest` | src/nip01/relay.ts:1269-1313 | In every run an accepted event makes its id the youngest; exactly when it needs a new buffer and there are 1000, the buffer of the id of oldest access time goes, with its access time, and its events count as dropped |
| `RelayInbound.AccessTimesEnd` | src/nip01/relay.ts:1220-1249 | In every run, in a step that accepts no event, an access time ends exactly with the delivery of its buffer, its unsubscription or a hang-up |
| `RelayInbound.EoseCallsNeverOutnumberMessages` | src/nip01/relay.ts:1193-1215 | onEOSE calls never outnumber EOSE messages in any run, exactly when the onEOSE callback does not throw |
| `RelayInbound.ThrowingEoseIsCalledTwice` | src/nip01/relay.ts:1206-1214 | The concrete run: a throwing onEOSE is called twice for one EOSE message |
| `RelayInbound.Pipeline.SubscribeAs` | src/nip01/relay.ts:857-873 | A new subscription with an empty buffer |
| `RelayInbound.Pipeline.UnsubscribeFrom` | src/nip01/relay.ts:883-893 | All five records of the id go, and only those |
| `RelayInbound.Pipeline.ClearForDisconnect` | src/nip01/relay.ts:403-408 | `disconnect()` clears subscriptions, buffers and access times, and leaves pending counts and EOSE marks |
| `RelayInbound.Pipeline.FlushSubscriptionBuffer` | src/nip01/relay.ts:1220-1249 | The buffer is removed and its events delivered in sorted order |
| `RelayInbound.Pipeline.FlushAllBuffers` | src/nip01/relay.ts:1163-1167 | One flush for each id that has a buffer |
| `RelayInbound.Pipeline.AddToEventBuffer` | src/nip01/relay.ts:1269-1294 | Access time, eviction at capacity, cap of the buffer by dropping its oldest event, then the push |
| `RelayInbound.Pipeline.EvictOldestEventBuffer` | src/nip01/relay.ts:1297-1313 | The buffer with the oldest access time is dropped |
| `RelayInbound.Pipeline.FinalizeEose` | src/nip01/relay.ts:1193-1202 | Nothing happens without a mark or with validations pending; otherwise a flush and onEOSE |
| `RelayInbound.Pipeline.FireEose` | src/nip01/relay.ts:1204-1215 | onEOSE, auto-close, and the end of the mark, which a throwing callback skips |
| `RelayInbound.Pipeline.ReceiveEvent` | src/nip01/relay.ts:907-921 | An EVENT message begins one validation and raises the pending count |
| `RelayInbound.Pipeline.ProcessValidatedEvent` | src/nip01/relay.ts:1020-1043 | A valid event is buffered for a live subscription and ignored otherwise |
| `RelayInbound.Pipeline.DecrementPendingValidation` | src/nip01/relay.ts:1174-1186 | The count falls but not below zero; the last one flushes, or finalizes the EOSE |
| `RelayInbound.Pipeline.ReceiveClosed` | src/nip01/relay.ts:978-995 | A CLOSED message removes the subscription, and leaves its buffer, mark and counts |
| `RelayInbound.Pipeline.MarkEosePending` | src/nip01/relay.ts:1188-1191 | The mark, then finalization if nothing is pending |
| `Events.SortOrdered` | src/nip01/relay.ts:1256-1266 | Sorting by a total preorder yields an ordered sequence |
| `RelayStores.InsertionEvictsOldest` | src/nip01/relay.ts:1388-1403 | An insertion at capacity removes exactly the key of oldest access time among all other keys that have one, stored or not, and never the inserted key |
| `RelayStores.StoreIsBounded` | src/nip01/relay.ts:1388-1460 | Over all runs: every stored key has an access time; the size is at most the cap plus the reads that created an access time for a missing key, less such keys still present; at most the cap if there are none |
| `RelayStores.BoundIsAttained` | src/nip01/relay.ts:1388-1460 | The bound cannot be lowered: reading n missing keys and then writing the cap and n others leaves cap + n entries |
| `RelayStores.AddressableStoreIsBounded` | src/nip01/relay.ts:1388-1435 | The addressable store is such a run |
| `RelayStores.PubkeyStoreIsBounded` | src/nip01/relay.ts:1316-1385 | After any run, every continuation that does not name the empty pubkey keeps the replaceable store within the same bound, exactly if the empty pubkey has no access time then: it was never looked up or stored, or not since the last reset |
| `RelayStores.EmptyKeyEndsEviction` | src/nip01/relay.ts:1367-1385 | After any run that leaves the empty pubkey an access time, one event each of a prefix of any long enough list of distinct new pubkeys, whichever they are, brings the store to any larger size |
| `RelayStores.EmptyLookupEndsEviction` | src/nip01/relay.ts:1367-1385 | One lookup of the empty pubkey is such a run: of any distinct non-empty pubkeys the store then holds every one that sends an event |
| `RelayStores.KindCapHolds` | src/nip01/relay.ts:1340-1362 | In every run no pubkey holds more kinds than its cap |
| `RelayStores.AddressableKeepsLatest` | src/nip01/relay.ts:1405-1414 | While an address is not evicted or reset, the store holds the greatest time, lowest id on ties, of all events processed for it |
| `RelayStores.AddressesAre` | src/nip01/relay.ts:1388-1391 | An address is kind, pubkey and the value of the first d tag: empty without one, and the text undefined for one without a value |
| `RelayStores.ArrivalOrderDoesNotMatter` | src/nip01/relay.ts:1405-1414 | Two runs that processed the same events for an address, in any order, hold the same event |
| `RelayStores.ReplaceableKeepsFirstNewest` | src/nip01/relay.ts:1337-1363 | While not evicted or reset, the replaceable store holds, of what it held and what arrived since, the event at the least index of greatest time, and nothing only if there is none |
| `RelayStores.ReplaceableOrderMatters` | src/nip01/relay.ts:1337-1363 | For any events of one pubkey and kind: all runs from the empty store in which they arrive, in whatever order, and are not evicted, leave the same event held, exactly when no two different ones share the greatest time |
| `RelayStores.MergeIsBest` | src/nip01/nostr.ts:1086-1102 | The loop over relays returns the best of all events the relays saw, in any order of the relays |
| `RelayStores.LookupAgreesWithOneStore` | src/nip01/nostr.ts:1081-1105 | The addressable lookup over relays agrees with a single store that processed everything any of them processed |
| `RelayStores.ReplaceableLookupIsNewest` | src/nip01/nostr.ts:1050-1072 | The replaceable lookup returns an event that arrived somewhere and whose time no arrival anywhere exceeds, and nothing only if nothing arrived |
| `RelayStores.EventStores.ProcessAddressableEvent` | src/nip01/relay.ts:1388-1415 | The in-place update is one step of the addressable store |
| `RelayStores.EventStores.ProcessReplaceableEvent` | src/nip01/relay.ts:1316-1364 | The in-place update is one step of the replaceable store |
| `RelayStores.EventStores.GetLatestAddressableEvent` | src/nip01/relay.ts:1449-1463 | The held event; the lookup counts as an access also when nothing is found |
| `RelayStores.EventStores.GetLatestReplaceableEvent` | src/nip01/relay.ts:1437-1446 | The same for a pubkey and kind |
| `RelayStores.EventStores.EvictOldestPubkey` | src/nip01/relay.ts:1367-1385 | The pubkey of oldest access time goes, unless it is the empty text |
| `RelayStores.Nostr.GetLatestAddressableEvent` | src/nip01/nostr.ts:1081-1105 | The loop over relays computes the merge of what each of them holds |
| `RelayStores.Nostr.GetLatestReplaceableEvent` | src/nip01/nostr.ts:1050-1072 | The same for a pubkey and kind |
| `AccessTimes.FindOldest` | src/nip01/relay.ts:1418-1427 | The linear search finds a key of least access time |
| `RelayAcks.WaitersSettleOnce` | src/nip01/relay.ts:725-815 | In every run, also when one error concerns several messages, a waiting send settles at most once, owns its three handlers and an armed timer until then, and none of them afterwards |
| `RelayAcks.PassOutcome` | src/nip01/relay.ts:1085-1101 | One pass over a handler list that shrinks under it: who is called, what is left on the list, and what becomes of every waiter |
| `RelayAcks.RepliesAreExact` | src/nip01/relay.ts:739-815 | In every run a waiter has a reply exactly if some step settled it so while it was unsettled: an OK message of its id with that success, an error about its id, a disconnect, its timer, or its own throwing send |
| `RelayAcks.WaitersAreSends` | src/nip01/relay.ts:785-795 | In every run exactly the sends made are waiters, each for the id of its own message |
| `RelayAcks.ListenersStay` | src/nip01/relay.ts:593-665 | In every run a listener of the owner is on a list exactly if the last call about it added it, whatever the waiters do to the list |
| `RelayAcks.EventSettlesExactly` | src/nip01/relay.ts:1085-1101 | In every run, for an OK, error or Disconnect event and a waiter it answers: it is settled once, with that answer, exactly if the waiters directly before it that the event also concerns are even in number; otherwise it stays pending, unchanged, with its timer armed |
| `RelayAcks.AllCalledIfApart` | src/nip01/relay.ts:1085-1101 | A pass calls every handler that removes itself exactly if no two of them are neighbours on the list |
| `RelayAcks.DisconnectReachesEveryWaiter` | src/nip01/relay.ts:780-783 | In every run one Disconnect event settles every pending waiter exactly if no two waiters are neighbours on the list of Disconnect handlers, which also holds the listeners of the owner |
| `RelayAcks.SecondWaiterIsLeft` | src/nip01/relay.ts:780-783 | The concrete run: two waiting sends and one Disconnect event leave the second unsettled, with its timer armed |
| `RelayAcks.AlternateActorsAreCalled` | src/nip01/relay.ts:1085-1101 | On a list whose handlers all remove themselves, a handler is called exactly if its position is even |
| `RelayAcks.AckWaits.Settle` | src/nip01/relay.ts:785-791 | Cleanup and resolve of one waiter |
| `RelayAcks.AckWaits.SendAndWait` | src/nip01/relay.ts:793-815 | Registration, timer, and settling at once if the send throws |
| `RelayAcks.AckWaits.FireTimer` | src/nip01/relay.ts:797-800 | The timer settles its waiter |
| `RelayAcks.AckWaits.TriggerEvent` | src/nip01/relay.ts:1085-1101 | The loop over the list as it changes |
| `ScriptGraph.RotationsShareCanonicalForm` | scripts/verify-commands.js:68-76 | Every rotation of a cycle is mapped to one and the same rotation of it, under any total order |
| `ScriptGraph.CanonicalizeIsReal` | scripts/verify-commands.js:68-76 | The canonical form of a directed simple cycle is a directed simple cycle, and canonical |
| `ScriptGraph.LeavesAreNamedByCommand` | scripts/verify-commands.js:85-95 | A leaf is named by the least runnable script with its command, so two leaves share a name exactly if their commands are equal |
| `ScriptGraph.Analyze` | scripts/verify-commands.js:78-156 | On every finite graph the analysis ends; it reports a cycle exactly when the graph has one, and only real ones; on an acyclic graph it reports an owner, a leaf and a count exactly if the leaf is the least script of its command and the count, above one, is the number of reference paths from the owner to scripts with that command |
| `ScriptGraph.Analyzer.Expand` | scripts/verify-commands.js:108-131 | The memoised search: found cycles are real, a name on the stack yields one, and while none was found the result is the plain expansion |
| `ScriptGraph.Analyzer.ExpandReferences` | scripts/verify-commands.js:121-128 | The loop over the references of one script |
| `ScriptGraph.Analyzer.DuplicatesOf` | scripts/verify-commands.js:133-144 | The repeated leaves of one owner |
| `ScriptGraph.CountLeaves` | scripts/verify-commands.js:135-138 | The counts of the leaves |
| `ScriptGraph.PlainIndependent` | scripts/verify-commands.js:108-131 | The plain expansion does not depend on the ranking used to define it |
| `ScriptGraph.ExpansionEnumeratesPaths` | scripts/verify-commands.js:108-131 | The plain expansion lists each reference path to a leaf once, at the leaf where it ends |
| `ScriptGraph.EveryPathIsListed` | scripts/verify-commands.js:108-131 | No reference path is missing |
| `ScriptGraph.CountIsNumberOfPaths` | scripts/verify-commands.js:133-144 | A script is listed as often as there are reference paths to scripts with its command, if it is the least of them, and otherwise not at all |
| `ScriptGraph.RankedIsAcyclic` | scripts/verify-commands.js:108-131 | A graph whose scripts have all been finished without a cycle has none |
| `ScriptGraph.ReportIsOrderIndependent` | scripts/verify-commands.js:133-144 | Two analyses of one acyclic graph report the same duplicates, in whatever order they visit the owners |
| `GroupReducers.MembersDependOnTheSetOfEvents` | src/nip29/index.ts:554-592 | Logs with the same set of events, in any order and with any repetitions, reduce to the same members in the same order |
| `GroupReducers.AdminsDependOnTheSetOfEvents` | src/nip29/index.ts:594-644 | The same for admins and their roles |
| `GroupReducers.StatusDependsOnTheSetOfEvents` | src/nip29/index.ts:646-684 | The same for the membership status of any pubkey |
| `GroupReducers.ExplicitGroupIsThatGroupAlone` | src/nip29/index.ts:510-527 | With an explicit group id each reducer gives what it gives for the events of that group alone |
| `GroupReducers.SnapshotCompaction` | src/nip29/index.ts:529-592 | A members snapshot that lists what its prefix reduces to, and sorts between prefix and suffix, does not change the reduction |
| `GroupReducers.SnapshotCompactionAsSets` | src/nip29/index.ts:529-592 | If it lists the same members in any order and with any repetitions, the reduction has the same set of members |
| `GroupReducers.GrantedMeansMember` | src/nip29/index.ts:646-684 | Granted holds exactly for members and for those whose latest relevant event is a put not newer than a snapshot that omits them, who are not members; without a snapshot exactly for members |
| `GroupReducers.SupersededPutIsGranted` | src/nip29/index.ts:646-684 | The concrete log: a put, and a later members snapshot that lists nobody, give Granted to a pubkey that is not a member |
| `GroupReducers.MembersHaveNoDuplicates` | src/nip29/index.ts:554-592 | Members are listed once |
| `GroupReducers.ReduceMembers` | src/nip29/index.ts:554-592 | The loop over the sorted events computes the member reduction |
| `GroupReducers.ReduceAdmins` | src/nip29/index.ts:594-644 | The loop computes the admin reduction |
| `GroupReducers.ReadAdmins` | src/nip29/index.ts:440-463 | The loop over the tags of an admins snapshot |
| `GroupLaws.ScopeIsExact` | src/nip29/index.ts:510-527 | Reducing fails exactly for an invalid group id, or without one for a log with events of two groups; in scope are the events whose d or h tag, d first for snapshots, names the group, or all |
| `GroupLaws.MembersAre` | src/nip29/index.ts:554-592 | A pubkey is a member exactly if its last put or remove later than the newest members snapshot is a put, or there is none and that snapshot lists it |
| `GroupLaws.AdminsAre` | src/nip29/index.ts:594-644 | A pubkey is an admin with given roles exactly if its last put or remove later than the newest admins snapshot is a put with these roles, which are the non-empty values after the pubkey and not none, or there is none and the last entry for it in that snapshot has these roles; nobody is listed twice |
| `GroupLaws.StatusIs` | src/nip29/index.ts:646-684 | Granted exactly for members and for those whose newest concern is a put; pending exactly for the others whose newest concern is a request to join; it fails exactly for an invalid pubkey or scope |
| `Base64.DecodeInvertsEncode` | src/nip44/index.ts:144-191 | For every non-empty byte string, padded encoding (section 4 of RFC 4648) gives a text the decoder accepts and decodes to the same bytes |
| `Base64.AlphabetIs` | src/nip44/index.ts:82-101 | The digits are those of table 1 of RFC 4648 |
| `Base64.KnownTexts` | src/nip44/index.ts:82-101 | Test vectors of section 10 of RFC 4648 |
| `Base64.EncodeManually` | src/nip44/index.ts:82-101 | The fallback encoder, whose tail tests never select the padding character, writes the unpadded groups of the zero-filled bytes |
| `Base64.UnpaddedIsZeroFilled` | src/nip44/index.ts:82-101 | Its output is the padded encoding of the bytes followed by the missing zero bytes |
| `Base64.ManualRoundTrip` | src/nip44/index.ts:82-191 | Decoding it gives the bytes and (3 - n mod 3) mod 3 zero bytes: the bytes themselves exactly when their number is a multiple of three |
| `Base64.DecodeManually` | src/nip44/index.ts:115-192 | The fallback decoder refuses what the pattern refuses and otherwise computes the bytes of the text |
| `Base64.BuildLookup` | src/nip44/index.ts:145-153 | The 256-entry table |
| `Base64.DecodeGroupAt` | src/nip44/index.ts:167-189 | One turn of the decoding loop |
| `Base64.StoreGroup` | src/nip44/index.ts:182-188 | The guarded stores into the byte buffer |
| `Nip44.PaddingArithmetic` | src/nip44/index.ts:198-211 | For every length 1 to 65535: at least the length, at most 65536, a multiple of 32, a fixed point, and less than 32 or less than a quarter more |
| `Nip44.PaddingIsMonotone` | src/nip44/index.ts:198-211 | Longer plaintexts are not padded to less |
| `Nip44.PaddedLenIsLeast` | src/nip44/index.ts:198-211 | Up to 256 bytes the padded length is the least multiple of 32 that fits; above, for the power of two p that brackets the length, the least multiple of p / 8 |
| `Nip44.PaddingLayout` | src/nip44/index.ts:216-236 | The padded text is the length in two bytes, high byte first, the plaintext, and zeros up to the padded length; it exists exactly for 1 to 65535 bytes |
| `Nip44.UnpadInvertsPad` | src/nip44/index.ts:216-293 | Unpadding gives back every permitted plaintext |
| `Nip44.UnpadAcceptsExactly` | src/nip44/index.ts:243-293 | Unpadding yields a plaintext exactly for a length prefix of it, the plaintext, and the right total length |
| `Nip44.ConstantTimeEqual` | src/nip44/index.ts:622-652 | The xor-or loop and the folding of its bits give 1 exactly for equal byte strings |
| `Nip44.PayloadRoundTrip` | src/nip44/index.ts:815-918 | Splitting the base64 text of a payload of 99 to 65603 bytes returns its version, nonce, ciphertext and MAC |
| `Nip44.PayloadSizes` | src/nip44/index.ts:655-695 | Every permitted plaintext gives 99 to 65603 bytes |
| `Nip44.MessageRoundTrip` | src/nip44/index.ts:655-954 | For every plaintext of 1 to 65535 bytes, any two key pairs and any nonce: 132 to 87472 characters that pass every check and split into version 2, the nonce, the encrypted padded plaintext and its MAC, and that the receiver decrypts to the plaintext |
| `Nip44.DecryptsOnlyAuthenticated` | src/nip44/index.ts:921-954 | Decryption yields a plaintext exactly when the MAC is the one of nonce and ciphertext and the decrypted bytes are well padded |
| `Nip44.DecodesExactly` | src/nip44/index.ts:815-918 | Which texts split into which payloads: blanks around are ignored, and the rest is base64 of 132 to 87472 characters for 99 to 65603 bytes, of which the first is at most 2, then 32 bytes of nonce, the ciphertext, and 32 bytes of MAC |
| `Nip44.DecryptsExactly` | src/nip44/index.ts:921-954 | A text decrypts to a plaintext exactly if both keys are valid and it is the text of a payload that decrypts to it |
| `Nip19.TlvRoundTrip` | src/nip19/index.ts:302-357 | Decoding an encoded entry list gives it back exactly for at most 20 entries of at most 255 bytes |
| `Nip19.EncodeAfterDecode` | src/nip19/index.ts:302-357 | Encoding what was decoded gives the input, or the input without its last byte |
| `Nip19.EncodeTlv` | src/nip19/index.ts:302-325 | The two loops, with stores modulo 256, write the encoding of the entries |
| `Nip19.ReadTlv` | src/nip19/index.ts:330-357 | The reading loop computes the decoding, with its errors |
| `Nip19.WriteEntry` | src/nip19/index.ts:312-322 | One entry at a moving offset |
| `Nip19.HexRoundTrip` | src/nip19/index.ts:791-832 | Hex to bytes and back is the text in lower case |
| `Nip19.ReadHex` | src/nip19/index.ts:791-821 | The hex parsing loop |
| `Nip19.WriteHex` | src/nip19/index.ts:826-832 | The hex writing loop |
| `Nip19.KindRoundTrip` | src/nip19/index.ts:644-660 | A 32-bit kind comes back unchanged exactly below 2^31, and otherwise less 2^32 |
| `Nip19.ProfileRoundTrip` | src/nip19/index.ts:362-472 | An encodable profile stays within the entry limit and decodes to its pubkey and relays in order, exactly if every relay is at most 255 bytes long |
| `Nip19.PointerRoundTrip` | src/nip19/index.ts:478-608 | The same for an event pointer, whose kind is not encoded |
| `Nip19.AddressRoundTrip` | src/nip19/index.ts:614-786 | The same for an address, exactly if its relays and its identifier are at most 255 bytes long; the kind as a signed 32-bit number |
| `Nip19.LongProfileRelayIsLost` | src/nip19/index.ts:362-472 | Whichever relay URLs are valid: a profile with one valid relay of 256 to 512 bytes is encoded and does not decode to itself |
| `Nip19.LongPointerRelayIsLost` | src/nip19/index.ts:478-608 | Likewise an event pointer with such a relay |
| `Nip19.LongIdentifierIsLost` | src/nip19/index.ts:614-786 | Likewise an address with any identifier of 256 to 1024 bytes |
| `Nip19.ProfileIgnoresUnknown` | src/nip19/index.ts:434-462 | Entries of unknown type do not change what is read |
| `Nip19.PointerIgnoresUnknown` | src/nip19/index.ts:563-595 | Likewise |
| `Nip19.AddressIgnoresUnknown` | src/nip19/index.ts:723-770 | Likewise |
| `Nip19.BuildAddress` | src/nip19/index.ts:614-693 | The entries of an address, in order, with the errors |
| `Nip19.ExtractAddress` | src/nip19/index.ts:705-786 | The loop over the entries of an address |
| `Nip19Format.HexIsRead` | src/nip19/index.ts:791-821 | Hex is read exactly if the text is not empty and consists of pairs of hex digits, one byte for each pair, high half first |
| `Nip19Format.ProfileIsWritten` | src/nip19/index.ts:362-412 | Which profiles are encoded, and as which bytes: field 0 with the 32 bytes of the key, and a field 1 for each of at most 19 relays of at most 512 bytes |
| `Nip19Format.PointerIsWritten` | src/nip19/index.ts:478-545 | The same for event pointers: at most 17 relays, and field 2 with the author if one is given; the kind is not written |
| `Nip19Format.AddressIsWritten` | src/nip19/index.ts:614-693 | The same for addresses: an identifier of 1 to 1024 bytes, the key in field 2 and the kind, below 2^32, as four bytes in field 3 |
| `Nip19Format.ProfileIsRead` | src/nip19/index.ts:417-472 | Which bytes are read as which profile: each field 0 has 32 bytes and the last one counts; the fields 1 are the relays in order |
| `Nip19Format.PointerIsRead` | src/nip19/index.ts:550-608 | The same for event pointers, whose last field 2, if any, is the author |
| `Nip19Format.AddressIsRead` | src/nip19/index.ts:705-786 | The same for addresses: the last fields 0, 2 and 3 count, the first of them not empty, the others of 32 and 4 bytes each |
| `Bunker.DispatchesAreSpaced` | src/nip46/bunker.ts:251-290 | In every run two dispatches of one request id with no stop between them are more than 120000 ms apart |
| `Bunker.ReplayIsIgnored` | src/nip46/bunker.ts:251-270 | A request whose id was dispatched at most 120000 ms ago changes nothing |
| `Bunker.DispatchedExactly` | src/nip46/bunker.ts:251-290 | In every run a request with a non-empty id not dispatched since the last stop is dispatched; right after a cleanup exactly those are whose id was not dispatched within the last 120000 ms since the last stop |
| `Bunker.ConnectIsAnswered` | src/nip46/bunker.ts:542-645 | In every run a connect request with a fresh id is refused for a wrong signer or secret; with challenges required and no standing grant it leaves a pending challenge for what it requested; otherwise it is granted that and the defaults |
| `Bunker.SignRequestIsAnswered` | src/nip46/bunker.ts:655-690 | In every run a sign_event request with a fresh id starts a signature exactly if its event data gives a kind, the client has a standing grant, and the handler says yes or, where it says nothing, the defaults and that grant hold `sign_event` or `sign_event:` and the kind; otherwise it only refreshes lastSeen |
| `Bunker.ResolveIsAnswered` | src/nip46/bunker.ts:297-335 | In every run resolving a client takes its oldest pending challenge and grants what that was issued for; without one nothing happens |
| `Bunker.ChallengesExpire` | src/nip46/bunker.ts:340-395 | In every run the timer of a challenge forgets that one, and the cleanup those older than the timeout; the others stay in order |
| `Bunker.SessionsAreGrants` | src/nip46/bunker.ts:542-645 | In every run a client has a session exactly if some accepted connect or approval of it was followed by neither its leaving, a stop nor another grant, and the session holds the permissions of that grant and the defaults |
| `Bunker.SessionsNeedAConnect` | src/nip46/bunker.ts:542-645 | Every session goes back to a received connect request of that client with the right signer and, if one is required, the secret, and holds the permissions it requested and the defaults |
| `Bunker.SessionsGoBackToAChallenge` | src/nip46/bunker.ts:297-335 | With challenges required, every session goes back to a challenge issued to that client since the last stop and approved, with the permissions it was issued with, since the client last left |
| `Bunker.ApprovalsNeverOutnumberChallenges` | src/nip46/bunker.ts:297-371 | Approvals of a client and its pending challenges never outnumber the challenges issued to it |
| `Bunker.ResultsAreAuthorised` | src/nip46/bunker.ts:655-735 | Every sign_event result goes back to a check at which that client held a standing grant that, with the defaults or by the handler's word, covered that kind, and an approval where challenges are required |
| `Bunker.ResultsNeverOutnumberChecks` | src/nip46/bunker.ts:655-735 | One check yields at most one result |
| `Bunker.ResultComesInSession` | src/nip46/bunker.ts:655-735 | In every run, when an awaited signature succeeds, its client has a session exactly if since the check that authorised it the client did not leave and the bunker did not stop, or the client was granted a session again and kept it |
| `Bunker.AResultCanComeAfterLeaving` | src/nip46/bunker.ts:688-712 | The concrete run in which a result is produced after its client left |
| `Bunker.RemoteSigner.IsReplayAttack` | src/nip46/bunker.ts:251-270 | A known id is reported and left alone; a new one is recorded with the present time |
| `Bunker.RemoteSigner.CleanupOldRequestIds` | src/nip46/bunker.ts:275-290 | The loop forgets exactly the ids older than 120000 ms |
| `Bunker.RemoteSigner.CleanupChallenges` | src/nip46/bunker.ts:376-395 | The loop forgets exactly the challenges older than the timeout, and keeps the order of the others |
| `Bunker.RemoteSigner.CleanupStep` | src/nip46/bunker.ts:376-395 | The periodic cleanup is one step: old request ids, then expired challenges |
| `Bunker.RemoteSigner.SigningSettles` | src/nip46/bunker.ts:688-712 | The awaited signature: a result, or none if signing failed |
| `Bunker.RemoteSigner.CreateAuthChallenge` | src/nip46/bunker.ts:340-371 | The challenge is recorded under its id |
| `Bunker.RemoteSigner.ResolveAuthChallenge` | src/nip46/bunker.ts:297-335 | The loop takes the first pending challenge of the client and opens its session |
| `Bunker.RemoteSigner.HandleConnect` | src/nip46/bunker.ts:542-645 | Wrong signer and wrong secret change nothing; then a challenge or a session |
| `Bunker.RemoteSigner.HasPermission` | src/nip46/bunker.ts:1036-1096 | The answer for signing, and the refreshed last-seen time |
| `Bunker.RemoteSigner.HandleSignEvent` | src/nip46/bunker.ts:655-690 | A signature begins exactly if permission is given and the event data parses |
| `Bunker.RemoteSigner.HandleRequest` | src/nip46/bunker.ts:474-519 | Requests without id and replays are dropped before any handler; the others reach theirs |
| `Bunker.RemoteSigner.HandleDisconnect` | src/nip46/bunker.ts:753-764 | The session ends |
| `Bunker.RemoteSigner.StopBunker` | src/nip46/bunker.ts:187-190 | All three maps are cleared |

## Left out

- WebSocket implementations: creating, closing and terminating sockets, and sockets that call back synchronously while being closed, are not modelled. Detaching socket handlers has no effect in the model, and a timeout may come even after its timer was cleared: late events may always come.
- The process-local disconnect observer of an open relay does what a close event does, and is the same step here.
- The delay, jitter and backoff of reconnecting: a timer may fire at any later time.
- What publishing, authenticating and sending messages do besides waiting for an acknowledgement.
- RelayAcks.AckWaits.TriggerEvent: handlers of the owner only observe; an owner's handler that registers or removes handlers during a pass is not modelled, because the pass is then whatever that handler makes of it.
- RelayInbound: an onEvent handler may unsubscribe or disconnect during a delivery and an onEOSE callback may throw; other calls back into the relay from these callbacks are not modelled. A subscription id is never drawn twice.
- RelayInbound.Pipeline.ReceiveEvent: what validation checks is not modelled; it succeeds or fails at any later time.
- Filter validation, EOSE timeouts (a call of `unsubscribe` like any other), and the messages sent to the relay.
- RelayStores: two accesses within one clock tick, which `Date.now()` permits, are not modelled. The listing of addressable events by pubkey or kind would only add easy members.
- ScriptGraph.Analyze: the graph is given; how references are extracted from command texts, missing references, and the sorting of the report are not modelled, nor are names that every JavaScript object inherits. The repeated leaves reported for a graph with cycles are not specified, since they depend on the order of the visits.
- GroupReducers: building and parsing of the other group events, and the text forms of metadata.
- Base64.DecodeManually and Base64.EncodeManually are the branches taken without `btoa`, `atob` and `Buffer`; the standard branches are taken to be the padded encoding.
- Nip44.MessageRoundTrip speaks of the plaintext's bytes: UTF-8 and the byte order mark that text decoding strips are not modelled. Versions 0 and 1 of the payload are decrypted by the same function as version 2, which is what the code does.
- Nip19: texts are their UTF-8 bytes, so length limits that the code takes in characters are taken in bytes. Whether a relay URL is valid is an arbitrary predicate. A kind that is not an integer is not modelled. The bech32 length limit and the checks of the prefix are part of the assumed inverse pair.
- Bunker: rate limiting, decryption and the sending of responses decide only whether and when a request arrives. The encryption requests, `ping` and `get_public_key` change no state that is modelled and have no other effect here. A challenge's timer may fire at any time. An authentication timeout of zero means the default in the code and is written out in the options here.
- The relay pool, rate limits, event validation, and the other NIPs: single branches, network calls or library calls.
