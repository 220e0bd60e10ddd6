# NurChat: verified model

NurChat is an end-to-end encrypted messenger: clients run X3DH and the Double
Ratchet, and the server relays calls and messages, hands out prekeys, fans
frames out over WebSockets, forgets messages on purpose ("deaf relay"), and
manages tokens. This project models the parts of it whose behaviour is spread
over many steps and proves what every run of them keeps.

| module | what it models |
|---|---|
| `Text`, `Crypto` | decimal and `dh:ns` texts, the order of ids; keys as terms built by free key-derivation constructors, a Diffie-Hellman value as an unordered pair, a box that opens only under its own key |
| `Ratchet` | one Double Ratchet session as a value with its operations, and the class that updates its fields in place |
| `RatchetRuns`, `Headers`, `SkippedKeys` | what one session keeps over any sequence of encryptions, decryptions of arbitrary envelopes, saves and restores |
| `Conversation`, `AgreementLaws` | two sessions over lossy first-in-first-out channels, and what else holds while they agree |
| `Parting`, `Divergence` | sessions whose roots have parted, and the two ways out of the agreement that part them |
| `Calls` | call signalling, its handlers cut at every await |
| `Prekeys` | one-time prekeys claimed by compare-and-set, next to uploads, cleanups and a cache |
| `Retention`, `RelaySteps` | the life of a message row from send to purge, over runs and event by event |
| `Fanout`, `Broadcasts` | connection managers with a reverse index and the bus between server instances, broadcasts cut at every send; one broadcast uninterrupted, and one disturbed |
| `Tokens` | revocation and cutoff caches of processes over one database, refresh rotation, restarts |
| `Windows` | the lockout in memory and in Redis, and the throttle on prekeys |
| `Pending` | buffered call frames in memory and in Redis |
| `UrlRepair` | percent-encoding of a raw password and the repair of a database URL |

An operation that changes state step by step is a method of a class, proved to
compute a function of the old state; the properties are lemmas about that
function, or about runs whose steps are it or, where a run cuts an operation into
its steps, are shown to add up to it (`Prekeys.ClaimRunIsClaim`,
`Retention.FetchInOneGo`, `Broadcasts.UninterruptedIsServe`). Clocks, generated keys, the
outcome of each send and what other processes do in between are parameters, so
a statement about all runs covers every choice of them.

## What the code does differently

The model follows the code in these places.

- A skipped key never decrypts anything: its branch in
  `shared/double_ratchet.py` (279-286) marks the id as seen before the common
  path refuses seen ids (317-318), so a late message of the current chain
  always raises. `SkippedKeys.DecryptExactly` and `LateMessageIsLost` say so.
- `pn` is not used to finish an older chain (290-292): a late message from an
  older chain starts a ratchet step that is wrong unless its number is cached,
  and the session is lost in both directions (`Divergence.OlderChainExactly`,
  `Divergence.LateMessageIsFinal`).
- The forced rotation (241-244) is agreed with a key the peer has already
  replaced, or from a root the peer does not have yet; its message is always
  refused (`Divergence.ForcedRotationDiverges`), and the session does not
  recover (`Divergence.ForcedRotationIsFinal`). `Conversation.Agreement` is
  therefore stated for runs in which no send is due for it, and
  `Divergence.SendReachesExactly` shows that this is exactly what is needed.
- The skip loop looks a printed id up in a set of pairs (308), which never holds.
- The comment on the purge exempts view-once messages nobody opened; the code
  exempts them from its third rule only. Opening one deletes it softly at once,
  so that rule takes none at all, and soft-deleted rows are never purged.
- `broadcast_local` iterates over the very set from which the disconnect after
  a failed send removes the user; Python raises when a set changes size under
  iteration, so the users after a dead socket are not served and the frame is
  not published (`Fanout.BroadcastExactly`). If users leave and join while it
  awaits a send so that the size comes out the same, Python does not say which
  of them the iteration still gives out, and a user who rejoins can be served
  twice (`Fanout.EachSocketOnce`, `Broadcasts.SocketIsServedTwice`).
- `remove_participant` and `leave_group` do not tell the connection manager, so
  removed users are served on (`Fanout.UnpassedRemovalStillServes`).
- A busy caller is not refused, only a busy target (`Calls.BusyCallerIsDropped`).
- Revocations and cutoffs are read once per process, so a process that loaded
  them before another one revoked goes on accepting (`Tokens.RefusesExactly`,
  `Tokens.LogoutAllMisses`, `Tokens.SecondExchangeExactly`,
  `Tokens.SecondExchangeHappens`).
- The reaction to reuse takes user and jti from the payload as presented
  (`server/routes/auth.py`, 951-972); the cutoff it sets is that of the user
  named there (`Tokens.ExchangeCutsOffExactly`).
- The prekey throttle reads the clock before it takes its lock, so readings can
  come out of order and one of them can prune what a later, earlier one should
  count (`Windows.LateReadingExceeds`); `Windows.ThrottleBound` says what holds.
- A chain that starts under a header key seen before finds that key's cached
  numbers taken (`AgreementLaws.ReturningKeyBreaksTheLaw`).
- The end-call endpoint cleans up a call for any user who asks
  (`server/routes/calls.py`, 121-142); `Calls` has that step.

## Model

| member | source | states |
|---|---|---|
| `Conversation.Agreement` | shared/double_ratchet.py:107-314 | from matching X3DH keys, in every interleaving of sends, deliveries, losses and save/restores with new generated keys in which no send is due for a forced rotation, each delivered message decrypts to the text sent, or is refused for being more than MAX_SKIP_GAP ahead |
| `Conversation.StepKeeps` | shared/double_ratchet.py:198-314 | one step keeps both ends on one history of roots and chains, at most one epoch apart, and an honest delivery returns its text |
| `Conversation.DeliverNewChain` | shared/double_ratchet.py:288-314 | the first message of the peer's next epoch takes the receiver into that epoch and decrypts |
| `Conversation.SendAnswer` | shared/double_ratchet.py:231-267 | the first message after taking up a new epoch opens the next epoch under the key generated on receipt, numbered 0 |
| `Conversation.ReloadKeeps` | shared/double_ratchet.py:340-397 | saving and restoring an end anywhere keeps the conversation in step |
| `AgreementLaws.ReloadsChangeNoPlaintext` | shared/double_ratchet.py:340-397 | the log of an agreement run, every delivery with its result, equals that of the run without its saves and restores |
| `Divergence.ForcedRotationDiverges` | shared/double_ratchet.py:241-244 | at any point of an agreement run, whatever the peer receives, loses, sends or reloads before the message of a forced rotation arrives, it refuses it |
| `Divergence.ForcedRotationHappens` | shared/double_ratchet.py:241-244 | from any matching start an agreement run leads to a state in which a forced rotation is due |
| `Divergence.SendReachesExactly` | shared/double_ratchet.py:231-314 | at any point of an agreement run with nothing in flight to the peer, a send reaches it if and only if no rotation was due and its number is at most MAX_SKIP_GAP ahead |
| `Divergence.OlderChainExactly` | shared/double_ratchet.py:279-292 | at any point of an agreement run a message from an older chain is refused, and afterwards its reader accepts a message of the chain in use if and only if the late number was cached and the message is neither behind nor more than MAX_SKIP_GAP ahead |
| `Divergence.LateMessageIsFinal` | shared/double_ratchet.py:217-292 | if the late number was not cached, then whatever the two ends do from there on with new key pairs, neither accepts anything the other seals, and the reader accepts no message sealed before either |
| `Divergence.ForcedRotationIsFinal` | shared/double_ratchet.py:198-267 | after a forced rotation at any point of an agreement run, whatever both ends do with new key pairs: the peer refuses the rotated message and all sealed after it, and in return everything is refused but messages of the one chain the peer was sealing on and the rotated end was reading |
| `Parting.PartedForGood` | shared/double_ratchet.py:198-229 | once one session took a root step that the other did not and has no key pair to take, no sequence of operations on either side makes one open what the other seals, but for the chain read before |
| `RatchetRuns.ReplaySafety` | shared/double_ratchet.py:271-336 | under any operations and any headers, one session gives up the plaintext of a given sealed box at most once, although it forgets ids |
| `RatchetRuns.RunAdvances` | shared/double_ratchet.py:198-336 | a run never moves the receiving position back, and every box it opened lies behind the position reached |
| `Headers.HeaderDiscipline` | shared/double_ratchet.py:198-267 | over every run, forced rotations and restores included, numbers count up within a chain, `pn` is the length of the chain before, no (dh, ns) is emitted twice, and `ns` is the sending chain's step |
| `Headers.DecryptKeepsSending` | shared/double_ratchet.py:271-314 | a decryption, failed or not, leaves the sending chain and its number alone |
| `Headers.EncryptExactly` | shared/double_ratchet.py:198-267 | which encryptions start a chain and under which key: those that answer, those without a sending chain, and those after a hundred messages to an end heard of; and the header, box and state of each |
| `SkippedKeys.SkipToFillsCache` | shared/double_ratchet.py:305-311 | if none of the numbers it passes is cached, the skip loop leaves the newest MAX_SKIPPED of the old entries followed by the keys it passed |
| `SkippedKeys.FillsCacheExactly` | shared/double_ratchet.py:305-311 | short of the cap that is exactly when it does: a number already cached is not stored again |
| `SkippedKeys.AcceptedMessage` | shared/double_ratchet.py:297-314 | accepting number ns from a chain at step k leaves the chain at ns+1 and, if none of k..ns-1 was cached, the cache with those entries appended, up to its cap; short of the cap only then |
| `AgreementLaws.CacheInAgreement` | shared/double_ratchet.py:297-314 | in every agreement run each accepted delivery leaves the newest MAX_SKIPPED of the old entries followed by the keys passed over, with no further condition |
| `AgreementLaws.ReturningKeyBreaksTheLaw` | shared/double_ratchet.py:305-311 | a session in which a header key comes back with numbers of it cached: the message is accepted and the law fails |
| `SkippedKeys.CacheStaysCapped` | shared/double_ratchet.py:305-311 | no reachable state, raised errors and restores included, caches more than MAX_SKIPPED keys |
| `SkippedKeys.DecryptExactly` | shared/double_ratchet.py:271-330 | the exact condition on session and envelope under which a text is returned |
| `SkippedKeys.EnvelopeIsTaken` | shared/double_ratchet.py:288-336 | whatever its box is, an envelope whose number the receiving chain can step to, a new chain included, leaves the chain at its number plus one, the passed keys in the cache and its id remembered, whether it is then answered or not |
| `SkippedKeys.EnvelopeIsRefused` | shared/double_ratchet.py:279-303 | what every other envelope leaves: a cached number loses its key and is remembered, a number out of reach may start a chain but does not move it, and nothing else changes |
| `SkippedKeys.HeaderIsUsedUp` | shared/double_ratchet.py:313-325 | after an envelope in reach, junk included, no envelope under its key with its number or a lower one is accepted, the honest one neither |
| `SkippedKeys.LateMessageIsLost` | shared/double_ratchet.py:279-300 | a number below the chain's step is refused on its chain, stored key or not |
| `SkippedKeys.OnChainExactly` | shared/double_ratchet.py:297-314 | a message sealed for its place on the current chain decrypts exactly if it is neither late nor too far ahead |
| `Ratchet.RestoreUndoesSave` | shared/double_ratchet.py:340-397 | deserialize(serialize(s)) is s but for the seen ids, of which the 2000 largest remain |
| `Ratchet.ParseIdsUndoesPrintIds` | shared/double_ratchet.py:356-396 | reading back the printed ids gives the same set |
| `Text.ParseIdUndoesShowId` | shared/double_ratchet.py:393-394 | splitting `dh:ns` at its last colon and reading the number undoes the print |
| `Text.LargestIsUnique` | shared/double_ratchet.py:332-336 | the ids kept by a trim are determined: the n largest by number, then key |
| `Ratchet.X3dhAgrees` | shared/double_ratchet.py:107-140 | both sides of X3DH derive the same secret if and only if they use the same one-time key, or both none |
| `Ratchet.X3dhBinds` | shared/double_ratchet.py:107-140 | under one ephemeral key two initiations reach the same secret if and only if both identities, the signed prekey and the one-time key are the same |
| `Ratchet.AssociatedDataBinds` | shared/double_ratchet.py:98-103 | of identity keys of one length it is the same exactly for the same pair |
| `Ratchet.AssociatedDataAgrees` | shared/double_ratchet.py:98-103 | both ends compute the same associated data |
| `Ratchet.DoubleRatchetSession.InitializeAsAlice` | shared/double_ratchet.py:142-166 | sets the initiator's state and keeps replay memory, cache and flags |
| `Ratchet.DoubleRatchetSession.InitializeAsBob` | shared/double_ratchet.py:168-194 | sets the responder's state likewise |
| `Ratchet.DoubleRatchetSession.DhRatchetSend` | shared/double_ratchet.py:198-215 | the sending ratchet step, or its two errors with nothing changed |
| `Ratchet.DoubleRatchetSession.DhRatchetReceive` | shared/double_ratchet.py:217-229 | the receiving ratchet step, or its error |
| `Ratchet.DoubleRatchetSession.EncryptMessage` | shared/double_ratchet.py:231-267 | the new state and the envelope or error of the specification |
| `Ratchet.DoubleRatchetSession.DecryptMessage` | shared/double_ratchet.py:271-314 | the new state and the text or error, changes made before a failure included |
| `Ratchet.DoubleRatchetSession.SkipMessageKeys` | shared/double_ratchet.py:305-311 | the skip loop moves chain and cache as specified |
| `Ratchet.DoubleRatchetSession.DecryptWithKey` | shared/double_ratchet.py:316-336 | remembers the id, trims, opens, and checks the associated data |
| `Ratchet.DoubleRatchetSession.Save` | shared/double_ratchet.py:340-359 | the saved form of the state |
| `Ratchet.DoubleRatchetSession.Restore` | shared/double_ratchet.py:361-397 | a new session with the saved state, or the version error |
| `Calls.EntriesAreLive` | server/ws/signaling.py:135-509 | with fresh call ids and handlers interleaved at every await, the end-call endpoint included, each entry names a live call its user belongs to, and each call is accepted at most once, by its callee |
| `Calls.MapsAreInverse` | server/ws/signaling.py:236-308 | if callers are also idle, the two maps are inverse to each other and the partner lookup is an involution within the call |
| `Calls.LiveCallsAreDisjoint` | server/ws/signaling.py:236-258 | then no user is in two live calls |
| `Calls.OverStaysOver` | server/ws/signaling.py:609-617 | no suspended handler brings back a call that is over |
| `Calls.RequestExactly` | server/ws/signaling.py:185-258 | which of the four answers a request gets, and that only the last changes the maps, and how |
| `Calls.CallsExactly` | server/ws/signaling.py:236-340 | in any event a call comes by a request that is reachable and finds its target idle, goes by a handler that closes it or a request whose notice failed, and turns active only by its callee |
| `Calls.HandlersExactly` | server/ws/signaling.py:310-509 | exactly which events suspend a handler that will close a call: a rejection or an end by a user of it, the caller's timeout while it rings, a lost socket, the end-call endpoint, an acceptance that did not get through |
| `Calls.RegisterLinkedExactly` | server/ws/signaling.py:248-258 | a request keeps every entry linked exactly if its id is not the call of someone else |
| `Calls.RegisterCompleteExactly` | server/ws/signaling.py:236-258 | it keeps the maps inverse exactly if its caller is idle |
| `Calls.BusyCallerIsDropped` | server/ws/signaling.py:236-258 | what a busy caller leads to once the first call is cleaned up |
| `Calls.CallManager.HandleCallRequest` | server/ws/signaling.py:185-258 | the reply and the new maps in each of the four cases |
| `Calls.CallManager.HandleCallAccept` | server/ws/signaling.py:310-340 | only the callee accepts, and only while it rings |
| `Calls.CallManager.CleanupCall` | server/ws/signaling.py:609-617 | removes the call and its two users' entries |
| `Calls.CallManager.GetCallPartner` | server/ws/signaling.py:496-509 | the other user of the call one is entered under |
| `Prekeys.NoRowHandedOutTwice` | server/routes/keys.py:166-214 | in every interleaving of claims, uploads, cleanups and cached reads no two requests are answered with the same row, and a row only goes out for its uploader |
| `Prekeys.WinnerAnswers` | server/routes/keys.py:184-215 | in every run a request that won a row and has answered has answered with it, or with none and the row was deleted |
| `Prekeys.ReadDecidesAnswer` | server/routes/keys.py:194-215 | the winner of a row answers with it if it is there when it reads it, and with none if a cleanup was faster, whatever happens before it answers or afterwards |
| `Prekeys.NoKeyIsCached` | server/routes/keys.py:248-282 | no cached bundle carries a one-time key |
| `Prekeys.RowsAreConserved` | server/routes/keys.py:137-301 | every uploaded row is exactly one of unused, used or deleted, and used or deleted exactly if a request won it |
| `Prekeys.WonStaysWon` | server/routes/keys.py:184-194 | a row that was won is never free again and never changes its winner |
| `Prekeys.LossesArePaidFor` | server/routes/keys.py:172-196 | each row an attempt lost was won by another request, and the losses of a request are different rows |
| `Prekeys.ClaimExactly` | server/routes/keys.py:166-196 | a claim takes the oldest free row no rival took, and comes back empty only if none was free or every attempt lost its row |
| `Prekeys.ClaimRunIsClaim` | server/routes/keys.py:166-196 | a request stepping through its transactions against rivals changes the rows as that claim does, and wins what it wins |
| `Prekeys.ClaimRunAnswers` | server/routes/keys.py:166-215 | and two steps later it has answered as that claim does |
| `Prekeys.RowsExactly` | server/routes/keys.py:137-301 | what one event does to a row: an upload of 1 to 100 keys adds it, its owner's cleanup deletes it if it is used, the update of a request that selected it uses it, and nothing else touches it |
| `Prekeys.CacheExactly` | server/routes/keys.py:248-282 | a bundle found without a key is cached for ten seconds, one found with a key or invalidated is not, and no other request or event touches the user's entry unless it has expired |
| `Prekeys.StorableExactly` | server/routes/keys.py:148-161 | an upload stores the keys of ten characters or more, in their order |
| `Prekeys.InsertedRows` | server/routes/keys.py:154-161 | an upload adds exactly its rows, unused and numbered on |
| `Prekeys.PrekeyTable.Upload` | server/routes/keys.py:137-163 | stores the long enough keys in order and counts them, or refuses the batch |
| `Prekeys.PrekeyTable.SelectCandidate` | server/routes/keys.py:173-183 | the oldest unused row of the user, or none if there is none |
| `Prekeys.PrekeyTable.CompareAndSet` | server/routes/keys.py:185-193 | changes the row only if it was unused, and says so |
| `Prekeys.PrekeyTable.Claim` | server/routes/keys.py:166-196 | the retry loop computes the claim against its rivals |
| `Prekeys.CleanupIsInvisible` | server/routes/keys.py:285-301 | deleting a user's used rows changes the answer of no claim, whoever it is for and whatever rivals take |
| `Prekeys.TtlCache.Get` | server/core/cache.py:18-27 | an entry is given out up to its expiry and dropped after it |
| `Prekeys.CacheAnswersTheLatest` | server/core/cache.py:18-36 | with a clock that never goes back a lookup gives the last value put and not dropped since, up to and including the end of its lifetime, whatever was looked up before |
| `Retention.YoungMessageIsSafe` | server/core/background_tasks.py:115-161 | a purge takes a message younger than the retention limit only if more than the grace period ago someone else was handed it by a fetch at a moment of the run when its chat had exactly two participants, or everyone else now in the chat has read it, but for joins stamped no later than the message and committed no earlier |
| `Retention.ReadRuleExactly` | server/core/background_tasks.py:123-154 | when the third rule applies, in terms of who was addressed, who marked it read and who joined later |
| `Retention.ViewOnceExactly` | server/core/background_tasks.py:142-154 | an unopened view-once message is taken exactly if it was delivered before the grace period or is old |
| `Retention.DeletedRowsStay` | server/core/background_tasks.py:138-141 | a soft-deleted row is never purged |
| `Retention.PurgedRowsStayGone` | server/core/background_tasks.py:156-161 | a purged row never comes back |
| `Retention.HalfSentIsTaken` | server/routes/chat.py:418-439 | between the two commits of a send one reader makes the row purgeable for everyone |
| `Retention.SenderLeftIsTaken` | server/routes/chat.py:269-282 | after the sender left a chat of three, one fetch makes the row purgeable although the third user was never handed it |
| `Retention.AddressedKeep` | server/routes/chat.py:431-439 | whoever was in the chat before a sent message keeps having a status row for it |
| `Retention.ReadsKeep` | server/routes/chat.py:511-553 | a status is read only if its user marked it, and what a user marked has a read status |
| `Retention.CountsKeep` | server/routes/chat.py:266-282 | behind every delivery time is a count of two taken, at some moment of the run, of the participants of the message's own chat |
| `RelaySteps.ReadOnlyByMarking` | server/routes/chat.py:511-553 | in every run a status is read only if an event marked that very message, or the chat it is in, for that user |
| `RelaySteps.ReadersExactly` | server/routes/chat.py:1334-1367 | whom an event counts as having read a message: a member who marks it, or who marks its own chat and has a status row for it |
| `RelaySteps.StatusesExactly` | server/routes/chat.py:431-439 | the status rows after addressing, marking a chat and purging, one by one |
| `RelaySteps.FieldsExactly` | server/routes/chat.py:584-845 | which events change which field of a message: it is deleted by its sender, on opening or once expired, viewed by a member other than its sender, released when due, and delivered by a fetch that read it |
| `RelaySteps.RowsComeAndGo` | server/core/background_tasks.py:120-161 | rows come by a member's send under a new id and go by a purge alone, never while scheduled or deleted |
| `RelaySteps.ScheduledRowsStay` | server/core/background_tasks.py:137-139 | a scheduled message stays, however old, until it is due |
| `RelaySteps.FetchHandsOut` | server/routes/chat.py:201-232 | a fetch hands a member exactly what of the page is in the chat, neither deleted nor expired |
| `RelaySteps.FetchMarksLater` | server/routes/chat.py:269-277 | and is to mark of it what others sent and has no delivery time yet |
| `RelaySteps.MembersExactly` | server/routes/chat.py:911-934 | a join adds a row and leaving takes the first one of the user; no other event changes who is in a chat |
| `RelaySteps.StrangersChangeNothing` | server/routes/chat.py:198-203 | who is not in a chat changes nothing by sending to it, reading, fetching or opening |
| `Retention.RelayStore.Address` | server/routes/chat.py:431-439 | adds an unread row for each participant but the sender |
| `Retention.RelayStore.MarkMessageAsRead` | server/routes/chat.py:511-546 | sets the first row of message and user, or adds a read one; refuses strangers and unknown messages |
| `Retention.RelayStore.MarkChatAsRead` | server/routes/chat.py:1334-1367 | sets the rows of the user for messages of the chat and no others, and counts those that were unread; refuses strangers |
| `Retention.RelayStore.ReadPage` | server/routes/chat.py:201-232 | what a fetch returns of the asked page, and what of it is still to be marked; refuses strangers |
| `Retention.RelayStore.MarkDelivered` | server/routes/chat.py:269-282 | the second half of a fetch: sets the delivery time of the messages read before, only in a chat of two |
| `Retention.FetchInOneGo` | server/routes/chat.py:201-282 | with nothing in between, the three steps of a fetch in a run do what the two halves of the endpoint do |
| `Retention.RelayStore.DeafRelayPurge` | server/core/background_tasks.py:89-161 | deletes exactly the targets with their status rows; nothing older than the limit is left but deleted and scheduled messages |
| `Retention.RelayStore.Leave` | server/routes/chat.py:911-934 | removes the first row of the user in the chat, or refuses |
| `Fanout.EachSocketOnce` | server/ws/bus.py:93-120 | for any number of instances and any interleaving, sends of broadcasts included, the excluded user's sockets never receive a frame, and no socket receives one twice unless the chat's index entry there gained a user during the broadcast |
| `Broadcasts.DeliveryReachesAll` | server/ws/bus.py:85-120 | in every run that passes rows and removals on, a frame of another instance, taken and sent on without interruption or failure, reaches each connected user who lists the chat, minus the excluded, exactly once |
| `Broadcasts.DeliveryIsServed` | server/ws/bus.py:101-120 | with failures too, that does to manager and sockets what `DeliverNext` does |
| `Broadcasts.BroadcastReachesAll` | server/ws/chat_manager.py:203-234 | a new frame reaches everyone it is for on its instance exactly once, and if the bus is up is queued behind what each instance has yet to read |
| `Broadcasts.SocketIsServedTwice` | server/ws/chat_manager.py:203-217 | a run in which it did and a socket receives a frame twice |
| `Broadcasts.UninterruptedIsServe` | server/ws/chat_manager.py:203-234 | if nothing happens between the steps of a broadcast, they do what the loop computes in one go, and publish the frame exactly if it did not raise, began here and the bus is up |
| `Fanout.DeliveryPublishesNothing` | server/ws/bus.py:101-120 | no step of delivering a bus frame makes or publishes a frame, changes another instance or reaches a socket of another; a frame of the instance's own is only taken, and offline notices are queued only by a failed send |
| `Fanout.IndexIsComplete` | server/ws/chat_manager.py:59-106 | if no participant row is inserted twice, every connected user listing a chat is in its index entry |
| `Fanout.BroadcastServesTheScan` | server/ws/chat_manager.py:203-223 | if removals are also passed on, an uninterrupted local broadcast serves exactly the connected users whose list holds the chat, minus the excluded, unless a send fails |
| `Fanout.BroadcastExactly` | server/ws/chat_manager.py:203-223 | the same for one manager, with what is served and who is disconnected when a send fails |
| `Fanout.RemoveKeepsIndexExactly` | server/ws/chat_manager.py:264-271 | a removal keeps the index complete exactly if the user is not connected or lists the chat at most once |
| `Fanout.ConnectKeeps` | server/ws/chat_manager.py:86-106 | a reconnect keeps the index complete, and free of stale entries exactly if the rows hold every chat the index had for the user |
| `Fanout.CloseExactly` | server/ws/chat_manager.py:59-84 | a replaced socket that closes changes nothing; one that owns its slot leaves slot and index, and one offline notice for each chat of its user is queued |
| `Fanout.UnpassedRemovalStillServes` | server/routes/contacts_groups.py:446-456 | a removal that is not passed on leaves the user served, and after a reconnect in the index without being in the list |
| `Fanout.ConnectionManager.Open` | server/ws/chat_manager.py:31-106 | takes the slot, replaces the list and enters the user under each chat |
| `Fanout.ConnectionManager.Close` | server/ws/chat_manager.py:59-70 | drops the user from slot and index, unless the socket no longer owns the slot |
| `Fanout.ConnectionManager.AddUserToChat` | server/ws/chat_manager.py:251-262 | enters a chat not yet listed in list and index |
| `Fanout.ConnectionManager.RemoveUserFromChat` | server/ws/chat_manager.py:264-271 | removes its first occurrence from the list, and the index entry |
| `Fanout.ConnectionManager.BroadcastLocal` | server/ws/chat_manager.py:203-223 | who is served, who is lost, whether it raises, and the manager afterwards |
| `Fanout.Subscriber.DeliverNext` | server/ws/bus.py:82-120 | skips the instance's own frames and delivers the next of another instance, in order |
| `Tokens.LogoutAllIsPermanent` | server/routes/auth.py:500-520 | after logout-all no token issued to the user up to that second is accepted in any continuation, restarts included, by that process or any that had not read the cutoffs |
| `Tokens.LogoutIsPermanent` | server/core/security.py:89-130 | in a process of its own a token that was logged out is never accepted again, across restarts and purges |
| `Tokens.AcceptedExactly` | server/core/security.py:102-130 | in every run, what a process accepts: an issued token before its `exp`, of the kind asked for, not held or read as revoked, issued after the cutoff held or read |
| `Tokens.ExchangeExactly` | server/routes/auth.py:976-1010 | when an exchange issues tokens, that both are issued, and that the old one is revoked in memory and table |
| `Tokens.RowsAreStamped` | server/utils/security.py:241-255 | in every run a revocation row carries the moment of the logout or exchange that added it, and keeps it |
| `Tokens.ReuseByTheClock` | server/routes/auth.py:940-1017 | a token exchanged at T and presented again, before it expires, to a process that knows its row: silent for every process up to T + 120 s, and after that its user is cut off |
| `Tokens.RefusesExactly` | server/utils/security.py:302-337 | a process that knows the cutoff refuses such tokens, and one that does not accepts those otherwise good |
| `Tokens.LogoutAllMisses` | server/utils/security.py:306-322 | a run of two processes in which a token is still accepted after logout-all |
| `Tokens.MapIsColumn` | server/utils/security.py:306-327 | in a process of its own the cutoff map equals the column whenever it is loaded |
| `Tokens.ExchangedOnce` | server/routes/auth.py:976-1010 | in a process of its own each refresh token is exchanged at most once, across restarts and purges of expired rows |
| `Tokens.SecondExchangeExactly` | server/utils/security.py:241-295 | an exchanged token is still accepted exactly by a process that loaded the revocations before and did not make the exchange, until it expires or is cut off |
| `Tokens.SecondExchangeHappens` | server/utils/security.py:257-295 | a run of two processes in which an exchanged token is accepted again |
| `Tokens.ReuseKillsTheChain` | server/routes/auth.py:940-1017 | presenting a refresh token revoked more than 120 s ago, whether it still decodes or not, cuts its user off exactly if the process does not accept it; then nothing is issued and that process refuses every token issued to the user so far, for ever |
| `Tokens.RevokedAcceptedExactly` | server/core/security.py:116-130 | when a revoked token is accepted all the same: it decodes as a refresh token, the process loaded the revocations without it, and it is not cut off |
| `Tokens.ReuseInGraceIsSilent` | server/routes/auth.py:963-966 | an exchange of a token revoked within 120 s issues nothing and changes no answer of any process about any token, if and only if the token is not exchangeable there: the process holds or will read the row, or the token is expired, cut off, pending, not issued or of no user |
| `Tokens.ExchangeCutsOffExactly` | server/routes/auth.py:943-972 | whatever is presented, an exchange sets one cutoff, that of the user named, exactly if the jti has a row of more than 120 s and the process does not accept the token; otherwise it sets none |
| `Tokens.TokenState.LoadPersistedBlacklist` | server/utils/security.py:257-284 | loads the revocations once and purges expired rows |
| `Tokens.TokenState.IsTokenRevoked` | server/utils/security.py:291-295 | the answer and what the lazy load changes |
| `Tokens.TokenState.RevokeToken` | server/utils/security.py:241-289 | revokes in memory and in the table, where a row stays as it was |
| `Tokens.TokenState.LoadValidAfter` | server/utils/security.py:306-322 | the column overrides the map, once |
| `Tokens.TokenState.RememberTokensValidAfter` | server/utils/security.py:325-327 | the cutoff never goes down |
| `Tokens.TokenState.Verify` | server/core/security.py:102-130 | decoding, revocation and staleness in this order, with the loads they cause |
| `Tokens.TokenState.RefreshToken` | server/routes/auth.py:940-1017 | rotation, refusal, and the reaction to reuse |
| `Tokens.TokenState.LogoutAll` | server/routes/auth.py:500-517 | sets column and map to the current second |
| `Windows.BothAnswerAsTheLog` | server/utils/captcha.py:55-120 | the pruned list and the expiring sorted set both answer as the full log since the last success: at least 10 failures within 15 minutes, the latest under 300 s old |
| `Windows.LockedOutExactly` | server/utils/captcha.py:66-86 | what that means of the log: ten failures less than fifteen minutes old, the last of them less than five |
| `Windows.RunKeeps` | server/utils/captcha.py:55-120 | after any history both stores hold an ordered part of the log that agrees with it on everything still in the window |
| `Windows.TrippedExactly` | server/utils/captcha.py:66-86 | such a store, pruned and counted, answers as the log |
| `Windows.PruningIsInvisible` | server/utils/captcha.py:79-111 | pruning loses nothing a later look would count |
| `Windows.ExpiryIsInvisible` | server/utils/captcha.py:92-105 | when the key expires it holds nothing that would be counted |
| `Windows.LockoutManager.IsLockedOut` | server/utils/captcha.py:55-86 | answers as the full log, whichever store says so |
| `Windows.LockoutManager.RecordFailure` | server/utils/captcha.py:88-111 | appends to the log; both stores keep what matters of it |
| `Windows.LockoutManager.RecordSuccess` | server/utils/captcha.py:113-120 | forgets the key |
| `Windows.ThrottleBound` | server/routes/keys.py:30-44 | if no clock reading lags one let in before it by more than d, any half-open window of a minute less d holds at most 20 admitted requests of a caller and target; a full minute for readings in order |
| `Windows.RefusedExactly` | server/routes/keys.py:36-44 | for all clock readings in any order, a request is refused exactly if 20 admitted before it still count: less than a minute old and pruned by none admitted since |
| `Windows.CountedWithinLag` | server/routes/keys.py:36-44 | with readings that lag by at most d, what was admitted less than a minute less d ago counts, and what counts was admitted less than a minute ago |
| `Windows.RefusedInOrder` | server/routes/keys.py:36-44 | with readings in order a request is refused exactly if 20 were admitted in the minute before it |
| `Windows.LateReadingExceeds` | server/routes/keys.py:37-44 | readings out of order that let 21 requests into one minute |
| `Windows.OpkThrottle.Check` | server/routes/keys.py:36-44 | admits and records, or refuses and leaves the list alone |
| `Pending.MemoryIsLast` | server/ws/signaling.py:530-536 | the list in memory is the last 50 frames queued, in order |
| `Pending.RedisIsLast` | server/core/redis_manager.py:109-123 | so is the Redis list while its key does not lapse |
| `Pending.RedisHandsOverAlike` | server/core/redis_manager.py:109-145 | whatever lapsed in between, the frames Redis can hand over are the unexpired of the last 50 queued, as those in memory are |
| `Pending.QueuedIsDelivered` | server/ws/signaling.py:525-559 | if every send succeeds, a frame is delivered from Redis, and from memory, exactly if it is among the last 50 queued and at most a day old |
| `Pending.FlushExactly` | server/ws/signaling.py:540-559 | a flush delivers, in order, the unexpired frames before the first failed send of one, but those that found the socket gone; all of them if every send succeeds |
| `Pending.PendingBuffers.SendAll` | server/ws/signaling.py:548-559 | the loop of a flush computes that |
| `Pending.PendingBuffers.Buffer` | server/ws/signaling.py:525-538 | queues in Redis, or in memory when Redis does not answer |
| `Pending.PendingBuffers.Flush` | server/ws/signaling.py:540-559 | hands over Redis frames, then memory frames, and empties both |
| `UrlRepair.EncodeIsIdempotent` | shared/config.py:18-41 | encoding twice is encoding once |
| `UrlRepair.EncodeKeepsMeaning` | shared/config.py:18-41 | encoding leaves the percent-decoded value unchanged |
| `UrlRepair.UnchangedExactly` | shared/config.py:25-41 | a password is left alone exactly if all it has of reserved characters are percent signs of valid escapes |
| `UrlRepair.EncodeIsClean` | shared/config.py:18-41 | nothing reserved is left but such percent signs |
| `UrlRepair.PasswordAloneIsEncoded` | shared/config.py:44-98 | for any password and plain other parts the URL is split at the at sign before the host and comes back with the password encoded and the query short of pgbouncer |
| `UrlRepair.RepairIsStable` | shared/config.py:44-98 | repairing such a URL again changes nothing, if its scheme does not begin and its kept tail does not end with a space or quote |
| `UrlRepair.KeepIsIdempotent` | shared/config.py:79-83 | dropping pgbouncer twice is dropping it once |
| `UrlRepair.KeptExactly` | shared/config.py:79 | a parameter is dropped exactly if it is pgbouncer, with a value or without |
| `UrlRepair.KeptAnywhere` | shared/config.py:79-80 | and that for each parameter by itself, wherever it stands |
| `UrlRepair.HostLikeExactly` | shared/config.py:66-72 | something like a host: a first part up to a question mark, number sign or slash that is not empty and holds no at sign and no space |
| `UrlRepair.SplitAtExactly` | shared/config.py:64-75 | the user information ends at the last at sign before something like a host |
| `UrlRepair.LeftAlone` | shared/config.py:59-86 | SQLite URLs, text that is no URL and hosts with a number sign are left alone |
| `UrlRepair.PastedIsStripped` | shared/config.py:59 | a blank, line end or quote around a URL makes no difference |
| `UrlRepair.EncodePasswordOnce` | shared/config.py:18-41 | the index loop computes the encoding |
| `UrlRepair.SplitUserinfo` | shared/config.py:66-77 | the loop finds the last at sign before something like a host |
| `UrlRepair.RepairHostPath` | shared/config.py:79-98 | host, database name and kept parameters, or a host too mangled to touch |
| `UrlRepair.NormalizeDatabaseUrl` | shared/config.py:44-98 | the whole repair, the URLs it leaves alone included |

## Left out

- Cryptography itself: X25519, HKDF bytes, SecretBox, nonces, Argon2, Ed25519 and JWT signatures are terms and membership tests; low-order points, key collisions and malleability do not occur.
- UTF-8 and base64 errors of envelopes, envelopes with missing fields, and what Python's `int()` accepts beyond decimal digits in a saved session.
- KDFChain as an object of its own: chains are values inside the session, since the source replaces them and never changes one.
- Retention.RelayStore.Leave: one row of several that a user may have in a chat; group keys and admin rights are not modelled.
- Retention: accounts that are deleted, file cleanup, reactions, replies and edits; a chat's `disappears_after_seconds`; the relay with deaf mode switched off.
- Conversation.Agreement: channels are first-in-first-out; for messages out of order `SkippedKeys.LateMessageIsLost` and `Divergence.OlderChainExactly` say what happens.
- Calls: the offer, answer and candidate relays, call types and timestamps, the call log, the socket map of the calls WebSocket; a send is an await with an outcome.
- Prekeys.ClaimExactly: the keys of one upload share their `created_at`, and the database may return any of them first; the model numbers rows in the order the SELECT returns them, and the runs (`Prekeys.NoRowHandedOutTwice`) let it return any free row.
- Prekeys.PrekeyTable.SelectCandidate: the same ties.
- Retention.RelayStore.DeafRelayPurge: what others commit between its SELECT and its DELETE.
- Prekeys: identity keys, signed prekeys and their signatures; a bundle is modelled by the one-time row it carries, if any.
- Fanout: personal frames, online presence in Redis and the database; frames published while a subscriber is reconnecting are losses.
- Tokens: file tokens, tokens without expiry or issue time, a database that does not answer, deleted users; databases whose clock has whole seconds only make a revocation look up to a second older.
- Windows.LockoutManager.IsLockedOut: both stores are up; with Redis down during a success the sorted set would outlive it.
- Pending.RedisHandsOverAlike: the clocks of server and Redis are the same.
- UrlRepair: a query with an at sign and URLs without user information are computed by the model but not covered by the main statements.
- HTTP routing, validation, rate limits by address, logging, push notifications, captcha calls, search, export, files, and the React and Tauri clients.
