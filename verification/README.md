# EasyTier-Edge, a verified model

EasyTier-Edge is a relay for EasyTier networks that runs in a Cloudflare Durable Object. Its Rust core
owns the protocol: sealed datagrams with replay protection, a link-state route table, and RPC over
fragments. Its TypeScript shell owns WebSockets, rooms and admission. This project models the parts
whose correctness depends on whole runs rather than on single calls, and proves what holds over them.

Every stateful engine appears twice. The first form is a value with functions that say what each
operation does to it; the theorems over runs are about these. The second is a class in the program's own form
(arrays shifted in place, counters kept incrementally, maps updated by loops) whose methods are
proved to perform those functions. Runs are sequences of events; clocks, random values, the outcome
of parsing, of the ciphers and of `send` are inputs to the events.

| file | engine |
|---|---|
| `Words`, `Bits`, `Sums`, `Ordered` | machine words, bits of a byte, sums over maps, sets in order |
| `ReplayWindow` | the 256-bit anti-replay window |
| `ReceiveEpochs`, `SecureSession` | epoch slots, the grace period after `Sync`, delivery over whole sessions |
| `SessionStore`, `SecurePeer` | the shared table of sessions, nonces, one connection's endpoint |
| `Reassembly`, `ReassemblyRuns` | fragments, quotas, the round trip |
| `RouteSync`, `RouteSyncRuns` | the route-sync driver over the core's outstanding transactions |
| `ConnBitmap` | the list and matrix encodings of connections |
| `RouteTable`, `RouteState` | the route table as a value and as the program holds it |
| `RouteInvariants`, `RouteAcks`, `RouteInfoAcks` | caches, rows, sweeps; what an update may leave out |
| `RelayRuns` | the driver and the route table as one machine |
| `Rooms`, `ServerState`, `Offers`, `Server` | the room registry, the books, what connections are offered, and the connection server |
| `SendLimiter` | the outbound limiter |

## Where the code falls short of the obvious claim

Each of these is kept as the code has it, with a lemma that exhibits it and one that gives the exact
condition.

- The replay window casts a 64-bit gap to a 32-bit `usize`. A gap of 2^32 or more can make it accept a
  number twice (`ReplayWindow.TruncationAcceptsTwice`); `DecisionIsExact` and `RecordIsExact` say when
  the cast is harmless.
- Delivery is at most once only while no needed slot is dropped. After 30 s of silence a delivered packet is
  delivered again (`SecureSession.SilenceRedelivers`). `HarmfulEvictionRedelivers` and
  `HarmfulSyncRedelivers` show that the conditions of `AtMostOnce` on evictions and syncs are exact, and
  `AtMostOnceAfterSync` that the guarantee starts afresh at every `Sync`, whatever happened before.
- The send epoch wraps. A peer that has sent in epoch 2^32-1 and then synchronises makes the relay repeat
  its first nonce under the same key (`SessionStore.WrapReusesNonce`). `SyncAdvances` and `SendAdvances`
  give the exact condition, and `NoncesIncrease` holds of every other root key all the same.
- Building an update for a peer the table does not know leaves a row for it in the cache, as the retry
  loop does for a peer just swept (`RouteInvariants.StrangerSpoilsCache`; exact for one build in
  `BuildCoherenceIsExact` and over whole runs in `CachesStayCoherent`). Until the topology next changes the
  wrong matrix is sent, acknowledged and then withheld (`RouteAcks.SpoiledIsWithheld`); lists, and updates
  built before, stay right (`WithheldTopologyWasSent`).
- An acknowledgement of an older topology refreshes the time of the newer one (`RouteAcks.LateAckExample`
  is a run that breaks nothing but the order of responses; exact in `LateAckRefreshes`). The driver rules
  this out: `RelayRuns` runs it together with the table, and there responses come in build order
  (`ResponsesComeInOrder`).
- A response that comes after a peer's next report hides that report, whenever it does not raise the
  normalised version: a new instance with the same or a lower version, or version 1 after version 0
  (`RouteInfoAcks.LateAckHidesNewInfo`; `AnswerHides` says it of every such response). What is left out is
  safe peer by peer, whatever other peers do and however the peer restarts, as long as no answered update
  carried more of it than is stored and no first report after an absence falls below what is remembered:
  in version (`WithheldVersionIsSafe`), and in content if the answered update carried the stored info itself
  (`WithheldInfoIsSafe`). A peer whose versions never fall always meets the former (`NeverFallingKeepsUp`).
- Adding a peer again while its transaction is live starts a second one beside it
  (`RouteSyncRuns.ReAddOverlaps`, exact in `AddIsExact`). The server removes a replaced connection first,
  which is enough (`RelayRuns.JoinAfterLeaveIsOrderly`).
- A comment at `wasm/src/route_state.rs:931-933` says the matrix never has a self-loop bit. A client that
  lists itself gets a row that names it, and then the bit is set (`RouteInvariants.SelfLoopIsBuilt`, exact in
  `ConnBitmap.DiagonalFollowsRow`); the receiver ignores it.
- A force-full update is full as to peer infos only: connections are withheld by the same rule as ever
  (`RouteAcks.FullUpdateWithholds`, exact in `WithheldIffAcked`).
- The receiver computes positions in a reported matrix in 32 bits, so with more than 65536 peers a
  topology can be misread (`ConnBitmap.MisreadExample`, exact in `ReadsBackExactly`). The relay builds no
  matrix of more than 8192 peers.

## Model

| member | source | states |
|---|---|---|
| `ReplayWindow.ReplayWindow256.ShiftRight` | wasm/src/secure.rs:113-141 | the byte loop and the bit loop together are one 256-bit shift of the set of marks |
| `ReplayWindow.ReplayWindow256.SetBit` | wasm/src/secure.rs:107-111 | sets exactly one mark |
| `ReplayWindow.ReplayWindow256.Clear` | wasm/src/secure.rs:95-99 | back to the fresh window |
| `ReplayWindow.ReplayWindow256.CanAcceptSeq` | wasm/src/secure.rs:143-149 | the decision on the byte array is the decision on the set of marks |
| `ReplayWindow.ReplayWindow256.Accept` | wasm/src/secure.rs:151-171 | accepts exactly what `CanAccept` predicts, and leaves the window alone otherwise |
| `ReplayWindow.DecisionIsExact` | wasm/src/secure.rs:143-149 | the answer equals that of an ideal 256-wide window if and only if the truncated gap is harmless |
| `ReplayWindow.RecordIsExact` | wasm/src/secure.rs:151-171 | accepting a number keeps the window representing the accepted set if and only if the gap fits 32 bits or no mark survives |
| `ReplayWindow.RecordRepresents` | wasm/src/secure.rs:151-171 | one accepted number adds exactly that number to the represented set |
| `ReplayWindow.SeenIsRefused` | wasm/src/secure.rs:165-168 | an accepted number is refused from then on, as long as the 32-bit cast is harmless |
| `ReplayWindow.RunRefinesSet` | wasm/src/secure.rs:94-172 | after any run whose accepted numbers were cast harmlessly, bit d is set iff the number d below the maximum was accepted, and none was accepted twice; refused numbers may be anything |
| `ReplayWindow.TruncationAcceptsTwice` | wasm/src/secure.rs:147-165 | a concrete run that accepts 0 twice because of the 32-bit cast |
| `ReceiveEpochs.PrecheckPredictsCommit` | wasm/src/secure.rs:748-819 | a packet that passes the check before decryption is granted by the commit |
| `ReceiveEpochs.CommitGrants` | wasm/src/secure.rs:774-819 | the commit grants exactly what the asked window accepts, and of epochs without a slot the newer ones |
| `ReceiveEpochs.GuardedRefuses` | wasm/src/secure.rs:748-774 | a guarded direction refuses everything it has delivered, as long as the window asked casts harmlessly |
| `ReceiveEpochs.CommitKeepsGuard` | wasm/src/secure.rs:776-819 | delivering keeps the guard through the grace slots, the current slots and rotation |
| `ReceiveEpochs.HarmlessEvictionKeepsGuard` | wasm/src/secure.rs:726-746 | an eviction keeps the guard if the newest slot stays and the grace slots dropped are superseded or shadowed |
| `ReceiveEpochs.HarmfulEvictionReplays` | wasm/src/secure.rs:726-746 | any other eviction lets something delivered pass the check again, unless it uncovers a shadowed slot |
| `ReceiveEpochs.HarmlessSyncKeepsGuard` | wasm/src/secure.rs:956-975 | a `Sync` keeps the guard if all delivered epochs move into the grace slots |
| `ReceiveEpochs.HarmfulSyncReplays` | wasm/src/secure.rs:956-975 | any other `Sync` lets something delivered pass the check again |
| `ReceiveEpochs.ShadowsGoTogether` | wasm/src/secure.rs:735-746 | a slot shadowed by one of the same epoch never outlives it, so no eviction uncovers one |
| `ReceiveEpochs.MarkedIsGuarded` | wasm/src/secure.rs:956-975 | whatever was forgotten, slots in order guard everything their marks stand for |
| `SecureSession.DirectionsNeverShareAKey` | wasm/src/secure.rs:908-910 | the two directions never share a traffic key exactly when the peer ids differ |
| `SecureSession.RefusedPacketsLeaveWindows` | wasm/src/secure.rs:691-709 | a packet that is refused, too short or does not open changes no window beyond the eviction |
| `SecureSession.PacketKeepsGuard` | wasm/src/secure.rs:672-711 | a packet keeps both directions guarded and is delivered only if it never was; forged and refused packets may carry any numbers |
| `SecureSession.AtMostOnce` | wasm/src/secure.rs:672-819 | from a fresh session, over every run without a harmful eviction, sync or cast of an accepted number, nothing is delivered twice |
| `SecureSession.GuardLasts` | wasm/src/secure.rs:672-819 | the same from any session that guards its past, and nothing of that past is delivered again |
| `SecureSession.RunsStaySane` | wasm/src/secure.rs:672-819 | in every run at all, harmful or not, every window keeps its maximum and nothing out of reach, and no shadowed slot is younger |
| `SecureSession.AtMostOnceAfterSync` | wasm/src/secure.rs:956-975 | from a just-synchronised session, whatever run came before: nothing is delivered twice, and nothing the grace slots remember is delivered again |
| `SecureSession.GraceStaysBehind` | wasm/src/secure.rs:713-724 | grace epochs stay at or below the send epoch until that wraps |
| `SecureSession.UndeliveredIsDelivered` | wasm/src/secure.rs:672-711 | completeness: in a guarded session whatever was not delivered yet, of an epoch with a slot and less than 256 behind its maximum, is delivered |
| `SecureSession.NewEpochIsDelivered` | wasm/src/secure.rs:748-819 | a packet of an epoch no slot holds is delivered if and only if there is no newest slot, or it is newer and at most 3 past the send epoch or a slot |
| `SecureSession.HeldEpochIsDecided` | wasm/src/secure.rs:748-774 | a packet of an epoch a slot holds is delivered if and only if that slot's window takes its number |
| `SecureSession.FailuresCount` | wasm/src/secure.rs:508-532 | ten packets in a row that pass the check and do not open fail the connection; a delivery starts the count again |
| `SecureSession.RotationTimes` | wasm/src/secure.rs:713-724 | a session rotates exactly with its millionth packet or 600 s after the epoch began; a sent packet takes the next number of its direction |
| `SecureSession.SlotsLast` | wasm/src/secure.rs:735-746 | a slot is evicted exactly when it was heard more than 30 s ago |
| `SecureSession.GraceLasts` | wasm/src/secure.rs:726-733 | the old slots last 5 s after a sync |
| `SecureSession.HarmfulEvictionRedelivers` | wasm/src/secure.rs:726-774 | past a harmful eviction some delivered packet is delivered again |
| `SecureSession.HarmfulSyncRedelivers` | wasm/src/secure.rs:956-975 | past a harmful sync some delivered packet is delivered again at once |
| `SecureSession.SilenceRedelivers` | wasm/src/secure.rs:735-762 | a concrete run that delivers one packet twice after 30 s of silence |
| `SessionStore.SelectionMatchesTable` | wasm/src/secure.rs:934-1017 | what message 2 announces is what the table holds; Join, Sync or Create as generation and retention decide |
| `SessionStore.SelectionExists` | wasm/src/secure.rs:919-1018 | a handshake gets a session if and only if the kept one has its algorithm, or none is kept, fewer than 2048 are, and the random source works; other sessions stay |
| `SessionStore.SelectedSession` | wasm/src/secure.rs:934-1017 | what a created, joined or synchronised session looks like |
| `SessionStore.RetentionTimes` | wasm/src/secure.rs:925-932 | kept are exactly the sessions attached or used within 60 s |
| `SessionStore.KeyStaysBound` | wasm/src/secure.rs:1020-1041 | over every run a session bound to a static key stays bound to it while it is stored, and no other key is confirmed |
| `SessionStore.AttachedSessionsStay` | wasm/src/secure.rs:925-932 | an attached session survives every handshake with its root key |
| `SessionStore.TableStaysSmall` | wasm/src/secure.rs:988-990 | the table never exceeds 2048 sessions |
| `SessionStore.SyncAdvances` | wasm/src/secure.rs:956-967 | a `Sync` moves both send counters strictly forward if and only if the epoch is not the last |
| `SessionStore.SendAdvances` | wasm/src/secure.rs:649-663 | a sent packet's nonce lies between the old and the new counters if and only if it does not rotate off the last epoch |
| `SessionStore.ReceiveKeepsCounters` | wasm/src/secure.rs:672-711 | receiving never moves the send counters |
| `SessionStore.NextKeepsSound` | wasm/src/secure.rs:557-620 | every operation of every connection keeps all nonces emitted under one root key behind the counters of its session |
| `SessionStore.NoncesIncrease` | wasm/src/secure.rs:649-724 | over every interleaving, the nonces under a root key strictly increase per direction as long as its own session does not wrap, whatever other sessions do |
| `SessionStore.NoNonceReuse` | wasm/src/secure.rs:649-670 | no traffic key of such a root key sees one nonce twice |
| `SessionStore.WrapReusesNonce` | wasm/src/secure.rs:956-967 | a concrete session whose wrapped epoch repeats the first nonce |
| `SessionStore.AttachmentsCountHolders` | wasm/src/secure.rs:557-576 | over every run a session's count is the number of connections attached, so the session of an attached connection never disappears |
| `SecurePeer.Table.UpsertSession` | wasm/src/secure.rs:919-1018 | performs `Upsert`, error paths included |
| `SecurePeer.Table.ConfirmSessionPublicKey` | wasm/src/secure.rs:1020-1041 | succeeds if and only if the session exists and is unbound or bound to this key; then binds it; a refusal changes nothing |
| `SecurePeer.HighestEpoch` | wasm/src/secure.rs:956-963 | the loops over all slots find the highest epoch in use |
| `SecurePeer.Peer.LoadSessionState` | wasm/src/secure.rs:578-598 | the copy equals the stored session |
| `SecurePeer.Peer.PersistSessionState` | wasm/src/secure.rs:600-620 | writes back the copied fields and nothing else |
| `SecurePeer.Peer.AttachSession` | wasm/src/secure.rs:557-576 | counts one attachment, or fails without a trace |
| `SecurePeer.Peer.Drop` | wasm/src/secure.rs:822-837 | gives the attachment back |
| `SecurePeer.Peer.BuildMsg2` | wasm/src/secure.rs:365-430 | refuses an empty secret, a second call and a used handshake without a trace; else selects, attaches and loads, with every failure in between |
| `SecurePeer.Peer.FinishMsg3` | wasm/src/secure.rs:446-491 | authenticates if and only if envelope and proof are right and the stored key is absent or the same, and only once; a bad envelope leaves the handshake open |
| `SecurePeer.Peer.MaybeRotateEpoch` | wasm/src/secure.rs:713-724 | performs `Rotate` |
| `SecurePeer.Peer.EncryptPayload` | wasm/src/secure.rs:649-670 | performs `Send` on the copy |
| `SecurePeer.Peer.EncryptPacket` | wasm/src/secure.rs:535-553 | one whole `Send` on the stored session, whatever stale copy the connection held |
| `SecurePeer.Peer.EvictSlots` | wasm/src/secure.rs:735-746 | the nested loop evicts exactly the idle slots |
| `SecurePeer.Peer.EvictOldRxSlots` | wasm/src/secure.rs:726-733 | performs `Evict` |
| `SecurePeer.Peer.PrecheckReplay` | wasm/src/secure.rs:748-774 | decides `Precheck` |
| `SecurePeer.Peer.CommitReplay` | wasm/src/secure.rs:776-819 | performs `Commit` on its direction only |
| `SecurePeer.Peer.DecryptPayload` | wasm/src/secure.rs:672-711 | performs `Receive` on the copy |
| `SecurePeer.Peer.DecryptPacket` | wasm/src/secure.rs:508-532 | one whole `Receive` on the stored session, whatever stale copy the connection held |
| `Reassembly.MergeKeepsQuotas` | wasm/src/rpc.rs:533-650 | every merge keeps the three quotas, and the internal errors do not occur |
| `Reassembly.ImmediateIs` | wasm/src/rpc.rs:533-556 | which packets are complete, malformed or without descriptor before the table is asked |
| `Reassembly.TurnedAwayExactly` | wasm/src/rpc.rs:556-592 | a packet is turned away exactly for a changed piece count, 64 transactions of its peer, or 32768 pieces in all |
| `Reassembly.MergeDoes` | wasm/src/rpc.rs:595-650 | what each outcome leaves in the table, and that 32 MiB is the limit |
| `Reassembly.FreshIsRecent` | wasm/src/rpc.rs:652-662 | kept are exactly the transactions heard within 10 s |
| `Reassembly.Reassembler.MergePacket` | wasm/src/rpc.rs:533-650 | the counter-keeping merge performs the counter-free one, counters stay the sums, internal errors are unreachable |
| `Reassembly.Reassembler.Store` | wasm/src/rpc.rs:595-624 | stores one piece or drops the transaction over the byte limit; no subtraction clips |
| `Reassembly.Reassembler.Declare` | wasm/src/rpc.rs:577-592 | a new transaction adds its declared pieces to the count |
| `Reassembly.Reassembler.Assemble` | wasm/src/rpc.rs:637-649 | the pieces in order under piece 0's envelope |
| `Reassembly.Reassembler.RemovePending` | wasm/src/rpc.rs:664-671 | removes one transaction and exactly its share of the counters |
| `Reassembly.Reassembler.CleanPending` | wasm/src/rpc.rs:652-662 | removes exactly the transactions idle for 10 s |
| `Reassembly.Reassembler.RemovePeer` | wasm/src/rpc.rs:156-164 | removes exactly the peer's transactions |
| `ReassemblyRuns.QuotasAlwaysHold` | wasm/src/rpc.rs:533-671 | the quotas hold in every reachable state |
| `ReassemblyRuns.PendingWhileIncomplete` | wasm/src/rpc.rs:595-627 | from any table without its key, until its last piece the table holds exactly what was delivered of a message |
| `ReassemblyRuns.RoundTrip` | wasm/src/rpc.rs:533-650 | from any table without its key, a split message comes out whole exactly at its last missing piece, whatever order, repetitions and traffic |
| `RouteSync.NextTransactionIdIsFree` | wasm/src/rpc.rs:673-684 | a drawn id is free and non-zero; none is drawn only if no draw was |
| `RouteSync.FlushSends` | src/core/rpc.ts:188-212 | a wanted update is sent if and only if the outside lets it through, and is then in flight and recorded for 3 s; else the wish is kept |
| `RouteSync.RequestSends` | src/core/rpc.ts:168-186 | a request to an idle peer is sent at once, in full if that was ever asked; during a flight it is noted |
| `RouteSync.MaintainSends` | src/core/rpc.ts:156-166 | maintenance asks exactly the peers idle for 10 s |
| `RouteSync.AnswerSettles` | wasm/src/rpc.rs:332-397 | a response settles its transaction exactly up to the deadline, and commits it exactly if it accepts |
| `RouteSync.ResponseReleases` | src/core/rpc.ts:140-154 | a settled transaction ends the flight, and what was wanted meanwhile is sent at once |
| `RouteSync.UnsettledIsIgnored` | wasm/src/rpc.rs:332-345 | an unknown, late or unusable response is no error and changes nothing of the driver |
| `RouteSync.CleaningRetriesAll` | src/core/rpc.ts:98-111 | after cleaning no update is lost: every peer in flight for more than 3 s is sent a full one at once or has it wanted, and no other peer is touched |
| `RouteSync.EasyTierRpc.DrawTransactionId` | wasm/src/rpc.rs:673-684 | the loop takes the first free draw |
| `RouteSync.EasyTierRpc.BuildRouteUpdate` | wasm/src/rpc.rs:401-463 | cleans, then records the update with its deadline, or changes nothing else |
| `RouteSync.EasyTierRpc.FlushRouteUpdate` | src/core/rpc.ts:188-212 | performs `Flush` on both layers; failures keep the flags |
| `RouteSync.EasyTierRpc.SendUpdate` | src/core/rpc.ts:168-186 | marks the request and flushes |
| `RouteSync.EasyTierRpc.Maintain` | src/core/rpc.ts:156-166 | asks again only when idle for 10 s |
| `RouteSync.EasyTierRpc.CoreResponse` | wasm/src/rpc.rs:329-398 | settles a known transaction before its deadline, and nothing else |
| `RouteSync.EasyTierRpc.OnResponse` | src/core/rpc.ts:140-154 | lands the flight and flushes what became due |
| `RouteSync.EasyTierRpc.Clean` | src/core/rpc.ts:78-113 | the same of the loop over the table of states |
| `RouteSync.EasyTierRpc.Add` | src/core/rpc.ts:48-56 | forgets the peer's driver state only |
| `RouteSync.EasyTierRpc.Remove` | src/core/rpc.ts:58-61 | forgets the peer on both layers |
| `RouteSyncRuns.StartsAlone` | src/core/rpc.ts:188-189 | when the driver may start a transaction, none of that peer can still be committed |
| `RouteSyncRuns.AtMostOneLive` | wasm/src/rpc.rs:332-342 | at most one sent transaction per peer can be committed |
| `RouteSyncRuns.AddIsExact` | src/core/rpc.ts:48-56 | adding a peer keeps the layers in step if and only if nothing of it is live |
| `RouteSyncRuns.RunsStaySound` | src/core/rpc.ts:78-212 | in every orderly run: single flight, and no requested update is lost, full ones met only by full builds |
| `RouteSyncRuns.CommitsOnceInTime` | wasm/src/rpc.rs:332-397 | in every run each built update is committed at most once and never after its deadline |
| `RouteSyncRuns.CommitsInBuildOrder` | wasm/src/rpc.rs:375-397 | in every orderly run a peer's updates are committed in build order |
| `RouteSyncRuns.ReAddOverlaps` | src/core/rpc.ts:48-56 | re-adding a peer during a flight gives two live transactions |
| `ConnBitmap.PosIsInjective` | wasm/src/route_state.rs:925-928 | row*n+col determines row and col |
| `ConnBitmap.PosInRange` | wasm/src/route_state.rs:916-928 | every position lies inside the matrix |
| `ConnBitmap.Encode` | wasm/src/route_state.rs:916-940 | the in-place encoder writes exactly the matrix |
| `ConnBitmap.MatrixEncodes` | wasm/src/route_state.rs:930-940 | a bit is set exactly when one of the two rows names the other peer |
| `ConnBitmap.EncodingIsUnique` | wasm/src/route_state.rs:916-946 | the bytes are determined by the rows |
| `ConnBitmap.Decode` | wasm/src/route_state.rs:810-827 | the receiver's loops read `DecodedRow`, positions wrapping at 2^32 |
| `ConnBitmap.EncodingsAgree` | wasm/src/route_state.rs:810-940 | while positions fit 32 bits, what is read back is the symmetric closure of the rows, without self-loops |
| `ConnBitmap.ReadsBackExactly` | wasm/src/route_state.rs:810-827 | every topology of n peers reads back as its closure if and only if n * n is at most 2^32 |
| `ConnBitmap.MisreadExample` | wasm/src/route_state.rs:810-827 | 65537 peers and one link, which is read a second time in another row |
| `ConnBitmap.DiagonalFollowsRow` | wasm/src/route_state.rs:930-939 | the diagonal bit is set iff the row names its own peer, and is not read |
| `RouteInvariants.MatrixReadsBack` | wasm/src/route_state.rs:810-940 | every matrix within the 8192-peer limit is read back as the closure of the topology, ids and versions included |
| `RouteInvariants.SelfLoopIsBuilt` | wasm/src/route_state.rs:926-940 | a run after which the matrix has a bit on its diagonal |
| `RouteState.RouteState.AddPeer` | wasm/src/route_state.rs:227-260 | performs `AddPeer` on its network, or refuses the key length |
| `RouteState.RouteState.RemovePeer` | wasm/src/route_state.rs:262-278 | performs `RemovePeer` on its network |
| `RouteState.RouteState.PurgeInfos` | wasm/src/route_state.rs:343-355 | the nested loop performs `Purge` |
| `RouteState.RouteState.SweepGroup` | wasm/src/route_state.rs:293-358 | the two passes perform `Sweep` |
| `RouteState.RouteState.SweepExpiredRouteInfo` | wasm/src/route_state.rs:288-364 | sweeps every network and reports exactly the changed ones and the dead |
| `RouteState.RouteState.OnRouteSessionAck` | wasm/src/route_state.rs:376-394 | a new session id forgets what the old one acknowledged |
| `RouteState.RouteState.CommitRouteUpdate` | wasm/src/route_state.rs:396-424 | the loop saves the highest acknowledged versions |
| `RouteState.RouteState.SelectInfos` | wasm/src/route_state.rs:527-564 | the loop picks exactly the infos due |
| `RouteState.RouteState.BuildConnInfo` | wasm/src/route_state.rs:845-948 | withheld, cached, rebuilt or too large, as `BuildConn` says |
| `RouteState.RouteState.BuildSyncRouteInfoRequest` | wasm/src/route_state.rs:491-608 | performs `Build`, the size error included |
| `RouteState.RouteState.StoreReportedInfos` | wasm/src/route_state.rs:645-697 | the loop stores the sender's own newer infos |
| `RouteState.RouteState.ReadRows` | wasm/src/route_state.rs:799-827 | reads the rows of either encoding, skipping list rows without a peer id |
| `RouteState.RouteState.StoreConnRows` | wasm/src/route_state.rs:758-830 | the loop stores the sender's own newer rows, every one of them, each cut to the relay and the known peers |
| `RouteState.RouteState.HandleSyncRouteInfoRequest` | wasm/src/route_state.rs:611-726 | performs `Handle`, a foreign request refused without a trace |
| `RouteState.RouteState.GetNextHop` | wasm/src/route_state.rs:368-374 | a member's next hop is itself; nobody else has one |
| `RouteInvariants.JoinAccounts` | wasm/src/route_state.rs:243-259 | joining bumps the topology version if and only if it changes the topology; the relay's row stays the member set |
| `RouteInvariants.LeaveAccounts` | wasm/src/route_state.rs:262-278 | the same for leaving |
| `RouteInvariants.SweepAccounts` | wasm/src/route_state.rs:292-358 | a sweep bumps the version whenever it changes the topology |
| `RouteInvariants.SyncAccounts` | wasm/src/route_state.rs:645-709 | a request bumps the version whenever it changes the topology |
| `RouteInvariants.BuildCoherenceIsExact` | wasm/src/route_state.rs:518-525 | a build keeps the caches coherent if and only if it knows its target, or the topology is acknowledged, the matrix is cached or would be too large |
| `RouteInvariants.BuildDescribes` | wasm/src/route_state.rs:856-947 | unless it spoils the cache, the connections a build carries are the current topology, cached or not |
| `RouteInvariants.CachesStayCoherent` | wasm/src/route_state.rs:743-947 | over every run, whoever updates are built for: a cache tagged with the current version equals the rebuilt encoding if and only if no build for an unknown peer filled it since the topology last changed |
| `RouteInvariants.StepSpoils` | wasm/src/route_state.rs:743-747 | every change of the topology makes the caches coherent again, a spoiling build leaves a wrong matrix, anything else leaves things as they are |
| `RouteInvariants.StrangerSpoilsCache` | wasm/src/route_state.rs:518-525 | a run in which a member is swept and its overdue update rebuilt, which spoils the cache |
| `RouteInvariants.RowsAreOwnerControlled` | wasm/src/route_state.rs:758-830 | a client's row changes only by its own higher-versioned report, of which exactly the relay, the members and the peers with an info are kept, or by removal |
| `RouteInvariants.NewerRowsAreStored` | wasm/src/route_state.rs:758-830 | every newer row of the sender is stored, and a change is claimed exactly when one is |
| `RouteInvariants.LastInfoIsStored` | wasm/src/route_state.rs:645-697 | a peer's last report is what is stored, unless the same instance is stored under a version at least as high |
| `RouteInvariants.GreetingIsRecorded` | wasm/src/route_state.rs:625-643 | a request leaves its session id and time, and another id forgets what was remembered |
| `RouteInvariants.ForeignRequestIsRefused` | wasm/src/route_state.rs:611-623 | a request in another peer's name is refused without a trace, and no other is |
| `RouteInvariants.LeavingLeavesNothing` | wasm/src/route_state.rs:262-278 | a peer that leaves is gone from everywhere and forgotten by every session |
| `RouteInvariants.RowVersionsRise` | wasm/src/route_state.rs:792-797 | over every run a stored row's version never falls and identifies the row |
| `RouteInvariants.MyRowFollowsMembers` | wasm/src/route_state.rs:732-739 | in each of the seven events the relay's row is the member set and its version rises by the number of members gained and lost, as long as nobody else bears its id |
| `RouteInvariants.MyRowCountsMembers` | wasm/src/route_state.rs:732-739 | over every run in which nobody else bears the relay's id, its row is the member set and the row's version the number of members gained and lost, mod 2^32 |
| `RouteInvariants.UnreportedMeansUnchanged` | wasm/src/route_state.rs:699-725 | a request not reported as a change changed no info, row or version |
| `RouteInvariants.ReportedExactly` | wasm/src/route_state.rs:645-725 | a request is reported as a change exactly if it brings an info of another instance or higher version, or a row of higher version, of the sender's own |
| `RouteInvariants.SweepIsSound` | wasm/src/route_state.rs:288-364 | exactly the members not heard within 90 s go, with their infos; of the others exactly the infos go that are older than 90 s and either older than 3660 s or of a peer not heard; it says whether anything went |
| `RouteInvariants.OnlyTrafficTouches` | wasm/src/route_state.rs:504-511 | only received traffic makes a peer look alive |
| `RouteInvariants.SurvivorsWereHeard` | wasm/src/route_state.rs:288-364 | over every run, whoever a sweep leaves was heard by traffic of its own within 90 s |
| `RouteInvariants.SilentPeersAreSwept` | wasm/src/route_state.rs:288-314 | a silent peer is gone after the first sweep past 90 s, however many updates were built for it |
| `RouteAcks.TableForgets` | wasm/src/route_state.rs:630-643 | no event of the table makes a session remember more than was acknowledged |
| `RouteAcks.ResponseBacksTopology` | wasm/src/route_state.rs:376-424 | after a response in order, the topology a session remembers is backed by a response under that session |
| `RouteAcks.ResponseBacksSaved` | wasm/src/route_state.rs:396-424 | after a response in any order, the versions a session remembers are |
| `RouteAcks.SavedIsAlwaysBacked` | wasm/src/route_state.rs:396-424 | in every run at all, every version a session remembers was acknowledged under that session, and its peer named when it says |
| `RouteAcks.RunsStaySound` | wasm/src/route_state.rs:376-424 | over every regular run, what sessions remember of the topology is backed, and what was built describes the topology of its version unless the cache is spoiled |
| `RouteAcks.WithheldIffAcked` | wasm/src/route_state.rs:571-577 | connections are withheld if and only if the session counts the topology as acknowledged, force-full or not |
| `RouteAcks.FullUpdateWithholds` | wasm/src/route_state.rs:571-577 | a regular run after which a force-full update withholds connections |
| `RouteAcks.BuildFailsExactly` | wasm/src/route_state.rs:856-914 | no update is built exactly when it would carry a new matrix of more than 8192 peers |
| `RouteAcks.EncodingFollowsPeer` | wasm/src/route_state.rs:866-947 | connections come as a list exactly to peers that read lists |
| `RouteAcks.ResponseIsRecorded` | wasm/src/route_state.rs:376-424 | a response leaves its session id and time, every version and the topology the update carried |
| `RouteAcks.WithheldTopologyIsSafe` | wasm/src/route_state.rs:856-863 | in every regular run in which the cache is not spoiled, connections are withheld only if the current session acknowledged exactly the current topology within 60 s |
| `RouteAcks.SpoiledIsWithheld` | wasm/src/route_state.rs:856-863 | whenever the cache is spoiled, a peer that has acknowledged nothing is sent a wrong matrix, and once it answers, connections are withheld |
| `RouteAcks.WithheldTopologyWasSent` | wasm/src/route_state.rs:856-947 | in every regular run, spoiled or not, withheld connections were acknowledged within 60 s in an update of the current version that describes the topology or is the spoiled matrix, built since the spoiling |
| `RouteAcks.LateAckRefreshes` | wasm/src/route_state.rs:419-422 | exactly when an acknowledgement moves the time of a version it did not acknowledge |
| `RouteAcks.LateAckExample` | wasm/src/route_state.rs:419-422 | a run that breaks only the order of responses, each within its 3 s, after which connections are withheld though the topology was last acknowledged over 60 s ago |
| `RouteInfoAcks.OnlyOwnersChangeInfos` | wasm/src/route_state.rs:647-697 | an info is changed by its owner only |
| `RouteInfoAcks.LeftOutIff` | wasm/src/route_state.rs:527-564 | an info is left out if and only if the update is incremental and a version at least as high is freshly recorded |
| `RouteInfoAcks.OwnChangeIsCarried` | wasm/src/route_state.rs:426-451 | a change of the relay's own info is in the next update to every peer, under the next version |
| `RouteInfoAcks.WithheldInfoIsSafe` | wasm/src/route_state.rs:527-564 | peer by peer, in every run in which answered updates carried an older version or the stored info and changed infos of one instance rise above what is remembered: a left-out info was itself acknowledged by the current session, and named within 60 s |
| `RouteInfoAcks.WithheldVersionIsSafe` | wasm/src/route_state.rs:527-564 | peer by peer, in every run in which no answered update carried more of the peer than is stored and no first report falls below what is remembered: a left-out info's normalised version was acknowledged by the current session, and named within 60 s |
| `RouteInfoAcks.NeverFallingKeepsUp` | wasm/src/route_state.rs:668-697 | a peer that never reports under a version below one sent of it meets that condition in every run |
| `RouteInfoAcks.AnswerHides` | wasm/src/route_state.rs:396-424 | the condition on responses is exact: past it, the stored info is left out |
| `RouteInfoAcks.LateAckHidesNewInfo` | wasm/src/route_state.rs:680-684 | whenever a second report does not raise the normalised version, a regular run leaves the new info out though nobody acknowledged it |
| `RelayRuns.RunFollows` | src/core/rpc.ts:78-212 | in every orderly run of driver and table together, the driver makes an orderly run of its own |
| `RelayRuns.StepTells` | wasm/src/rpc.rs:375-463 | the table hears of every event of the driver: each update before it is sent, each response as the update its transaction stands for |
| `RelayRuns.ResponsesComeInOrder` | wasm/src/rpc.rs:375-397 | in every orderly run of the two, responses reach the table in build order, each for the peer its update was built for |
| `RelayRuns.RelayWithholdsSafely` | wasm/src/rpc.rs:375-463 | withheld topology is safe in every orderly run of the two, with nothing assumed of the order of responses |
| `RelayRuns.RelayWithholdsWhatWasSent` | wasm/src/rpc.rs:375-463 | the same with the cache spoiled: what was acknowledged describes the topology or is the spoiled matrix, built since the spoiling |
| `RelayRuns.JoinAfterLeaveIsOrderly` | src/core/rpc.ts:48-61 | a peer that has left may be added again at once: none of its transactions is live |
| `Rooms.RoomRegistry.Get` | src/runtime/rooms.ts:6-8 | the entry under a name, if any |
| `Rooms.RoomRegistry.Set` | src/runtime/rooms.ts:10-19 | places the connection and hands back whom it displaced |
| `Rooms.RoomRegistry.Delete` | src/runtime/rooms.ts:21-27 | removes only this very connection's entry, and emptied rooms |
| `Rooms.RoomRegistry.Peers` | src/runtime/rooms.ts:29-31 | exactly the connections of the network |
| `Rooms.DroppedLookup` | src/runtime/rooms.ts:21-27 | removal affects no other name |
| `ServerState.ReleaseCounts` | src/server.ts:361-369 | giving a slot back keeps both counters exact; the guards against underflow are never needed |
| `ServerState.AdmitIsRight` | src/server.ts:185-218 | an accepted socket keeps all books and all limits |
| `ServerState.RoomIsReal` | src/server.ts:185-189 | the three tests on counters are tests on the connections they count |
| `ServerState.LimitsHold` | src/server.ts:185-218 | the counters are the numbers they stand for, within 2048, 256 and the limit per address |
| `ServerState.CloseIsRight` | src/server.ts:484-500 | closing one connection keeps all books |
| `ServerState.ReadyIsRight` | src/server.ts:332-334 | finishing a handshake keeps all books |
| `ServerState.EnterIsRight` | src/server.ts:459-463 | entering a room displaces at most one ready connection |
| `ServerState.OneReadyPerPeer` | src/runtime/rooms.ts:10-19 | at most one ready connection per network and peer |
| `ServerState.LookupIsReady` | src/server.ts:534-547 | the room entries are exactly the ready connections |
| `Server.EasyTierServer.Fetch` | src/server.ts:185-218 | accepts if and only if all three limits leave room |
| `Server.EasyTierServer.Close` | src/server.ts:605-612 | closes, tells the network, keeps the books, and terminates with its cascade; besides it exactly those are closed to which sending failed |
| `Server.EasyTierServer.RemoveConnection` | src/server.ts:484-500 | the same on every book |
| `Server.EasyTierServer.BroadcastRouteUpdate` | src/server.ts:518-532 | offers every ready connection of the network but the excluded one an update, full or not as asked, closes exactly those to which sending failed, and ends |
| `Server.EasyTierServer.AnnouncePeer` | src/server.ts:513-516 | every ready connection of the network is offered an update, a full one exactly once after a restart |
| `Server.EasyTierServer.RegisterConnection` | src/server.ts:459-466 | enters the connection and closes exactly whoever was ready under its name, and those to which sending failed |
| `Server.EasyTierServer.FinishHandshake` | src/server.ts:354-357 | the connection is ready unless the route layer did not take it or sending to it failed; everyone in its network is offered an update |
| `Server.EasyTierServer.OnLegacyHandshake` | src/server.ts:296-336 | finishes under the greeted name, or closes |
| `Server.EasyTierServer.OnHandshakeMessage1` | src/server.ts:261-282 | on to message 3 under the greeted name, or closed; nobody else is touched |
| `Server.EasyTierServer.OnHandshakeMessage3` | src/server.ts:338-358 | finishes with proof, closes without |
| `Server.EasyTierServer.ResolveRecipient` | src/server.ts:544-553 | the ready connection of the destination if there is one, else that of the gateway if there is one, else nobody |
| `Server.EasyTierServer.ForwardFrame` | src/server.ts:376-403 | a frame goes to the ready connection of its destination in the sender's network, if there is one; if it cannot take the frame it is closed |
| `Server.EasyTierServer.OnRequest` | src/server.ts:451-457 | a change of session or route is offered to the sender, a change of route to its whole network; a refused request closes it |
| `Server.EasyTierServer.HandleMessage` | src/server.ts:233-259 | every frame in every phase, with all of the above; closed connections do nothing |
| `Server.EasyTierServer.OnTimeoutOrSocketClosed` | src/server.ts:213-228 | closes, once or again, and tells the network |
| `Server.EasyTierServer.Maintain` | src/server.ts:557-591 | closes exactly what the route layer gave up and those to which sending failed, tells the changed networks, and offers an update to everyone due |
| `SendLimiter.Connection.Send` | src/runtime/connection.ts:88-107 | performs the windowed decision |
| `SendLimiter.WindowQuota` | src/runtime/connection.ts:88-107 | every window carries at most 4096 frames and 32 MiB |
| `SendLimiter.GoesOutIfItFits` | src/runtime/connection.ts:88-107 | an offer goes out exactly if its window has room by what went out in it |
| `SendLimiter.TwoWindows` | src/runtime/connection.ts:89-94 | one second meets at most two windows |
| `SendLimiter.AnySecond` | src/runtime/connection.ts:88-107 | any second carries at most twice the quotas |

## Left out

- Noise XX, HMAC, HKDF, the AEAD ciphers, X25519 and SipHash: opening a packet is an input, a traffic key is a free function of root key, epoch and direction.
- Protobuf, JSON and base64: messages are datatypes; a decoding failure is one of the inputs.
- Durable Object storage, identity and route-id persistence, WebSocket creation, timers, logging: timer firings are events.
- Times are unbounded naturals, so the saturating additions of 5 s and 3 s to a 64-bit clock never saturate; one call reads the clock once.
- The windows inside epoch slots are the value `Window`; `ReplayWindow256` proves that the 32-byte form behaves as that value, but a slot does not hold the byte array itself.
- The first-seen binding of reported public keys and `foreign_net_ver`, which nothing in the table depends on; setting the persisted route id.
- RouteAcks.WithheldTopologyIsSafe: assumes that the topology version does not wrap around 2^64, that requests come from members, and that responses come in build order; `RelayRuns` proves the last. `RelayRuns` is the machine of one network, no step of the relay being about two, and takes the peer ids of its driver from that network.
- Plain `+` on words wraps, as the release profile compiles it: the relay's row version and the position in a reported matrix wrap at 2^32.
- Server.EasyTierServer.Close: a `socket.close` that throws is not modelled: the model assumes that the hosting platform takes the constant codes and reasons passed to it, 1011 and 1013 included; connections are identities in a table of records rather than heap objects, and the live iteration over a room is a walk over a snapshot that skips entries removed meanwhile.
- Server.EasyTierServer.SendRouteUpdate: whether the update can be built and sent is left open here, and recorded; `RouteSync` has the details.
- PeerCenter, configuration parsing, packet header packing, legacy handshake digests: maps and single branches whose behaviour one reading shows.
