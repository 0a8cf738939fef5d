# tubo: verified model

A Dafny model of the protocol cores of tubo, and proofs about them. `dafny verify dfyconfig.toml`
checks everything. Nothing was executed.

| part | files |
|---|---|
| exact access: share, redeem, renew, revoke, open | `Credentials`, `SigningMessages`, `ExactTables`, `ExactAccess`, `ExactTrails`, `HonestAccess`, `RaceExamples` |
| discovery replica and the fenced sync owner | `TimeText`, `SyncLease`, `DiscoveryTables`, `Discovery`, `SyncController` |
| session lifecycle and byte pump | `Sessions`, `SessionOutcomes`, `SessionCleanup`, `SessionProgress`, `SessionObjects`, `ReplacedCarrier`, `Pump` |
| relay reservation | `RelayReservation` |
| bootstrap bundle | `Bundle`, `BundleCodec` |
| traversal, logical paths, watch stream | `Traversal`, `LogicalPath`, `PipeWatch` |

A protocol is a state machine. Each store call, critical section, channel close or channel receive is
one atomic step of one thread, and a run is any sequence of steps. The main theorems are about every
state of every run. Code that works in place is also given as classes and loops, whose contracts are
the transitions or functions that the theorems speak about.

## How the model is idealised

- A signature is membership in a set of (key, body) pairs. Signed bodies are kept apart as
  `SigningMessages` proves of the byte strings, and `ExactAccess.CheckedProofsAreDetermined` of the proofs
  that are checked. Identifiers and challenges are any texts that their generators can produce.
- `PipeIDFromOwner` is injective; a snapshot digest is the set of payloads it covers.
- `ExactAccess` and `HonestAccess` are about Pipes without a Scope, whose revocation scope is their own
  Pipe ID.
- The discovery tables are those of one scope; a row is its payload and its discovered flag. The runs of
  `Discovery` hold for any order in which a response lists rows.
- Times are integer nanoseconds. In stored RFC3339Nano text the part up to the whole second has a fixed
  width (section 5.1 of RFC 3339).
- In `SyncController` only waits and attempts take time.
- In `SessionProgress` a Read or Write returns, without bytes and with an error, once the session has closed
  the endpoint it is on; until then it may or may not return.
- Lengths of `string` values stand for Go's byte lengths; the bundle codec works on bytes.

## What turned out not to hold

Each of these is a lemma with the exact condition under which the property does hold.

- A comment at internal/store/store.go:1178-1179 says a live owner always wins. An acquisition can take
  a lease in its last second, because the guards compare text (`SyncLease.LiveOwnerLosesIffTextMisordered`).
- Two concurrent revocations of a Pipe may raise its epoch once (`ExactAccess.RevokeRaisesIffUncontended`,
  `RaceExamples.TwoRevocationsRaiseOnce`).
- A redemption that a revocation overtakes writes a relationship that is stale at once
  (`ExactAccess.AcceptanceIsCurrentIffUnrevoked`, `RaceExamples.OvertakenRedemptionIsStale`), and can lower the
  epoch of the client's relationship (`ExactAccess.AcceptanceLowersIffNewer`,
  `RaceExamples.OvertakenRedemptionLowersEpoch`).
- A store that caches a record and then publishes that very record does not list it
  (`Discovery.PublishedUnlessCached`, `Discovery.CachedThenPublishedHappens`).
- Not all bounds that `settings()` accepts keep the lease (`SyncController.KeepsLeaseIff`): some TTLs are too
  short, and with a cadence of at most the renew interval it can run out without any extension
  (`SyncController.SlowRenewalRunsOut`).
- A carrier that `SetActiveCarrier` replaces is neither closed nor reset, and Stop waits for a pump that still
  reads it as long as it gives no event (`Sessions.CarrierEndedIffLast`, `SessionProgress.StopProgressIff`,
  `SessionProgress.WedgeLasts`, `ReplacedCarrier.StopWaits`).
- A proof message with a NUL in a part does not determine its parts
  (`SigningMessages.ProofDeterminesPartsIffNulFree`).
- `Sign` can produce a bundle that `ParseVerify` refuses (`Bundle.RoundTripIff`, `Bundle.SignedButOversized`).

## Model

| member | source | states |
|---|---|---|
| SigningMessages.MessageNamesFamilyAndPayload | internal/accesslease/sign.go:67-79 | Three credential domains and three proof purposes give six disjoint message families: equal messages have equal family and equal payload |
| SigningMessages.ProofDeterminesPartsIffNulFree | internal/accesslease/sign.go:158-182 | A proof message determines its parts among lists of the same length if and only if there is at most one part or no part holds a NUL |
| SigningMessages.JoinInjective | internal/accesslease/sign.go:158-164 | Joining NUL-free parts is injective, even against lists that are not NUL-free |
| SigningMessages.JoinAmbiguous | internal/accesslease/sign.go:158-164 | A list of two or more parts with a NUL in one of them has another list of that length with the same message |
| Credentials.MintedLeaseWindow | internal/accesslease/accesslease.go:87-204 | A lease minted at t carries what it was asked for, expires at t + lifetime <= t + 10 min, and verifies under its own key, subject and Pipe exactly when t is a real time and t - 30s <= t' < expiry |
| Credentials.MintedInviteWindow | internal/accesslease/invite.go:79-225 | An invite minted at t is one-time, carries what it was asked for, and verifies for its Pipe exactly when the owner signed its binding for that Pipe, t is a real time and t - 30s <= t' < expiry |
| Credentials.NewAccessLease | internal/accesslease/accesslease.go:87-107 | Mints exactly for a canonical subject, a Pipe ID of 1 to 256 characters and a lifetime in (0, 10 min] |
| Credentials.NewExactInvite | internal/accesslease/invite.go:79-105 | Mints exactly for the Pipe that the binding names, of 1 to 256 characters, and a lifetime in (0, 10 min] |
| Credentials.RedemptionLeaseWindow | internal/exactauthority/redeem.go:168-215 | A verified invite always yields a lease, for every configured lifetime; it expires at t plus the configured lifetime (ten minutes when that is not in (0, 10 min]) or with the invite, whichever is first, and verifies exactly in its window |
| Credentials.RenewalLeaseWindow | internal/exactauthority/renew.go:104-158 | A renewed lease is minted for every configured lifetime, lasts exactly that long (ten minutes when it is not in (0, 10 min]), and verifies exactly in its window |
| ExactTables.ExactStore.constructor | internal/store/store.go:1706-1884 | The tables start empty |
| ExactTables.ExactStore.Revoke | internal/store/store.go:1708-1744 | Records the epoch exactly for nonblank text within bounds, a positive epoch and no greater one recorded; writes that one row and nothing else, and nothing on failure; same errors in the same order |
| ExactTables.ExactStore.RedeemInviteAndAccept | internal/store/store.go:1817-1868 | Succeeds exactly for nonblank text and an (invite, Pipe) that is free or already this client's; the first redemption binds the client and writes the relationship, a retry writes nothing, a failure writes nothing |
| ExactTables.ExactStore.AcceptedRelationship | internal/store/store.go:1870-1884 | Fails exactly for blank input; finds exactly the stored relationship |
| ExactTables.RevokeIsLater | internal/store/store.go:1708-1744 | A revocation lowers no epoch, forgets no revocation and rebinds no invite |
| ExactTables.RedeemIsLater | internal/store/store.go:1817-1868 | Nor does a redemption |
| ExactAccess.NextInv | internal/exactauthority/redeem.go:129-194 | Every action of share, redeem, renew, revoke or open keeps the protocol invariant: who signed what, which reads were made when, what backs every lease, relationship and open |
| ExactAccess.RunInv | internal/exactauthority/renew.go:56-158 | So every state of every interleaving satisfies it |
| ExactAccess.TablesGrow | internal/store/store.go:1708-1753 | Along every run epochs, revocations and redemptions are never taken back |
| ExactAccess.OpenSource | internal/runtime/exact_authorizer.go:92-147 | Every open rests on a minted lease of that client and Pipe whose epoch covers the one read, and on an invite that client redeemed, with the epoch read when it was shared; the checks behind it are in ExactTrails.OpenTrail |
| ExactAccess.RevocationFencesOpens | internal/runtime/exact_authorizer.go:121-147 | In every interleaving, an open whose epoch read follows the commit that raised the epoch to e succeeds only with a lease of epoch >= e that descends from an invite whose epoch was read after that commit |
| ExactAccess.InviteBindsOneRecipient | internal/exactauthority/redeem.go:151-194 | A redeemed (invite, Pipe) keeps one recipient for ever; each lease minted from it names that recipient with the invite's epoch; each accepted row is backed by an invite its recipient redeemed at that epoch |
| ExactAccess.RevokeRaisesIffUncontended | internal/cli/app.go:993-1012 | A committed revocation leaves the epoch above what it read, and raises it itself if and only if no other revocation raised the epoch since |
| ExactAccess.AcceptanceIsCurrentIffUnrevoked | internal/exactauthority/redeem.go:135-166 | A first redemption leaves a current relationship if and only if no revocation raised the epoch between its epoch check and its write |
| ExactAccess.AcceptanceLowersIffNewer | internal/store/store.go:1817-1868 | In every run a first redemption replaces a relationship by one of a lower epoch if and only if the same client holds one of an epoch above the one this redemption read; it came by that one since the read, after a revocation raised the epoch |
| ExactAccess.AcceptedEpoch | internal/exactauthority/renew.go:104-130 | An accepted relationship never has an epoch above the Pipe's |
| ExactAccess.CheckedProofsAreDetermined | internal/accesslease/sign.go:130-175 | In every run the message of every possession proof that redemption, renewal or open checks determines its parts, because Pipe IDs, generated identifiers and challenges hold no NUL |
| ExactTrails.ThreadTrail | internal/exactauthority/redeem.go:61-166 | In every run each thread of share, redeem, renew, revoke or open has behind it, in order, the actions that brought it where it stands, and each of them saw in its own state what that step must check |
| ExactTrails.OpenTrail | internal/runtime/exact_authorizer.go:92-147 | Every open of every run: an earlier action saw this client's signed open proof for its challenge and Pipe, with a lease of this client and Pipe signed by the Pipe's authority and in its window; a later one saw the lease unrevoked, so it had never been revoked before; the last saw an epoch not above the lease's |
| ExactTrails.RedemptionTrail | internal/exactauthority/redeem.go:61-166 | Every redemption row of every run: its recipient signed the redemption proof for that invite and challenge while the invite was the authority's, owner-bound, one-time and in its window; then it was seen unrevoked, then at the current epoch, then free or already this recipient's |
| ExactTrails.AcceptanceTrail | internal/store/store.go:1817-1868 | Every accepted relationship of every run carries the invite and epoch of such a redemption by its client |
| ExactTrails.LeaseTrail | internal/exactauthority/renew.go:56-158 | Every lease of every run was minted either at the end of such a redemption or at the end of a renewal: the relationship found under an owner-signed binding, its invite seen unrevoked, its epoch current, and the recipient's signed renewal proof at the mint; subject, Pipe, epoch, issue and expiry times are those of that exchange |
| ExactTrails.InviteTrail | internal/usecase/share.go:64-101 | Every invite of every run was minted by a share, for ten minutes, under the Pipe's own keys, at the epoch that the share had read |
| RaceExamples.TwoRevocationsRaiseOnce | internal/cli/app.go:993-1012 | Two revocations that both read before either commits raise the epoch once |
| RaceExamples.OvertakenRedemptionIsStale | internal/exactauthority/redeem.go:135-166 | A revocation between a redemption's epoch check and its write leaves the accepted relationship below the epoch |
| RaceExamples.OvertakenRedemptionLowersEpoch | internal/exactauthority/redeem.go:135-166 | Epoch check, revocation, share, redemption by the same client, and then the first commit: the client's relationship goes from epoch e + 1 back to e |
| HonestAccess.HonestClientOpens | internal/usecase/share.go:64-101 | From any state of a valid world, a share, redemption and open of one thread with nothing in between, at any three clock readings within the windows of invite and lease, and with no revocation of either, end in a recorded open |
| HonestAccess.Shares | internal/usecase/share.go:64-101 | An undisturbed share mints an invite at the current epoch with the owner's binding |
| HonestAccess.Presentable | internal/exactauthority/redeem.go:61-128 | A freshly shared invite with a redemption proof passes every check of redemption |
| HonestAccess.RedemptionRuns | internal/exactauthority/redeem.go:129-194 | An undisturbed redemption binds the client and mints a lease |
| HonestAccess.LeaseHolds | internal/runtime/exact_authorizer.go:92-120 | A lease from redemption with an open proof passes the authorizer's checks |
| TimeText.TextOrderIsTimeOrderIff | internal/store/store.go:1180-1225 | The order of two stored times as text is their order in time if and only if the whole seconds differ or neither fraction's text is a proper prefix of the other's |
| TimeText.FractionOrder | internal/store/store.go:1180-1225 | Fractions without trailing zeros compare as numbers except where one is a proper prefix of the other |
| SyncLease.ScopeLease.AcquireScopeSyncLease | internal/store/store.go:1180-1207 | Wins exactly when the input is valid and there is no row or its expiry text is not after now's; then the row is the new owner from now to now + ttl, else it is unchanged |
| SyncLease.ScopeLease.RenewScopeSyncLease | internal/store/store.go:1209-1225 | Extends exactly the caller's own unexpired row, which keeps its acquisition time |
| SyncLease.ScopeLease.ReleaseScopeSyncLease | internal/store/store.go:1227-1240 | Deletes exactly the caller's own row |
| SyncLease.LiveOwnerLosesIffTextMisordered | internal/store/store.go:1178-1225 | An unexpired lease is lost to a rival, and refused renewal, if and only if now and expiry share a second and the text of now is a proper prefix of the expiry's |
| SyncLease.LiveOwnerCanLose | internal/store/store.go:1178-1207 | A lease that expires at 5.5s is taken at 5s |
| SyncLease.RunInv | internal/store/store.go:1180-1240 | Over any run with any clock readings the row belongs to the last winner, and writes follow acquisition order |
| SyncLease.WritesFollowAcquisitionOrder | internal/store/store.go:1276-1296 | Fenced writes group into tenures in acquisition order |
| SyncLease.WriteHasOneTenure | internal/store/store.go:1381-1385 | Each fenced write belongs to exactly one tenure |
| SyncLease.SupersededTokenNeverWrites | internal/store/store.go:1276-1336 | After a later acquisition commits, no write fenced by an earlier token ever commits |
| SyncLease.WriteCommitsIffFenced | internal/store/store.go:1276-1296 | A fenced write commits if and only if the row has exactly its four nonempty fields and expires after now |
| DiscoveryTables.FindDuplicate | internal/store/store.go:1356-1380 | Finds a repeated Pipe if there is one, and otherwise collects exactly the listed Pipes |
| DiscoveryTables.ValidateAll | internal/store/store.go:1356-1380 | Reports the first invalid or expired record |
| DiscoveryTables.PutRecords | internal/store/store.go:987-1000 | The write loop is the fold of the single-row writes, stopping at the first error |
| DiscoveryTables.PutIff | internal/store/store.go:948-985 | A row is written exactly for a record in bounds and unexpired that has a higher sequence than its row or is that row's record |
| DiscoveryTables.PutAllIff | internal/store/store.go:987-1000 | A snapshot's rows are written exactly when each is storable over its own cached row; rows of the store's own and rows not listed stay |
| DiscoveryTables.FirstInvalidIff | internal/store/store.go:948-960 | No record is reported exactly when all are in bounds and unexpired |
| DiscoveryTables.ReconcileCommitsIff | internal/store/store.go:1356-1411 | The exact condition under which a reconcile commits, and those under which it reports a lost lease, a rollback and an ambiguous generation |
| DiscoveryTables.FailureKeepsPosition | internal/store/store.go:1298-1328 | A failed refresh is recorded exactly under a fence that still holds; it keeps every row, the last success and the last snapshot's generation, mark and digest |
| DiscoveryTables.ListRows | internal/store/store.go:1112-1134 | The first rows in order of name and Pipe ID, up to the limit; complete exactly when there are no more |
| DiscoveryTables.DiscoveryStore.PutAuthoritativeRecord | internal/store/store.go:1144-1158 | Commits exactly for a record in bounds and unexpired that neither replays nor contradicts its row, below the counter's end; then writes that row and advances the generation by one, else changes nothing |
| DiscoveryTables.DiscoveryStore.AuthoritySnapshot | internal/store/store.go:1080-1142 | Drops exactly the owned rows whose expiry text is not after now's, advancing the generation by one if there are any; then lists owned rows by name and Pipe ID, without repetition, up to the limit, none of them expired by text; complete exactly when all are listed, and what is cut comes after what is listed |
| DiscoveryTables.DiscoveryStore.ReconcileAuthoritativeSnapshot | internal/store/store.go:1356-1429 | Commits exactly for a valid snapshot whose fence, if any, names the row's four nonempty fields before its expiry, that is not older than the last one nor another one of its generation, and that replays no cached record; then records its position, all writes or none; same errors in the same order |
| Discovery.ReconcileMakesReplica | internal/store/store.go:1398-1429 | A successful reconcile leaves as cached rows exactly the snapshot's content minus locally owned keys and rows expired by text; local rows are untouched |
| Discovery.RunInv | internal/runtime/authority.go:472-522 | In every run each generation has one recorded content, every response lists the discoverable part of its generation, and the cache comes from one generation |
| Discovery.GenerationDeterminesContent | internal/store/store.go:1056-1158 | Any two complete responses of equal generation carry the same records and high-water mark |
| Discovery.NeverAmbiguous | internal/store/store.go:1395-1397 | The receiver's ambiguous-generation rejection never fires against such an authority, however late or often a response arrives |
| Discovery.DeliveryRefreshesReplica | internal/runtime/client.go:223-271 | In every run an accepted response makes the cache the replica of its generation and the freshness complete; a rejected one changes no record row and no generation, and is recorded with its error class and retry under a fence that still holds |
| Discovery.AnswerIsComplete | internal/runtime/authority.go:472-522 | A response is sent only when complete; it carries the authority's current generation and lists exactly its own discoverable records |
| Discovery.GenerationNeverGoesBack | internal/store/store.go:1392-1394 | Under delay, repetition and reordering the member's generation never goes back |
| Discovery.FencedDeliveryIsTheOwners | internal/store/store.go:1381-1385 | In every run, with the lease row moved by acquire, renew and release, a fenced delivery that changes the member carries the lease in the row, unexpired, with the token won last |
| Discovery.SupersededDeliveryChangesNothing | internal/store/store.go:1276-1336 | In every run, once a later acquisition has won, no delivery fenced by the earlier token changes the member |
| Discovery.CacheIsOneGeneration | internal/store/store.go:962-1000 | At every moment every cached row is a row of visibility discoverable of the member's one generation, which is what the authority held while that generation was current |
| Discovery.PublishedUnlessCached | internal/store/store.go:962-985 | Publishing advances the generation, and the next snapshot lists the record if and only if it is discoverable and the store did not already cache that very record |
| Discovery.CachedThenPublishedIsMissing | internal/store/store.go:1144-1158 | A record that was reconciled into a store and is then published there is in no snapshot, though the generation is a new one |
| Discovery.CachedThenPublishedHappens | internal/store/store.go:1144-1158 | One such store, which answers with an empty listing |
| SyncController.Resolve | internal/runtime/sync.go:71-107 | Given fields are kept and zero ones take the defaults; refused exactly when the result breaks a bound |
| SyncController.SyncOwner.RunOwner | internal/runtime/sync.go:146-174 | The owner loop is the function of the environment's choices that the timing theorems are about |
| SyncController.SyncOwner.Attempt | internal/runtime/sync.go:177-204 | So is one attempt with its renewal ticker |
| SyncController.SyncOwner.RenewLease | internal/runtime/sync.go:165-170 | A renewal extends the row and is logged, or the lease is lost |
| SyncController.RunKeeps | internal/runtime/sync.go:146-212 | In every run with cadence > renew, successive extensions are at most 2 renew + min(renew, timeout) apart, the row is the owner's, and an ample lease is lost only when an attempt reports so |
| SyncController.OwnerTimeline | internal/runtime/sync.go:14-19 | Extensions at most 3 renew apart, attempts at least one cadence after the previous one ended |
| SyncController.AttemptTimeline | internal/runtime/sync.go:177-212 | One attempt exactly: renewals every renew interval from its start until it is done or one is refused; lost if and only if one was refused or the call reported it; the next attempt due at the stored retry or one cadence and the jitter after the end, whichever is later |
| SyncController.WaitTimeline | internal/runtime/sync.go:146-174 | One wait exactly: renewals every renew interval strictly before the due time, up to the first refusal, and then the due time |
| SyncController.DefaultsAreAmple | internal/runtime/sync.go:14-19 | The shipped bounds satisfy the condition |
| SyncController.KeepsLeaseIff | internal/runtime/sync.go:71-107 | Of all accepted settings, exactly those keep the lease from every rival, at every instant of every run from every start, whose cadence exceeds the renew interval and whose TTL is at least a second more than 2 renew + min(renew, timeout) |
| SyncController.ShortLeaseIsLost | internal/runtime/sync.go:146-212 | For every shorter TTL that is accepted with cadence > renew, a run in which a renewal is refused |
| SyncController.SlowRenewalRunsOut | internal/runtime/sync.go:146-174 | For every accepted cadence of at most the renew interval, a run that never extends the lease and goes on past its expiry without noticing |
| SyncController.TakenInSomeRun | internal/runtime/sync.go:71-107 | For every other accepted setting, a start and a run in which a rival's acquisition wins |
| SyncController.RivalNeverAcquires | internal/store/store.go:1180-1207 | An ample lease is never taken by a rival, at any instant from its acquisition to wherever the run has got to |
| Sessions.NextInv | internal/runtime/session.go:200-399 | Every step of every thread keeps the lifecycle invariant: single closer, work count equal to the threads inside work, registry, and what each line of Stop and Close may assume |
| Sessions.RunInv | internal/runtime/ownership.go:40-121 | So every state of every interleaving satisfies it |
| Sessions.PipeCloseReturns | internal/runtime/ownership.go:104-121 | A call of PipeRuntime.Close returns only once done is closed |
| Sessions.NodeCloseReturns | internal/runtime/ownership.go:59-79 | Likewise NodeRuntime.Close |
| Sessions.PipeCloseIsFinal | internal/runtime/ownership.go:93-121 | Once Close has returned, every session ever created under the Pipe is stopping with no admitted work and no thread inside any, and so in every later state, with no other session |
| Sessions.NodeCloseIsFinal | internal/runtime/ownership.go:40-79 | The same for every Pipe of the Node, with no other Pipe or session |
| Sessions.OneCloser | internal/runtime/session.go:228-309 | In every state: one closer if and only if stopping, workDone closed once if and only if stopping with no work, stopDone once; work count equals the threads inside work; at most one terminal action, never before stopping, graceful only after both directions were clean |
| Sessions.CarrierEndedIffLast | internal/runtime/session.go:311-329 | Once stopDone is closed, a carrier got exactly one Close or Reset if it is the last installed one, and none otherwise; which of the two is in SessionOutcomes.TerminalReportsLastPump |
| Sessions.WorkNeverUnderflows | internal/runtime/session.go:238-247 | The underflow panic of finishWork is unreachable |
| SessionOutcomes.NextSection | internal/runtime/session.go:200-399 | Whatever happens next, each session stays as it is or moves by exactly one of its critical sections, whose guard then held |
| SessionOutcomes.TerminalReportsLastPump | internal/runtime/session.go:311-321 | Every terminal action of every run is issued on the carrier installed last, once the session is stopping, and is a Close exactly when the last pump that ended was clean in both directions, a Reset otherwise |
| SessionOutcomes.PumpResultExplained | internal/runtime/session.go:377-457 | Every pump result of every run: a direction is reported clean only after it read EOF, and as failed only after one of its reads or writes failed |
| SessionOutcomes.DirectionExplained | internal/runtime/session.go:404-457 | In every run what each pump direction has seen explains where it is |
| SessionOutcomes.CancelledAdmitsNothing | internal/runtime/session.go:209-236 | In every run, once the session is stopping or its context, its Pipe's or the Node's is cancelled, no step admits work to it or installs a carrier |
| SessionOutcomes.CreationNeedsOpenParent | internal/runtime/ownership.go:40-102 | A Pipe is created only under an open, uncancelled Node, and a session only under an open, uncancelled Pipe, with a nonempty ID that is not registered |
| SessionOutcomes.StopReturnsDone | internal/runtime/session.go:332-339 | A call of Stop returns only once stopDone is closed |
| SessionOutcomes.ServedSessionIsStopped | internal/runtime/session.go:352-359 | runServerSession, once admitted, goes through Stop before it returns |
| SessionCleanup.ClosedLeavesNothing | internal/runtime/session.go:311-329 | In every state of every run: a session whose stopDone is closed is out of its registry, cancelled, with its target closed; a closed Pipe is cancelled with an empty registry; a Pipe whose Close is done is out of the Node |
| SessionProgress.StopProgressIff | internal/runtime/session.go:311-359 | From stopping to stopDone some thread that Stop depends on has a step it need not wait for, if and only if it is not so that the closer waits and every outstanding call of the work is on a replaced carrier |
| SessionProgress.StopCompletes | internal/runtime/session.go:311-359 | In every run, whatever is interleaved, stopDone is closed once as many steps that need not wait were taken as the measure Effort was when the session began to stop |
| SessionProgress.EffortFalls | internal/runtime/session.go:226-399 | No action of any thread raises that measure of a stopping session, and every step that need not wait lowers it |
| SessionProgress.CloserStep | internal/runtime/session.go:311-329 | The closer moves to its next line exactly when it need not wait, and leaves the work alone |
| SessionProgress.HolderStep | internal/runtime/session.go:377-457 | A step of a thread inside work never moves it away from its finishWork, and moves it nearer when it need not wait |
| SessionProgress.Bystander | internal/runtime/session.go:226-339 | No other thread and no call from outside reaches a stopping session, its closer or its work |
| SessionProgress.WedgeLasts | internal/runtime/session.go:311-329 | As long as the replaced carriers give no event, a session in that state stays in it and stopDone stays open, whatever else happens |
| SessionProgress.StopCanComplete | internal/runtime/session.go:311-359 | In every run, from the moment a session with at most one installed carrier is stopping, a schedule of at most Effort steps that need not wait closes stopDone |
| SessionProgress.OneInstallNeverWedges | internal/runtime/session.go:209-217 | With at most one installed carrier that never happens |
| ReplacedCarrier.ReplacedCarrierWedges | internal/runtime/session.go:209-217 | A run in which it happens: the pump's reader of the closed target has ended, its reader of the replaced carrier waits, and that carrier was neither closed nor reset |
| ReplacedCarrier.StopWaits | internal/runtime/session.go:311-329 | However that run goes on, Stop has not finished as long as the replaced carrier gives no event |
| SessionObjects.SessionPump.constructor | internal/runtime/session.go:178-206 | A new session is not stopping and has no work |
| SessionObjects.SessionPump.SetActiveCarrier | internal/runtime/session.go:209-217 | Installs exactly while neither stopping nor cancelled, and then the given carrier; nothing else changes |
| SessionObjects.SessionPump.AdmitWork | internal/runtime/session.go:228-236 | Admits exactly while neither stopping nor cancelled; then there is one more work and workDone is open |
| SessionObjects.SessionPump.CloseWorkDoneLocked | internal/runtime/session.go:249-254 | Restores that workDone is closed exactly when stopping without work |
| SessionObjects.SessionPump.FinishWork | internal/runtime/session.go:238-247 | One work less; panics exactly on underflow, else workDone closes exactly with the last work of a stopping session |
| SessionObjects.SessionPump.BeginStop | internal/runtime/session.go:293-309 | Exactly the first call becomes closer and takes the active carrier |
| SessionObjects.SessionRegistry.Get | internal/runtime/session.go:120-127 | Finds a registered session while the registry is open |
| SessionObjects.SessionRegistry.Register | internal/runtime/session.go:129-143 | Succeeds exactly for a new nonempty ID in an open registry; errors in order |
| SessionObjects.SessionRegistry.Remove | internal/runtime/session.go:145-151 | Removes an entry only while it is this session's own |
| SessionObjects.SessionRegistry.CloseAll | internal/runtime/session.go:153-166 | The first call hands out every registered session, one per entry, and empties the map; later calls hand out none |
| Pump.Reader.Read | internal/runtime/session.go:407-419 | Any reader that obeys io.Reader: the bytes read and the rest make up the stream |
| Pump.WriteAll | internal/runtime/session.go:460-488 | Delivers all bytes, or a proper prefix and an error; an error on the last byte is not one |
| Pump.Copy | internal/runtime/session.go:404-457 | Clean if and only if the source ended with EOF and no write lost bytes; then exactly the source bytes in order were delivered and counted, and the half-close came once, after the last byte; a failing direction delivered a prefix and requested the stop |
| RelayReservation.RelayReservation.constructor | internal/reachability/relay_reservation.go:91-118 | The margin is positive |
| RelayReservation.RelayReservation.Record | internal/reachability/relay_reservation.go:205-215 | Succeeds exactly when the reservation outlives now + minDelay |
| RelayReservation.RelayReservation.Maintain | internal/reachability/relay_reservation.go:172-193 | One maintenance pass in place |
| RelayReservation.RelayReservation.Acquire | internal/reachability/relay_reservation.go:126-138 | Ready exactly when the relay granted a renewable reservation |
| RelayReservation.RelayReservation.Serve | internal/reachability/relay_reservation.go:163-196 | Tick by tick: silent exactly when connected and before expires - margin or before last + minDelay; else a refused grant ends readiness, and a grant replaces expiry and time and is ready exactly when it outlives now + minDelay |
| RelayReservation.OnTickDoes | internal/reachability/relay_reservation.go:163-243 | The same of one tick of the run theorems |
| RelayReservation.RecordSucceedsIff | internal/reachability/relay_reservation.go:205-243 | The deadline lies in [last + minDelay, expires) exactly when record succeeds, which is exactly when expires > last + minDelay |
| RelayReservation.ReadyIsScheduled | internal/reachability/relay_reservation.go:126-196 | In every run, with failures and disconnections, ready means a renewal is scheduled before expiry |
| RelayReservation.RenewedBeforeExpiry | internal/reachability/relay_reservation.go:163-243 | In every connected run with ticks at most T apart, successful grants longer than minDelay + T and margin > T, every tick precedes the current expiry and no tick fails |
| RelayReservation.RenewedInTimeIff | internal/reachability/relay_reservation.go:220-243 | One reservation is renewed before expiry for every pattern of ticks at most T apart if and only if deadline - 1 + T < expires |
| RelayReservation.DefaultsRenewInTime | internal/reachability/relay_reservation.go:23-44 | The shipped margin, delay and tick renew every grant longer than 35s in time |
| Bundle.DecodesInteger | internal/reachability/bundle/bundle.go:256-262 | Big-endian decoding undoes encoding |
| Bundle.EncodesInteger | internal/reachability/bundle/bundle.go:256-262 | And the other way round |
| Bundle.DecodesTime | internal/reachability/bundle/bundle.go:362-369 | A time survives its eight bytes if and only if it is an int64 number of nanoseconds |
| Bundle.EncodesTime | internal/reachability/bundle/bundle.go:362-369 | Every eight bytes are the encoding of the time read from them |
| Bundle.ReadsField | internal/reachability/bundle/bundle.go:318-360 | Reading a length-prefixed field undoes writing it |
| Bundle.FieldRead | internal/reachability/bundle/bundle.go:318-360 | A field that was read is exactly what would be written |
| Bundle.ReadsAddresses | internal/reachability/bundle/bundle.go:286-301 | Reading accepted addresses undoes writing them |
| Bundle.AddressesRead | internal/reachability/bundle/bundle.go:286-301 | Addresses that were read are canonical and pass every check of the writer |
| Bundle.ParsesUnsigned | internal/reachability/bundle/bundle.go:256-315 | Parsing the encoding of an accepted bundle with int64 times gives that bundle and the exact remainder |
| Bundle.UnsignedRead | internal/reachability/bundle/bundle.go:256-315 | What was parsed is the encoding of the parsed bundle followed by the remainder |
| Bundle.RoundTripIff | internal/reachability/bundle/bundle.go:191-245 | A signed encoding parses back to its bundle if and only if it is at most 16 KiB, its times are int64, the first pinned root with its key ID is a bootstrap root and verifies it, and now is within the window |
| Bundle.AcceptedIsCanonical | internal/reachability/bundle/bundle.go:191-245 | Every accepted byte string is canonical(b) of a well-formed b, the byte 64 and a signature of it by the first pinned root with its key ID, a bootstrap root, within the window |
| Bundle.SignedRefusals | internal/reachability/bundle/bundle.go:191-245 | The exact outcome of every signed encoding with int64 times: oversized, downgrade, unknown version, unpinned root, invalid signature, not yet valid, expired, or the bundle |
| Bundle.CanonicalIffWellFormed | internal/reachability/bundle/bundle.go:114-168 | canonical() accepts exactly the well-formed bundles, and writes this layout byte by byte |
| Bundle.AddressesAcceptedIff | internal/reachability/bundle/bundle.go:148-164 | The address checks pass exactly for distinct addresses of at most 4096 bytes that validation accepts |
| Bundle.AddressLayout | internal/reachability/bundle/bundle.go:318-326 | Each address in order behind its length in two bytes, the high one first |
| Bundle.NanosLayout | internal/reachability/bundle/bundle.go:164-168 | Byte i of a time is digit 7 - i to base 256 of its int64 nanoseconds |
| Bundle.PinnedRootIsFirst | internal/reachability/bundle/bundle.go:247-254 | A root is found exactly when some root has the key ID, and it is the first that has it |
| Bundle.OneEncodingPerBundle | internal/reachability/bundle/bundle.go:114-168 | Two accepted byte strings for one bundle differ at most in their signatures |
| Bundle.SignedButOversized | internal/reachability/bundle/bundle.go:173-184 | Any five distinct addresses of the greatest length that address validation accepts give a bundle whose signed encoding is refused as oversized |
| BundleCodec.Canonical | internal/reachability/bundle/bundle.go:114-168 | The writer's checks and its address loop give the canonical bytes exactly for a well-formed bundle, or the first error in the source's order |
| BundleCodec.WriteAddresses | internal/reachability/bundle/bundle.go:148-164 | The address loop with its seen map: all addresses appended, or the first error |
| BundleCodec.Sign | internal/reachability/bundle/bundle.go:173-184 | Canonical bytes, the byte 64, and the signature of those bytes |
| BundleCodec.Cursor.ReadLen | internal/reachability/bundle/bundle.go:328-360 | Advances past exactly one field |
| BundleCodec.Cursor.ReadTime | internal/reachability/bundle/bundle.go:362-369 | Advances past exactly one time |
| BundleCodec.Cursor.ReadAddressList | internal/reachability/bundle/bundle.go:286-301 | The loop over addresses with its seen map |
| BundleCodec.Cursor.ParseUnsigned | internal/reachability/bundle/bundle.go:256-284 | The parser up to the remainder, same errors in the same order |
| BundleCodec.Cursor.ParseBody | internal/reachability/bundle/bundle.go:273-315 | The parser from the kind check on |
| BundleCodec.FindRoot | internal/reachability/bundle/bundle.go:247-254 | None exactly when no root has the key ID; otherwise roots[i] for the first i that has it |
| BundleCodec.ParseVerify | internal/reachability/bundle/bundle.go:191-245 | The verifier that the round-trip theorems are about, same errors in the same order |
| Traversal.FromWire | internal/engine/engine.go:108-128 | Succeeds exactly for a duplicate-free list shorter than a limit of at most eight, with the rest of the limit as budget; reports a loop exactly for a repeated ID under a limit in range |
| Traversal.BoundedStrings | internal/runtime/authority.go:563-570 | Every string within the limit |
| Traversal.CheckOpen | internal/runtime/serve.go:90-106 | Accepts exactly an open for this Pipe with every string in bounds, fewer visited Pipes than a limit of at most eight, no repetition and not this Pipe; and the exact condition of each error |
| Traversal.AdmissibleIff | internal/runtime/serve.go:90-106 | The same of the function that the chain theorems use |
| Traversal.Advance | internal/engine/engine.go:85-106 | A hop succeeds exactly with budget left and a Pipe not visited; it moves one unit of the budget to the end of the visited list |
| Traversal.FirstOpenAccepted | internal/runtime/exact_downstream.go:120-129 | The open of a chain's start is accepted by the next Pipe; a missing limit becomes eight |
| Traversal.Serve | internal/runtime/serve.go:90-233 | Gets hold of a target exactly for an admissible open with an unexpired authorization of this Pipe and client, whose target is a Service or a Pipe not on the chain with budget left; forwards the visited list with its own ID under the same hop limit; each failing call has its outcome; a target it got hold of is closed by serve itself exactly when no session ran over it |
| Traversal.TraversalCannotFail | internal/runtime/serve.go:118-135 | After serve's own checks FromWire and Advance cannot fail |
| Traversal.ForwardAgreesWithDownstream | internal/engine/engine.go:230-264 | Forward's loop and budget test passes exactly when the downstream's wire test will |
| Traversal.ChainGrows | internal/runtime/exact_downstream.go:120-129 | Along every chain the visited list is the start's plus exactly the Pipes passed, under an unchanged hop limit |
| Traversal.ChainIsBounded | internal/engine/engine.go:85-128 | No Pipe is entered twice, hopLimit - visited drops by one per hop, and there are at most eight Pipes in all |
| LogicalPath.PathsDoNotRepeat | internal/domain/graph.go:32-36 | A path that reaches a Service repeats no Pipe |
| LogicalPath.PathsAreUnique | internal/domain/graph.go:19-65 | There is at most one path from a start |
| LogicalPath.TextIdentifiesPipes | internal/domain/ref.go:45-50 | The visited key tells Pipe references apart |
| LogicalPath.FaithfulCarries | internal/domain/graph.go:41-61 | For loaders that return the reference they were asked for, what is returned is the path itself |
| LogicalPath.PathSpecs | internal/domain/model.go:44-166 | Every Pipe on a path has a valid spec of kind pipe whose target is the next reference, of kind pipe or service and not itself; the terminal is a valid service |
| LogicalPath.Limit | internal/domain/graph.go:23-25 | A positive limit is the limit; otherwise it is eight |
| LogicalPath.ResolveLogicalPath | internal/domain/graph.go:19-65 | For any loaders: succeeds exactly when following targets through valid specs reaches a valid Service within the hop limit, and returns the references that this path's specs carry; the cycle check refuses no resolvable path; and each error says where the targets lead |
| PipeWatch.ChangedFields | internal/cli/pipe_views.go:553-565 | Empty exactly when status, source and freshness are unchanged |
| PipeWatch.SortedKeys | internal/cli/pipe_views.go:494-506 | The keys of both projections, each once, in increasing byte order |
| PipeWatch.DiffPipeViews | internal/cli/pipe_views.go:493-532 | One event for exactly the keys that came, went or changed status, source or freshness, in increasing key order; each shows the view before and after, lists exactly the fields that differ, and has the one type that is true of it |
| PipeWatch.EventShows | internal/cli/pipe_views.go:493-551 | The same of the event of one key: added, removed, expired exactly when the previous view had elapsed and is gone or lost its network source, else degraded, recovered or updated |
| PipeWatch.ChangedLabels | internal/cli/pipe_views.go:553-565 | A label is listed exactly when its field differs, each once, in order |
| PipeWatch.KeyTellsViewsApart | internal/cli/pipe_views.go:491 | Equal keys of scopes without a NUL have equal scope and Pipe ID |
| PipeWatch.PollTracks | internal/cli/pipe_views.go:424-445 | Events applied to a replica that agreed with the previous projection make it agree with the current one |
| PipeWatch.StreamTracks | internal/cli/pipe_views.go:422-445 | After every poll of every run, replaying the whole stream gives the keys, status, source and freshness of the current projection |
| PipeWatch.TypesAreTrue | internal/cli/pipe_views.go:536-551 | Each event's type (added, removed, expired, degraded, recovered, updated) is true of what a replaying consumer sees before and after the poll |
| PipeWatch.Collect | internal/cli/pipe_views.go:434-437 | The current projection of the listed items; of two with one key the later counts |
| PipeWatch.Watcher.PollViews | internal/cli/pipe_views.go:424-445 | One poll: emits that difference and keeps the current projection |

## Left out

- libp2p hosts, dialing, relay connections and stream I/O: foreign calls, replaced by outcomes chosen by the environment.
- Real cryptography, base64, JSON and multiaddr parsing: library code.
- SQL text, schema migration, configuration, telemetry, runs, supervisors and peer aliases.
- Scope-token issuance, quarantined scope-token authorization, and revocation of scoped Pipes through a remote authority.
- Command-line parsing, rendering, logs and launchd supervision.
- Key files: creation and loading are taken to give one stable key per Pipe.
- LazyExactAuthorizer: loading the authority key at first use would only add an easy member.
- SyncController.Run's retry loop before an acquisition; the owner starts from a committed acquisition.
- Carriers that SetActiveCarrier refused, and further closes by its callers.
- Overflow of epochs, byte counters and hop counters; generations keep their exhaustion guard.
- SessionProgress.StopCompletes: counts steps that need not wait; that Go's scheduler goes on taking them is not modelled.
- LogicalPath.ResolveLogicalPath: nil loaders are not modelled.
- Traversal.Serve: starts at the open; the hello frames, the expiry timer and session accounting are not modelled.
- HonestAccess.HonestClientOpens: other threads acting in between are not covered.
- PipeWatch.SortedKeys: stands for sort.Strings, whose algorithm is not modelled.
- Pump.Copy: a writer that returns neither progress nor an error violates io.Writer and is not modelled.
- RelayReservation.RelayReservation.Serve: over a finite run of ticks; cancellation ends the run.
