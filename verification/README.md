# Hangang: a verified model

Hangang is a gateway written in Rust. This project models the parts of it that
are small concurrent protocols, fenced caches, state machines and bounded
parsers, in Dafny, and proves what they promise over every run, every input or
every reachable state.

`dafny verify dfyconfig.toml` checks the whole project.

## What is modelled

- **Shared HTTP-01 challenges** (`ChallengeKey`, `ChallengeProof`,
  `ChallengeSystem`, `ChallengeOutcome`, `ChallengeKeeping`, `ChallengePlay`;
  section 8.3 of RFC 8555). Inserts, keepalives and removals of a key are tasks; each store mutation is an operation of its own that
  carries the key's lock, also when its caller has given up or was dropped.
  Every access to shared state is one step and steps interleave freely. The
  lock registry holds weak references. A store call that fails may or may not
  have taken effect, and the record may expire at any time.
- **Configuration authority** (`ConfigManager`, `Authority`). `ConfigManager`
  is one instance: how it judges a stored document, prepares a write and
  resolves a conflict, as a class proved against functions. `Authority` runs
  any number of instances against one store, with polls of any document of the
  history, compare-and-swap conflicts, lost replies that land late or never,
  wiped stores and fresh attachments.
- **Readiness** (`Readiness`): the `ready`/`withdrawing`/`stopping` flags, one
  atomic access per step.
- **Cache runtime** (`CacheRuntime`, `CacheFence`, `CacheOrigin`,
  `FillCapacity`): the packed fence token, guarded lookups with disk promotion, single-flight fills with
  permits, the publication lock, purges that take it and generation changes
  that do not.
- **Capture** (`Capture`): the streaming body that buffers what it forwards,
  racing its deadline task.
- **Cache keys** (`Framing`, `NameOrder`, `CacheKey`; section 7.6.1 of RFC 9110
  for hop-by-hop fields): the bytes fed to the hash and the normal form they
  stand for.
- **Balancing** (`Selection`, `NodeHealth`, `EndpointEpoch`, `MemberGate`,
  `Generations`): weighted selection and least connections, the health of a
  node per endpoint epoch, the packed admission word, and generations of nodes
  across reconfigurations.
- **ClientHello** (`Hostname`, `HelloBody`, `HelloParser`, `HelloRecords`,
  `HelloReader`; sections 4.1.2 and 5.1 of RFC 8446, section 3 of RFC 6066):
  records, handshake message, body, extensions and server name, with an
  independent serialization to which the parser is proved inverse.
- **Token bucket** (`TokenBucket`) and **issuance retry** (`Issuance`).

Objects that the program changes in place are classes whose methods are proved
against functions of the old state. Protocols between tasks, threads or
instances are step systems: a state, an event type, which events are enabled,
what each does, and theorems over whole runs: what never happens, where every
outcome comes from, and that an operation nobody disturbs succeeds.

## Assumptions

- One instance writes a given challenge key, and a store mutation takes effect
  no later than its operation is over.
- A compare-and-swap applies exactly when the durable document has the expected
  epoch and revision; a read returns some document of the store's history; an
  epoch name is never used for a second history.
- Fewer than 2^32 local purges happen within one cache generation, where
  `CacheFence` says so; `CacheFence.TokenCheckIsExact` shows what the token
  check decides without that bound.
- The hash of a cache key is a parameter. `CacheKey.KeysSeparate` and
  `CacheKey.KeysAgreeExactly` alone take it to be injective.
- Endpoint resets are one step, as they run under the node's lock. Feedback of
  a lease taken at epoch zero takes no lock; it is one step too, because a node
  with a native address is never observed at another epoch.
- The issuer returns only certificates it has validated, whose expiry is clamped
  to the epoch and lies in the future (src/acme.rs:2610-2616); a panic inside an
  issuance attempt is not modelled.
- The readiness steps interleave as sequentially consistent accesses, while the
  source uses acquire and release orderings.
- Whether a text is an IP address is a parameter, as are clocks, files, the CA
  and the outcome of preparing or publishing a snapshot.

Where the code and its comments disagree the model follows the code: the
comment on `adopt_generation` (src/cache.rs:102-106) says that any other
generation is adopted, while the code adopts only a higher one.

## Model

| member | source | states |
|---|---|---|
| `ChallengeProof.StepKeeps` | src/acme.rs:730-1000 | Every step of inserts, keepalives, removals and store operations on a key keeps the lock, waiter and record invariants |
| `ChallengeProof.FindLockKeeps` | src/acme.rs:730-742 | Looking the lock up through a weak reference, and replacing it only when dead, never gives a key a second live lock object |
| `ChallengeProof.LaunchKeeps` | src/acme.rs:1137-1220 | A mutation takes the guard with it, so the key stays locked although its caller no longer holds it |
| `ChallengeProof.AbandonKeeps` | src/acme.rs:1137-1220 | A mutation whose caller gives up keeps the guard and may still land without harming a newer installation |
| `ChallengeProof.DropKeeps` | src/acme.rs:565-584 | A dropped caller leaves its running mutation in possession of the key's lock |
| `ChallengeSystem.RunInv` | src/acme.rs:755-1000 | The invariant holds for every key in every reachable state of the whole store |
| `ChallengeSystem.OkMeansCurrent` | src/acme.rs:743-845 | An insert reports Ok only for the current entry, with its own record or an expired one in the store |
| `ChallengeSystem.AcknowledgedRecordIsOwn` | src/acme.rs:755-1000 | While an installation that reported Ok is current, the shared record is its own or has expired, and nothing but its own refresh is in flight |
| `ChallengeSystem.WithdrawalAdmission` | src/acme.rs:930-1000 | A withdrawal is admitted only while the key has no entry |
| `ChallengeSystem.TaskOrigin` | src/acme.rs:930-1000 | Whoever is about to withdraw has been so ever since its own check, which found no entry, and carries the installations of that moment |
| `ChallengeSystem.OpOrigin` | src/acme.rs:949-1000 | A withdrawal in flight has been so ever since its launch, by the task whose own check admitted it |
| `ChallengeSystem.WithdrawalIsFinal` | src/acme.rs:949-1000 | A withdrawal that takes effect was launched by the task whose own check found no entry, with only that task waiting and then that operation in flight in between; from then on every record and entry of the key comes from an installation made after that check |
| `ChallengeSystem.FailureLeavesNoEntry` | src/acme.rs:743-861 | The installation of a failed insert never becomes the current entry again |
| `ChallengeSystem.OneMutationPerKey` | src/acme.rs:565-584 | At any time a key has one live lock object, one mutation in flight counting abandoned ones, and no guard held beside it |
| `ChallengeSystem.InstalledBound` | src/acme.rs:777-782 | Never more than 4096 challenges are installed |
| `ChallengeOutcome.FailureHasCause` | src/acme.rs:755-845 | An insert fails only because its turn did not come, its installation was not the current one at one of its two checks, or its last publication was given up on or ended without an acknowledgement with no attempt left |
| `ChallengeOutcome.FailureIsFinal` | src/acme.rs:755-861 | After any of these events the insert only rolls back and never reports Ok |
| `ChallengeOutcome.OkHasCause` | src/acme.rs:755-845 | An insert that reported Ok found its own entry, launched its publication, which landed and was acknowledged to it, and found its own entry again, in this order |
| `ChallengeOutcome.OkExcludesFailed` | src/acme.rs:755-861 | No insert both succeeds and fails |
| `ChallengeOutcome.AcknowledgedWaits` | src/acme.rs:824-844 | An acknowledged insert keeps the guard until its second check, unless its caller is dropped |
| `ChallengeOutcome.ConfirmDecides` | src/acme.rs:833-844 | The second check reports Ok exactly for the current installation, keeps entry and record, starts a keepalive and frees the guard; any other installation fails |
| `ChallengeOutcome.RemovalGoesOn` | src/acme.rs:974-1000 | A removal whose check finds no entry keeps the guard and the duty to withdraw everything installed so far until its launch, unless its caller is dropped |
| `ChallengeOutcome.WithdrawalLaunches` | src/acme.rs:1270-1290 | The launched operation withdraws exactly what the check admitted and takes the guard over |
| `ChallengeKeeping.EntryLeaves` | src/acme.rs:755-973 | An entry that is gone was replaced, removed, or rolled back by its own insert, by a step in between |
| `ChallengeKeeping.EntryStays` | src/acme.rs:755-973 | The current installation has been so ever since it was installed |
| `ChallengeKeeping.UninstalledIsCancelled` | src/acme.rs:783-973 | In every reachable state an installation is the current one, cancelled, or about to be cancelled by the task that took it out |
| `ChallengeKeeping.RecordStands` | src/acme.rs:743-845 | From its landing on, the record of a successful insert is in the shared store as long as its entry is the current one and the record does not expire |
| `ChallengeKeeping.KeepaliveLasts` | src/acme.rs:868-948 | The keepalive of a successful insert lasts as long as its entry is the current one, unless it is dropped |
| `ChallengeKeeping.OwnerPublishes` | src/acme.rs:814-832 | With its entry the current one, an insert or keepalive that has its turn goes on to publish with the guard |
| `ChallengeKeeping.PublicationLaunches` | src/acme.rs:1221-1269 | The launched operation publishes the record of the task that launched it and takes the guard over |
| `ChallengeKeeping.RefreshEnds` | src/acme.rs:922-946 | After a refresh a cancelled keepalive retracts, any other goes back to sleep without the guard |
| `ChallengeKeeping.RetractionWithdraws` | src/acme.rs:933-946 | Retracting goes on to withdraw exactly when the guard is still held and no newer installation has the entry |
| `ChallengeKeeping.OperationRunsOn` | src/acme.rs:1137-1220 | A launched mutation runs on with the guard until the store has finished it, whatever becomes of its caller |
| `ChallengePlay.UndisturbedInsertSucceeds` | src/acme.rs:755-845 | With the guard free, an insert on its own ends acknowledged, with its entry and its record current, the replaced installation cancelled and a keepalive in charge |
| `ChallengePlay.UndisturbedRefreshRenews` | src/acme.rs:868-948 | With the guard free, a keepalive of the current entry renews the record and goes back to sleep |
| `ChallengePlay.UndisturbedRemovalWithdraws` | src/acme.rs:956-1000 | With the guard free, a removal on its own leaves neither entry nor record and cancels the refresh |
| `ConfigManager.Manager.StoreFailure` | src/admin.rs:393-397 | A disagreement is recorded and readiness withdrawn at once |
| `ConfigManager.Manager.StoreConfirmed` | src/admin.rs:398-403 | A confirmation clears the failure and restores readiness unless frozen, withdrawing or failing closed |
| `ConfigManager.Manager.AttachEpoch` | src/admin.rs:600-608 | Only the first epoch is recorded |
| `ConfigManager.Manager.ReconcileStored` | src/admin.rs:439-570 | A document is taken up exactly when it is readable, prepared and published, the instance is not stopping, and it is a later revision of the followed epoch or none is followed; each refusal has its exact condition, and every field of the new state is given |
| `ConfigManager.JudgedExactly` | src/admin.rs:439-570 | The same of the specification: each refusal reason, agreement and activation if and only if epochs, revisions and freeze say so |
| `ConfigManager.Manager.CatchUp` | src/admin.rs:633-644 | A write that is ahead, or an unattached instance, asks the store first and goes on exactly if it agrees with or takes up the answer; an up-to-date one asks nothing |
| `ConfigManager.PreparedExactly` | src/admin.rs:610-680 | A write is ready exactly when the document is readable, the instance not stopping and at the expected revision below 2^64-1, no floor exceeds 32 bits and it prepares; its document is the successor on the least covering floor |
| `ConfigManager.Manager.NormalizeCacheGeneration` | src/admin.rs:576-598 | The incoming document's floor and cache generation are raised to the highest committed so far |
| `ConfigManager.Manager.PrepareApply` | src/admin.rs:610-713 | Where the write is ahead of this instance it catches up with the store first; then the document it commits, or why there is none |
| `ConfigManager.Manager.ResolveConflict` | src/admin.rs:714-812 | A losing write judges the durable document it was told of, and refuses another epoch before reading it |
| `ConfigManager.Manager.Publish` | src/admin.rs:714-812 | A write the store applied becomes active, or nothing changes when it cannot be published here |
| `ConfigManager.ActivationMeans` | src/admin.rs:439-570 | A document is taken up only as a later revision of the followed epoch or as the first one seen, and an attached epoch never changes |
| `ConfigManager.ReadyMeans` | src/admin.rs:633-665 | A write that gets ready is attached, based on exactly the expected revision, one revision later, on a floor that covers its base |
| `ConfigManager.ReadinessMeans` | src/admin.rs:393-570 | Readiness never survives a disagreement or a route failing closed, and is gained only outside a freeze or withdrawal |
| `ConfigManager.NormalizedFloor` | src/admin.rs:576-598 | The floor is the least one covering both documents, and a configured cache sits exactly on it |
| `Authority.RevisionIsUnique` | src/admin.rs:439-570 | Within an epoch a revision names one document |
| `Authority.AppendKeeps` | src/admin.rs:645-812 | A write that applies lands on exactly the document it was prepared from |
| `Authority.StepKeeps` | src/admin.rs:439-812 | Polls, writes, conflicts, lost replies, late landings and attachments keep every instance on a document of its epoch |
| `Authority.Agreement` | src/admin.rs:439-812 | In every reachable state, two instances of one epoch at one revision hold the same document |
| `Authority.NeverDiverges` | src/admin.rs:487-497 | The divergence refusal cannot occur against a store that keeps its contract |
| `Authority.RevisionNeverDecreases` | src/admin.rs:439-812 | Once attached, an instance keeps its epoch and its active revision never decreases |
| `Authority.PollExactly` | src/admin.rs:410-570 | A poll of the followed epoch moves an instance to a later document exactly when it can serve it and is not frozen; earlier ones are refused, the same one confirms |
| `Authority.FirstPollAttaches` | src/admin.rs:439-570 | An instance that follows no epoch attaches to the first document it can serve |
| `Authority.SwapExactly` | src/admin.rs:714-812 | A write is appended exactly when the durable document is still the one it was prepared from; otherwise no history changes |
| `Authority.LosingWriteCatchesUp` | src/admin.rs:771-793 | A write that loses against a later document moves its instance to that document |
| `Authority.UndisturbedWriteCommits` | src/admin.rs:610-812 | An attached, unfrozen instance at the durable document commits any document it can serve as its successor and activates it |
| `Authority.HistoryOnlyGrows` | src/admin.rs:714-812 | No committed document is ever changed, reordered or lost |
| `Authority.ReadyMeansSound` | src/admin.rs:393-570 | In every reachable state, a ready instance has no recorded failure and fails no route closed |
| `Authority.PurgesAreNeverUndone` | src/admin.rs:576-665 | Every committed document's floor covers the floor and cache generation of every predecessor, and a configured cache equals it |
| `Readiness.StepKeeps` | src/admin.rs:233-263 | A flag raised under a withdrawal is always still due to be lowered by somebody |
| `Readiness.WithdrawnStaysDown` | src/admin.rs:233-263 | From a withdrawal until a resume, the flag is down in every state with no withdrawer under way and no advertiser between swap and re-check |
| `Readiness.StaysDownExactly` | src/admin.rs:233-263 | Under a withdrawal, a lowered flag stays down in every continuation without a resume if and only if no advertiser stands between its first check and its swap |
| `Readiness.DownForGood` | src/admin.rs:233-263 | With no such advertiser, every state up to a resume has the flag down and again no such advertiser |
| `Readiness.DownUntilResume` | src/admin.rs:233-263 | The same over runs: from a settled withdrawn state without such an advertiser, the flag is down until a resume |
| `Readiness.LateAdvertiserRaises` | src/admin.rs:253-263 | A settled, lowered flag can come up again under a withdrawal: an advertiser that checked before it swaps afterwards |
| `Readiness.RaisersWereAuthorized` | src/admin.rs:253-263 | Only an advertiser that was authorized and saw no withdrawal on entry gets to raise the flag |
| `Readiness.UndisturbedAdvertiserRaises` | src/admin.rs:253-263 | An authorized advertiser that meets no withdrawal makes the instance ready |
| `CacheRuntime.PackRoundTrip` | src/cache.rs:36-55 | Generation and purge counter do not spill into each other and the token fits 64 bits |
| `CacheRuntime.PackEquality` | src/cache.rs:36-55 | Two tokens are equal exactly when generations agree and purge counts agree modulo 2^32 |
| `CacheFence.FenceKept` | src/cache.rs:114-277 | Every step of lookups, fills, purges and adoptions keeps the fence invariant |
| `CacheFence.HitIsCurrent` | src/cache.rs:139-190 | A hit belongs to the current generation and was captured after the last successful purge |
| `CacheFence.PurgeIsEffective` | src/cache.rs:191-211 | After a successful purge no lookup returns an entry whose request took its token before it |
| `CacheFence.AdoptionIsEffective` | src/cache.rs:114-130 | After a generation change no lookup returns an entry of an earlier generation, although publications under way are not waited for |
| `CacheFence.TokenCheckIsExact` | src/cache.rs:36-55 | The token check passes exactly when the generation is current and a multiple of 2^32 purges happened since |
| `CacheFence.TokenMovesExactly` | src/cache.rs:114-211 | A purge advances the lower half by one modulo 2^32, a higher generation capped at 32 bits replaces the upper half, and nothing else moves either |
| `CacheOrigin.LookupOrigin` | src/cache.rs:154-190 | A lookup works on its own request under the token it captured on arrival |
| `CacheOrigin.FillOrigin` | src/cache.rs:165-181 | A fill works for the request and under the token of the lookup that registered it |
| `CacheOrigin.BodyOrigin` | src/cache.rs:267-277 | What a fill publishes is the body its capture completed with |
| `CacheOrigin.EntryOrigin` | src/cache.rs:139-153 | Whatever is stored, promoted or about to be returned was put there by a fill of its own key |
| `CacheOrigin.HitIsOwn` | src/cache.rs:154-190 | A hit is the complete body a fill captured for the very request that asked, under the token captured by the lookup that filled |
| `CacheOrigin.MemoryHits` | src/cache.rs:139-158 | An undisturbed lookup returns what memory has for its request |
| `CacheOrigin.DiskHits` | src/cache.rs:139-158 | Otherwise it returns what disk has, which is then in memory as well |
| `CacheOrigin.MissFollows` | src/cache.rs:160-167 | A miss on a key that is being filled waits and takes no permit |
| `CacheOrigin.FollowerHits` | src/cache.rs:183-190 | Whoever waited returns what has been filled in the meantime |
| `CacheOrigin.FollowersLookOnce` | src/cache.rs:183-190 | A follower looks once more and then neither waits again nor fills |
| `CacheOrigin.FillThenHit` | src/cache.rs:154-277 | A request that misses fills, gives permit and registration back, and the same request asked again returns the body it filled with |
| `CacheOrigin.UndisturbedPurgeEmpties` | src/cache.rs:191-211 | A purge that finds no reader empties both tiers and moves the token |
| `FillCapacity.CapacityIsConserved` | src/cache.rs:154-190 | Free permits and live fills add up to the capacity, with at most one registered fill per key, the one its registration names |
| `FillCapacity.PublicationKeepsPermit` | src/cache.rs:255-277 | In every state from the end of its capture until its insertion ends or its token is refused, a fill keeps its permit, its registration and its body |
| `FillCapacity.FewerRegistrations` | src/cache.rs:154-190 | Registrations are backed by distinct live fills |
| `Capture.PrepareCapture` | src/cache.rs:328-405 | Exactly when a response is captured, published at once or passed through, and a body limit that is exactly what its metadata leaves |
| `Capture.OverheadIsExact` | src/cache.rs:328-405 | Metadata weighs every byte of names, values and key, 48 a pair and 256 more |
| `Capture.CaptureState.Take` | src/cache.rs:406-434 | Fill, entry and bytes leave the shared state together |
| `Capture.CaptureBody.Finish` | src/cache.rs:435-458 | A clean end hands the buffer to publication only before the deadline and while still armed |
| `Capture.CaptureBody.Abandon` | src/cache.rs:459-466 | Abandoning drops the buffer and the deadline guard once |
| `Capture.CaptureBody.Push` | src/cache.rs:467-484 | Data is buffered unless late, disarmed or over the limit, which abandons the capture |
| `Capture.CaptureBody.PollFrame` | src/cache.rs:487-519 | The inner answer is passed on as it is; a last frame is pushed and finished at two clock readings with the deadline task possibly in between |
| `Capture.CaptureBody.DeadlineFires` | src/cache.rs:239-254 | The deadline task disarms the shared state and nothing else |
| `Capture.PublicationIsExact` | src/cache.rs:399-526 | A publication is exactly the whole body of a response that ended cleanly in time, without trailers and within the limit |
| `Capture.ObjectFits` | src/cache.rs:328-526 | Metadata and body of a stored object together never exceed `max_object_bytes` |
| `Capture.FramesAreForwarded` | src/cache.rs:487-519 | The client sees the inner frames unchanged and in order, captured or not |
| `Capture.PublishedExactlyWhenStorable` | src/cache.rs:399-526 | With a clock that never goes back and a deadline task that is never early, a publication happens exactly for storable responses |
| `Selection.Selector.LeastFrom` | src/balance.rs:621-637 | The first index in rotated order that minimizes load over weight among the eligible ones, or none exactly when none is eligible |
| `Selection.Selector.Weighted` | src/balance.rs:638-650 | The walk over the weights finds the owner of the cursor's slot |
| `Selection.Selector.FirstFrom` | src/balance.rs:651-653 | The first eligible index of the rotated scan |
| `Selection.Selector.SelectWhere` | src/balance.rs:616-654 | None exactly when no index is eligible; otherwise the least loaded or the round-robin choice, with the cursor advanced once |
| `Selection.Selector.TotalWeight` | src/balance.rs:384-388 | The sum of the weights, one each when there are none |
| `Selection.BelowTransitive` | src/balance.rs:629-632 | The cross-multiplied comparison is transitive |
| `Selection.OwnerIsUnique` | src/balance.rs:638-650 | A slot has one owner |
| `Selection.PickIsOwner` | src/balance.rs:638-654 | With all eligible, round robin picks the owner of the cursor's slot |
| `Selection.RoundRobinIsFair` | src/balance.rs:638-654 | With all eligible, any `total_weight` consecutive cursors belong to index i exactly `weights[i]` times |
| `Selection.SelectionsAreFair` | src/balance.rs:616-654 | With all eligible, any `total_weight` consecutive selections whose cursor does not wrap return index i exactly `weights[i]` times |
| `NodeHealth.SuccessesAreTheRun` | src/balance.rs:697-725 | The success counter is the length of the longest healthy suffix of the probes that count |
| `NodeHealth.PendingMeans` | src/balance.rs:379-403 | A Checking node is pending exactly until some run of `healthy_successes` consecutive healthy probes |
| `NodeHealth.UnhealthyMeans` | src/balance.rs:681-778 | The active verdict is up exactly when a failure class reached its limit without a healthy probe, or Checking started it, and no run came since |
| `NodeHealth.PassiveUnhealthyMeans` | src/balance.rs:323-371 | The passive verdict is up exactly when request failures of one class reached their limit and no healthy run came since; healthy responses change nothing |
| `NodeHealth.CooldownMeans` | src/balance.rs:309-322 | The failure counter is the number of recorded failures with no success after them, and the cooldown runs from the last of them once they reach the threshold |
| `NodeHealth.UnconfiguredMeans` | src/balance.rs:323-371 | A verdict without its policy is never given |
| `NodeHealth.AvailableIsDeserved` | src/balance.rs:487-494 | For every valid policy a node's health makes it available exactly when its history of probes and requests deserves it |
| `NodeHealth.EvidenceMeans` | src/balance.rs:193-229 | The reported evidence is the last observation of the history, and a probe counts as seen once one was made |
| `NodeHealth.FailuresAreCounted` | src/balance.rs:697-778 | Each failure counter is the number of failed probes of its class with no healthy probe after them |
| `NodeHealth.RequestsAreCounted` | src/balance.rs:327-371 | Each passive counter is the number of counted request failures of its class with no recovery after them |
| `EndpointEpoch.Node.constructor` | src/balance.rs:379-403 | A new node is untouched at epoch zero, with its gate open |
| `EndpointEpoch.Node.EnsureEpoch` | src/balance.rs:527-560 | A newer epoch resets everything known, an older one is refused |
| `EndpointEpoch.Node.ObserveEpoch` | src/balance.rs:509-525 | Resolution moves the epoch forward only and reports whether it is current |
| `EndpointEpoch.Node.RecordActiveStatusFor` | src/balance.rs:681-726 | The effect of a probe's status on the node of its epoch, and none on a newer one |
| `EndpointEpoch.Node.RecordActiveTransportFailureFor` | src/balance.rs:730-752 | The effect of a probe's transport failure |
| `EndpointEpoch.Node.RecordActiveTimeoutFor` | src/balance.rs:756-778 | The effect of a probe's timeout |
| `EndpointEpoch.Node.Record` | src/balance.rs:309-322 | Cooldown bookkeeping, for the lease's own epoch only |
| `EndpointEpoch.Node.RecordHttpStatus` | src/balance.rs:323-341 | A response is observed, then counted or recorded, for the lease's own epoch only |
| `EndpointEpoch.Node.RecordTransportFailure` | src/balance.rs:342-357 | A transport failure is observed, then counted or recorded |
| `EndpointEpoch.Node.RecordTimeout` | src/balance.rs:358-371 | A timeout is observed, then counted or recorded |
| `EndpointEpoch.OutcomeMeans` | src/balance.rs:309-377 | Which status, transport failure or timeout leads to which counter, with and without a passive policy; answers below 500 clear the cooldown failures |
| `EndpointEpoch.Node.AvailableNow` | src/balance.rs:485-494 | Available exactly when the admission gate is open and health, at this instant, allows it |
| `EndpointEpoch.EpochIsNewest` | src/balance.rs:506-560 | The node is at the newest announced epoch and no lease is ahead of it |
| `EndpointEpoch.EpochNeverDecreases` | src/balance.rs:509-560 | The epoch never goes back along a run |
| `EndpointEpoch.HealthIsReplay` | src/balance.rs:289-560 | After any run the health is that of a fresh node which saw only the reports about the current epoch |
| `EndpointEpoch.CheckingNeedsProbes` | src/balance.rs:485-560 | A Checking node is available only after the required run of healthy probes of its current endpoint |
| `EndpointEpoch.AvailableExactly` | src/balance.rs:485-778 | For every valid policy, a node is available exactly when its gate was never closed and the reports about the current epoch deserve it |
| `MemberGate.WordIsGate` | src/member_admission.rs:8-10 | A word encodes exactly one gate and every gate whose count fits is one word |
| `MemberGate.MemberAdmission.Activate` | src/member_admission.rs:49-53 | Only an unused prepared member is opened |
| `MemberGate.MemberAdmission.Retire` | src/member_admission.rs:54-56 | Retiring closes the gate and keeps the count |
| `MemberGate.MemberAdmission.IsOpen` | src/member_admission.rs:57-59 | Open exactly when neither flag is set |
| `MemberGate.MemberAdmission.Acquire` | src/member_admission.rs:69-76 | Admission and counting are one step, refused exactly when closed or full |
| `MemberGate.MemberAdmission.Release` | src/member_admission.rs:77-83 | Releasing takes one off the count and leaves the flags |
| `Generations.Fleet.WithMemberStates` | src/balance.rs:430-470 | A member keeps its own mapped old node exactly when the policy is unchanged and that node already admits what it should; every other member gets an unused node to itself, and no existing gate moves |
| `Generations.Fleet.Retirements` | src/balance.rs:474-483 | Exactly the outgoing nodes the successor does not contain |
| `Generations.RetirementsAreTheRest` | src/balance.rs:471-483 | What a publication retires is what the collected records name |
| `Generations.CandidateFollowsIntent` | src/balance.rs:426-469 | For any mapping, the candidate's gates follow the desired states and no existing gate moves |
| `Generations.CandidateNodes` | src/balance.rs:449-468 | A candidate holds only fresh nodes and nodes of its predecessor |
| `Generations.CandidateIsExact` | src/balance.rs:430-470 | The same of the specification, member by member |
| `Generations.CandidateIsDistinct` | src/balance.rs:430-470 | A mapping without repeats over distinct nodes gives distinct nodes |
| `Generations.StepKeeps` | src/balance.rs:246-287 | Building, dropping, retiring, publishing and requests keep intent, counts and retirement in order |
| `Generations.GatesFollowIntent` | src/balance.rs:431-483 | Outside a publication, gate i of the current generation is open exactly when member i should serve |
| `Generations.PublishedAsBuilt` | src/balance.rs:430-490 | What is published is what its build asked for, on the generation it replaces, with every gate as that request intended |
| `Generations.MembersStayDistinct` | src/balance.rs:430-470 | Where no request maps two members to one, no two members ever share a node |
| `Generations.UnchangedRetiresNothing` | src/balance.rs:430-487 | A request that changes nothing builds the current generation again, touches no gate and retires nothing |
| `Generations.CountsAreLeases` | src/balance.rs:659-677 | Each node's count is the number of requests holding it, so a release never underflows |
| `Generations.CandidatesChangeNothing` | src/balance.rs:246-248 | Building or dropping a candidate changes no existing gate and nothing published |
| `Generations.RetiredStaysRetired` | src/balance.rs:250-260 | A retired node stays retired for the rest of the run |
| `Generations.SupersededDrains` | src/balance.rs:471-483 | A node left out of a published generation never serves again and its load only drains |
| `Hostname.HostnameBySplitting` | src/client_hello.rs:298-327 | All pieces between dots are labels exactly for the dot-joined sequences of labels |
| `Hostname.CheckLabel` | src/client_hello.rs:312-325 | A label is 1 to 63 letters, digits and inner hyphens |
| `Hostname.CheckLabels` | src/client_hello.rs:312-325 | All pieces between dots are labels |
| `Hostname.CanonicalHostname` | src/client_hello.rs:298-327 | Accepts exactly host names of at most 253 bytes that are not addresses, in lower case |
| `HelloBody.Split8Exact` | src/client_hello.rs:183-199 | A one-byte length prefix is read back exactly |
| `HelloBody.Split16Exact` | src/client_hello.rs:187-216 | A two-byte length prefix is read back exactly |
| `HelloBody.OutlineExact` | src/client_hello.rs:179-206 | A body parses into one outline exactly when it is that outline's serialization |
| `HelloBody.ExtensionsSound` | src/client_hello.rs:206-221 | Parsed extensions serialize to the bytes they came from |
| `HelloBody.ExtensionsComplete` | src/client_hello.rs:206-221 | Serialized extensions parse back |
| `HelloBody.NamesSound` | src/client_hello.rs:225-248 | Parsed names serialize to the bytes they came from |
| `HelloBody.NamesComplete` | src/client_hello.rs:225-248 | Serialized names parse back |
| `HelloBody.NameIsExact` | src/client_hello.rs:179-248 | A body is accepted exactly when it serializes a ClientHello that asks for one acceptable host, and the name is that host in lower case |
| `HelloBody.SerializationIsUnique` | src/client_hello.rs:179-223 | A body is the serialization of at most one ClientHello |
| `HelloBody.Cursor.Take` | src/client_hello.rs:264-275 | Takes exactly the next bytes, or nothing when there are too few |
| `HelloBody.Cursor.TakeU8` | src/client_hello.rs:277-279 | The next byte |
| `HelloBody.Cursor.TakeU16` | src/client_hello.rs:281-284 | The next two bytes as a big-endian number |
| `HelloParser.ParseServerName` | src/client_hello.rs:225-248 | The one acceptable host of a well-formed name list with distinct types |
| `HelloParser.ParseNameList` | src/client_hello.rs:233-247 | The loop over names finds the host of the whole list or refuses all of it |
| `HelloParser.ParseExtensionList` | src/client_hello.rs:206-222 | The loop over extensions finds the server name of the whole list or refuses all of it |
| `HelloParser.ParseClientHello` | src/client_hello.rs:179-223 | The name in a body, refusing every malformed one |
| `HelloRecords.RecordExact` | src/client_hello.rs:101-121 | A record is read back exactly |
| `HelloRecords.ReadSound` | src/client_hello.rs:94-147 | What is found are leading records that complete a message within the limits, and the name it gives |
| `HelloRecords.ReadThrough` | src/client_hello.rs:94-147 | Where records complete a message, reading ends with them |
| `HelloRecords.ReadIsExact` | src/client_hello.rs:81-148 | Reading succeeds exactly when the stream starts with at most 256 records of at most `max_bytes` bytes whose last one completes an acceptable ClientHello |
| `HelloRecords.FramingIsTransparent` | src/client_hello.rs:94-147 | However a message is cut into records within the limits, the same name is found after exactly those records |
| `HelloReader.ReadBounded` | src/client_hello.rs:150-177 | Appends exactly the bytes asked for, never past the limit |
| `HelloReader.ReadRecord` | src/client_hello.rs:100-121 | Consumes exactly one well-formed record that fits, or stops |
| `HelloReader.CollectHello` | src/client_hello.rs:84-148 | The loop over records finds the same body and consumes the same bytes as the specification |
| `HelloReader.ReadClientHello` | src/client_hello.rs:81-148 | Name and consumed bytes; the stream is left on a record boundary, at most `max_bytes` in |
| `HelloReader.FramingsAgree` | src/client_hello.rs:81-148 | Two framings of the same message within their limits give the same name |
| `HelloReader.AcceptedExactly` | src/client_hello.rs:81-248 | A stream is accepted exactly when it starts with a framing, within the limits, of the serialization of a ClientHello that asks for one acceptable host; the result is that host in lower case and exactly those records |
| `Framing.NumberInjective` | src/cache_policy.rs:217-220 | Eight big-endian bytes determine a 64-bit number |
| `Framing.FramedPrefix` | src/cache_policy.rs:217-220 | A frame determines its value and what follows it |
| `Framing.StreamInjective` | src/cache_policy.rs:217-220 | Length framing is uniquely decodable |
| `Framing.Hasher.FeedFramed` | src/cache_policy.rs:217-220 | Length, then value, are fed to the hash |
| `NameOrder.SortSorts` | src/cache_policy.rs:166-166 | Sorting gives an ascending list of the same names |
| `NameOrder.AscendingIsUnique` | src/cache_policy.rs:159-166 | A set of names has one ascending list, so header order does not matter |
| `CacheKey.HopByHopNames` | src/cache_policy.rs:222-244 | The fixed hop-by-hop names and those that text values of Connection declare |
| `CacheKey.PiecesAreExact` | src/cache_policy.rs:234-240 | Splitting a list at commas loses nothing and leaves no comma in a piece |
| `CacheKey.TrimIsExact` | src/cache_policy.rs:234-240 | Trimming takes spaces and tabs off both ends and nothing else |
| `CacheKey.TrimIsUnique` | src/cache_policy.rs:234-240 | Nothing else is left by doing so |
| `CacheKey.NameIsLowered` | src/cache_policy.rs:234-240 | A token is a field name exactly by length and token characters, the name is its lower case, and reading it again changes nothing |
| `CacheKey.WithinLimit` | src/cache_policy.rs:144-156 | All names, values and framing stay within 64 KiB |
| `CacheKey.ValueBytesExact` | src/cache_policy.rs:144-156 | Each value counts with its bytes, its name and two more |
| `CacheKey.ValuesAreTheEntrys` | src/cache_policy.rs:206-213 | The values fed for a name are those of its own entry, in order |
| `CacheKey.KeptNames` | src/cache_policy.rs:158-165 | Each end-to-end name once |
| `CacheKey.FeedFields` | src/cache_policy.rs:205-212 | Each name, its number of values and its values in wire order |
| `CacheKey.Key` | src/cache_policy.rs:134-215 | The digest of the normal form's preimage, whatever the header order; none unless GET and within the limit |
| `CacheKey.PreimageIsCanonical` | src/cache_policy.rs:122-215 | Preimages are equal exactly when normal forms are equal |
| `CacheKey.NormalFormFits` | src/cache_policy.rs:134-215 | Every request of machine-sized parts has a normal form to which this applies |
| `CacheKey.KeysSeparate` | src/cache_policy.rs:122-215 | With a hash that does not collide, keys are equal exactly when normal forms are |
| `CacheKey.KeysAgreeExactly` | src/cache_policy.rs:134-215 | Without collisions, two requests share a key exactly when they agree in generation, method, scheme, transport, authority, path, route, backend and every end-to-end field |
| `TokenBucket.Admission.AdmitAt` | src/acme_http01.rs:152-172 | Admission takes one permit and one token; a refusal gives its permit back and takes no token |
| `TokenBucket.CreditIsConserved` | src/acme_http01.rs:152-172 | Spending plus what is left never exceeds what was there plus the refill, for calls with any instants |
| `TokenBucket.WindowBound` | src/acme_http01.rs:152-172 | n admissions within T nanoseconds of the clamped clock satisfy n * 10^9 <= 10^11 + 100 * T |
| `TokenBucket.BurstIsExact` | src/acme_http01.rs:118-172 | At one instant a full bucket admits exactly one hundred |
| `TokenBucket.RefusalIsFree` | src/acme_http01.rs:152-172 | Leaving a refused call out of any sequence, at any place, changes the fate of no later call, whatever instants they pass |
| `TokenBucket.WaitIsExact` | src/acme_http01.rs:158-171 | Ten milliseconds pay for one admission however empty the bucket is, and an empty bucket needs exactly that |
| `TokenBucket.AffordsExactly` | src/acme_http01.rs:158-171 | A call is paid for exactly when credit and one hundred units a nanosecond since the last call reach one token |
| `TokenBucket.SteadyRateIsServed` | src/acme_http01.rs:158-171 | One call every ten milliseconds is always admitted |
| `Issuance.Runtime.TakePending` | src/acme_runtime.rs:635-643 | Pending material is taken out, and dropped unless still worth publishing |
| `Issuance.Runtime.AttemptWith` | src/acme_runtime.rs:553-631 | Pending material, log and result of an attempt, and the expiry the status reports afterwards |
| `Issuance.AttemptIsExact` | src/acme_runtime.rs:553-645 | After any history of attempts, what one more attempt logs, keeps pending and reports, in terms of lock, bundle, destination, order and publication |
| `Issuance.OrdersExactlyWhenNeeded` | src/acme_runtime.rs:573-612 | An order is placed exactly when the lock is free, no current bundle is on disk, no usable material is pending and the destination is valid; a current bundle settles everything |
| `Issuance.MaterialIsConserved` | src/acme_runtime.rs:553-645 | Every material received is pending or has come to exactly one end |
| `Issuance.AttemptAccounted` | src/acme_runtime.rs:553-643 | Each attempt accounts for the outstanding material, with true reasons for every end of it |
| `Issuance.NoOrderWhileOutstanding` | src/acme_runtime.rs:553-643 | Between receiving material and the next order it was published, superseded by a current bundle, or discarded for changed domains or for being inside the renewal window |
| `Issuance.FailuresDoNotOrder` | src/acme_runtime.rs:586-606 | However often publication fails, usable material is kept and nothing is ordered |

## Left out

- The challenge, authority, readiness and cache-fence protocols are modelled on
  values: interleaving is the point, and aliasing of one object is not.
- Selection.Selector.SelectWhere: takes the loads as one snapshot, because the
  source reads them anew at each comparison of the scan and then promises no
  minimum; each index's eligibility is read once, as there.
- The keepalive's total time limit, sleep lengths and log messages.
- HTTP handlers, JSON, event streams and file reloads around `Manager`; the
  transport grace window of `StoreHealth`, which only delays a withdrawal of
  readiness.
- The ACME order flow, DNS providers, certificate parsing and file writes.
- `CacheStore`, beyond two maps from keys to entries that anything may be
  evicted from; response freshness (`response_ttl`, `cached_response`).
- The double read of the epoch in `available_for` and `backend_state_for` at the
  granularity of single stores, and the clock fields of an observation.
- Counters of requests and failures are unbounded numbers, except the admission
  word, the selection cursor, the cache token and the framed lengths.
- TCP members, named backends' identity mapping, and routes without a previous
  generation beyond the first one.
- Deadlines and allocation failures while reading a ClientHello, `SniMatch`
  patterns, and matching a name against routes.
- `shaped`, the DNS permits and the response of the HTTP-01 listener.
- The scheduling loop, backoff, bundle watcher and DNS cleanup of the issuance
  runtime.
- Basic authentication, active probes' sockets, plugins, certificates on disk
  and the admin socket.
