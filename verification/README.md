# Verified models of a cloud telephony platform

Dafny models of the parts of the platform where state is hard, with proofs of what they promise. Every
module stands for one source file or one protocol; `dafny verify dfyconfig.toml` checks them all.

- **Outbox, relay, stream, inbox.** `EventProtocol` is a step relation over outbox rows, relays, the stream
  log, deliveries and consumer databases, with a crash or a lost reply allowed between any two steps;
  `EventTheorems` says what holds over whole runs, `EventProgress` when they can come to rest. `Relay` and
  `Inbox` are the loops of one relay and of one consumer, each shown to be a run of the protocol. `EventIds`
  is the id generator down to the bytes, and `RelayOrder` joins ids, the claiming query and the relay into
  one statement about order.
- **Timed leases.** `RedisStore` has the three atomic commands on a leased key. `OwnershipProtocol` lets
  each Redis call be sent, executed and answered apart, a pass and `stop` each have one in flight for the
  same node, and a call its caller gave up run late, so the set of owned nodes lags Redis. `NodeOwnership`
  is the object itself; `PassOrder`, `Shutdown` and `LateReleases` are what follows for the checks of a
  pass side by side, for passes around `stop`, and for late releases. `Affinity` is the lease registry
  with its scan.
- **Failover.** `CallRegistry` is the live-call registry, `RegistrySync` the catching up with a node,
  `NodeFailureProtocol` and `NodeFailure` the handling of a dead one, `Serial` the per-node queue.
- **Key rotation.** `Base64Url`, `Kek` and `Envelope` are the stored format over an ideal cipher; `Rewrap` is
  the cursor-paged pass, and `RewrapSafety` what it means for the stored values, alone and beside writers.
- **Partitions.** `Calendar` and `Partitions` are the planner with its string dates; `PartitionTheorems`
  applies the plan to a table of dated rows.
- **Call flows.** `FlowGraph`, `FlowValidator` and `FlowCompiler`: validity, its validator, and the compiled form.
- **Authorization.** `Authz` is the evaluator over any tables, `MonitorControl` the search with its early exit.
- **Storage.** `Storage` is the layout of tenants' objects, with listing and purge.

`Wrappers`, `Arithmetic` and `Text` hold what several modules share.

What the outside answers is an argument: the rows a query returns (constrained by what the query asks for),
the pages of a scan, the clock, random bytes, and the fate of each call (done, refused, or done with its
reply lost). Methods are proved against specification functions; what the source promises is proved about
those functions, for every argument.

Where the code does less than its own comments say, the model follows the code, and the exact condition is
proved:

- The inbox table is keyed by event id alone. Consumers of one database must share no subject
  (`OwnWorkExactlyWhenDisjoint`).
- The claim of the relay runs outside a transaction, so two relays may hold one row, and the failure count
  can fall (`TwoRelaysCanLowerAttempts`).
- `runOnce` does not look whether `stop` was called, and socket events call it: a pass that begins while
  `stop` releases its nodes, or once the sockets are closed after it, takes nodes back
  (`StopIsFinalIffNoPassBegins`, `PassDuringStopLeavesANode`, `TakenBackAfterwards`).
- A release that failed for its caller may still run, after the lease was renewed, and let a second owner in
  (`LeaseLastsIffSettled`, `LateReleaseSharesANode`).
- A listing of leases loses what follows a colon in a resource id (`ParseInvertsKey`,
  `ColonLosesTheRest`).
- The prefix test of the re-wrap job is exact for everything the package prints. A stored text whose version
  part carries left-over bits is selected for ever, so `remaining` then exceeds `failed`
  (`PrefixTestOnAnyValue`, `PassReport`).
- A call-flow node named `__proto__` does not become a property of the compiled record
  (`NeverLostWithoutProto`).
- `syncNode` looks for the hash of a call only, so a live channel that is recorded but not indexed under the
  node stays unindexed (`SyncIsExact`, `MovedCallIsMissed`).
- A death may be handled twice: a claim may lapse under a slow sweep, and a sweep may fail between
  announcing a call and removing it. A call is announced at most once in every run exactly when neither can
  happen, and sweeps that end within the claim's time rule the first out (`AnnouncedOnceIffOrderly`,
  `InTimeNeverOverlaps`).
- The early exit of monitoring would miss grants of an implying permission; no monitoring permission has one
  (`EarlyExitIsExactIffNoTwin`).
- A queued piece of work is passed over when the error callback of the one before it throws (`SkippedOnlyBehindAThrow`),
  and its key is then not forgotten until it is given new work (`RememberedIffRejected`).
- Two tenant ids that differ only in case share their objects (`TenantsAreApart`).

## Model

| member | source | states |
|---|---|---|
| `EventTheorems.NoEventLost` | packages/events/src/relay.ts:142-167 | In every run, with any number of relays, crashes and lost replies, each committed event is still an unpublished row or already on the stream. |
| `EventTheorems.RowsLeaveDelivered` | packages/events/src/relay.ts:198-218 | A row leaves the outbox only through a purge, and then it was published and its event is on the stream. |
| `EventTheorems.PublishedStaysPublished` | packages/events/src/relay.ts:148-152 | `published_at` never returns to null on a row that stays. |
| `EventTheorems.HistoryOnlyGrows` | packages/events/src/relay.ts:142-167 | Over any run the stream log, the committed work and the inbox only grow. |
| `EventTheorems.CopiesAreAWindowApart` | packages/events/src/relay.ts:145-146 | Two copies of one event on the stream are at least the duplicate window apart. |
| `EventTheorems.HandledAtMostOnce` | packages/events/src/consumer.ts:112-193 | Whatever is published twice or redelivered, each consumer database commits the work of an event at most once. |
| `EventTheorems.AckedIsHandledOnce` | packages/events/src/consumer.ts:162-170 | An acked message has the work of its event committed exactly once in its consumer database. |
| `EventTheorems.OwnWorkExactlyWhenDisjoint` | packages/events/src/schema.ts:91-107 | Because `consumed_events` is keyed by event id alone: in every run an ack stands for the own work of the consumer, if and only if consumers that share a database share no subject. |
| `EventTheorems.OverlapLosesWork` | packages/events/src/schema.ts:94 | A concrete run in which two consumers of one database on one subject leave the second with an acked event it never handled. |
| `EventTheorems.DrainedIsExactlyOnce` | packages/events/src/consumer.ts:133-193 | When a run comes to rest, every committed event was handled exactly once, in each database that takes it and by that consumer. |
| `EventProgress.RestIffNothingStuck` | packages/events/src/relay.ts:131-196 | After any run, with nobody at work: some continuation publishes every row and has every message acked, if and only if no row is parked and no message is terminated or out of deliveries. |
| `EventProgress.UnstuckRunsCanRest` | packages/events/src/consumer.ts:133-193 | With work in progress too, it is enough that nothing is stuck. |
| `EventTheorems.SoleRelayNeverLowersAttempts` | packages/events/src/relay.ts:169-196 | With one relay at work no step of any run lowers `attempts`. |
| `EventTheorems.TwoRelaysCanLowerAttempts` | packages/events/src/relay.ts:170 | A run of two relays from the empty outbox at whose end a failure writes a smaller `attempts` than the row has, because the count was read long before. |
| `EventProtocol.RunKeepsInv` | packages/events/src/relay.ts:112-218 | The invariant behind these results is kept by every step of every run. |
| `EventProtocol.RunsInTurn` | packages/events/src/relay.ts:235-248 | Runs follow one another: a run from where another ended is a run of the whole. |
| `EventTheorems.ClaimedRowsAreDistinct` | packages/events/src/relay.ts:131-138 | One claim never holds a row twice. |
| `Relay.Platform.DeleteExpired` | packages/events/src/relay.ts:206-212 | One bounded delete: the oldest published rows past retention, as many as the limit allows, and never one younger than one it leaves. |
| `Relay.OutboxRelay.Fail` | packages/events/src/relay.ts:169-196 | A recorded failure, or the loss of the pass when it cannot be recorded, is exactly one step of the protocol. |
| `Relay.OutboxRelay.PublishRow` | packages/events/src/relay.ts:142-167 | What one row leaves, for every fate of the publish, of the mark and of the failure record, including replies lost after they took effect; and the outcome counted. |
| `Relay.RowIsARun` | packages/events/src/relay.ts:142-167 | The effect of `publishRow`, whatever its luck, is a run of protocol steps. |
| `Relay.OutboxRelay.PublishAll` | packages/events/src/relay.ts:241-246 | The loop of a pass stops at the first failure that cannot be recorded; the state and the three counters are those of the rows reached. |
| `Relay.PassIsARun` | packages/events/src/relay.ts:241-246 | The rows of a pass play out as a run of the protocol, so every result over runs holds of passes. |
| `Relay.WholePassIsARun` | packages/events/src/relay.ts:235-248 | So does the claim together with them, whatever else is going on. |
| `Relay.OutboxRelay.RunOnce` | packages/events/src/relay.ts:235-248 | One pass over what the claiming query answered is a run of the protocol; rows succeeded or failed as their luck says, nothing else in the outbox changed, and the counts agree. |
| `Relay.OutboxRelay.PurgePublished` | packages/events/src/relay.ts:198-218 | The sweep ends; unless stopped it deletes exactly the published rows past retention, and one asked to stop leaves after one batch. |
| `Relay.ClaimExists` | packages/events/src/relay.ts:131-138 | For every outbox and every set of locked rows the claiming query has an answer, so claims are never assumed into being. |
| `RelayOrder.IdsSortAsMade` | packages/events/src/outbox.ts:21-39 | Ids made by one process sort as text in the order they were made. |
| `RelayOrder.QueryOrderIsEnqueueOrder` | packages/events/src/relay.ts:135-136 | Sorting by (`created_at`, `id`) agrees with enqueue order, even inside one millisecond, if and only if the clock never went back. |
| `RelayOrder.ClaimFollowsEnqueueOrder` | packages/events/src/relay.ts:131-138 | With such a clock the rows of a claim come in the order the process enqueued them. |
| `RelayOrder.ClaimTakesTheEarliest` | packages/events/src/relay.ts:131-137 | A claim that holds a later due row holds every earlier due row that is not locked. |
| `RelayOrder.PassPublishesInEnqueueOrder` | packages/events/src/relay.ts:235-248 | What one pass stores on the stream is in enqueue order. |
| `EventIds.StampsIncrease` | packages/events/src/outbox.ts:21-31 | Under any clock, also one going back, `lastMs * 4096 + sequence` strictly increases from id to id, and the counter stays in twelve bits. |
| `EventIds.DriftIsBounded` | packages/events/src/outbox.ts:22-31 | After k ids `lastMs` exceeds the largest clock reading by at most floor(k / 4096). |
| `EventIds.PackedDecodes` | packages/events/src/outbox.ts:32-36 | Packed bytes decode to the time, the counter, version 7 and the right variant, for every random bits (section 5.7 of RFC 9562). |
| `EventIds.TextSortsByStamp` | packages/events/src/outbox.ts:37-38 | The dashed hexadecimal text of two ids sorts as their stamps do, whatever their random bits (section 6.2 of RFC 9562, method 1). |
| `EventIds.Pack` | packages/events/src/outbox.ts:32-36 | Packing writes exactly those fields over the sixteen random bytes and leaves the other bits random. |
| `EventIds.WriteUIntBE` | packages/events/src/outbox.ts:33 | The six bytes written read back, most significant first, as the time; the other bytes stay. |
| `EventIds.EventIdSource.NewEventId` | packages/events/src/outbox.ts:21-39 | One call moves the stamp on as the rule says, gives the text of its packed bytes, and fails only when the time no longer fits 48 bits. |
| `Inbox.EventConsumer.RecordConsumed` | packages/events/src/consumer.ts:112-131 | The inbox insert answers whether the event was recorded before, and records it under this consumer if not. |
| `Inbox.EventConsumer.HandleMessage` | packages/events/src/consumer.ts:133-193 | One message, for every fate: the inbox row and the work are committed together or not at all. |
| `Inbox.EventConsumer.Answer` | packages/events/src/consumer.ts:170-192 | The settlement of a message: acked after a commit, terminated off contract or out of deliveries, given back otherwise. |
| `Inbox.FateIsARun` | packages/events/src/consumer.ts:133-193 | The effect of one message is a run of the protocol. |
| `Inbox.PassedOnIsARun` | packages/events/src/consumer.ts:213-228 | A whole fetch of messages is a run of the protocol. |
| `Inbox.EventConsumer.RunOnce` | packages/events/src/consumer.ts:213-228 | A pass over a fetch leaves what its messages, one after another, leave, and counts each once. |
| `Inbox.PassBalances` | packages/events/src/consumer.ts:217-227 | The books balance: handled, skipped and failed add up to the messages fetched, and work committed is what is reported handled plus at most the commits whose success was not seen. |
| `OwnershipProtocol.LeaseHolderIsTheOwner` | services/call-control/src/node-ownership.ts:32-34 | Over all interleavings of passes, `stop`, crashes, calls that run late and clock advances: a replica whose last grant is younger than the lease, with no release that was sent since or may still run, is the owner Redis names. |
| `OwnershipProtocol.OwnersDoNotShareALease` | services/call-control/src/node-ownership.ts:52-81 | Two replicas that both list a node as owned are not both within such leases. |
| `OwnershipProtocol.RecentAnswerMeansOwner` | services/call-control/src/node-ownership.ts:64-81 | Nor can Redis name another while the last answered acquire or renew was asked for less than a lease ago and no release can have undone it. |
| `LateReleases.AnswerCounts` | services/call-control/src/node-ownership.ts:72-80 | What a replica can tell by itself: with its earlier releases settled, and none sent since it asked, a positive answer means Redis names it for a lease from when it asked. |
| `LateReleases.LeaseLastsIffSettled` | services/call-control/src/node-ownership.ts:32-34 | A lease lasts until it expires in every continuation that sends no release, if and only if no release of it is in flight or was given up and may still run. |
| `LateReleases.LateReleaseSharesANode` | services/call-control/src/node-ownership.ts:64-81 | A run in which a release that failed for its caller runs after the next renewal: two replicas own the node at one instant, both leases fresh. |
| `OwnershipProtocol.CallbacksAlternate` | services/call-control/src/node-ownership.ts:58-81 | `onAcquired` and `onLost` strictly alternate per node, and the last one told says whether the node is owned, also while `stop` and a pass both work on the node. |
| `OwnershipProtocol.SilentOwnerIsReplaced` | services/call-control/src/node-ownership.ts:36-47 | Once an owner is silent for a lease, the next replica that asks wins the node. |
| `OwnershipProtocol.RunKeepsInv` | services/call-control/src/node-ownership.ts:49-132 | The invariant behind these results is kept by every run. |
| `NodeOwnership.Redis.SetNx` | services/call-control/src/node-ownership.ts:78 | `SET NX PX` wins exactly when no live claim is there, and touches nothing otherwise. |
| `NodeOwnership.Redis.Renew` | services/call-control/src/node-ownership.ts:31-32 | The script extends the claim exactly when it is still the value of the caller. |
| `NodeOwnership.Redis.Release` | services/call-control/src/node-ownership.ts:33-34 | The script deletes the claim exactly when it is still the value of the caller. |
| `NodeOwnership.NodeOwnership.Lose` | services/call-control/src/node-ownership.ts:58-62 | Losing a node not owned tells nobody. |
| `NodeOwnership.NodeOwnership.CheckNode` | services/call-control/src/node-ownership.ts:64-81 | One check leaves the store, the owned set and the callbacks as `Checked` says, for every fate of its one call. |
| `NodeOwnership.CheckIsARun` | services/call-control/src/node-ownership.ts:64-81 | That effect is a run of the ownership protocol, whatever `stop` and other replicas have in flight. |
| `NodeOwnership.NodeOwnership.RunOnce` | services/call-control/src/node-ownership.ts:83-98 | A pass checks every configured node; a failed check does not stop the others. |
| `NodeOwnership.PassIsARun` | services/call-control/src/node-ownership.ts:83-98 | A whole pass is a run of the protocol. |
| `PassOrder.AnyOrderWillDo` | services/call-control/src/node-ownership.ts:83-91 | However the calls, executions and replies of the checks of one pass interleave, the pass ends as if the nodes had been checked one after another. |
| `PassOrder.OnlyTheOrderPerNodeMatters` | services/call-control/src/node-ownership.ts:64-128 | Two runs that take every node through the same steps end alike, whichever nodes they served first: passes, `stop`, late calls, crashes, other replicas and the clock included. |
| `PassOrder.NodeByNode` | services/call-control/src/node-ownership.ts:64-128 | Any run takes each node through the steps of that node only: leaving all other steps out, it is still a run and leaves the node alike. |
| `NodeOwnership.PassSettles` | services/call-control/src/node-ownership.ts:83-91 | After a pass whose calls all work, a connected node is owned exactly when nobody else held it, with a full lease, and a disconnected one is neither owned nor held. |
| `NodeOwnership.NodeOwnership.Stop` | services/call-control/src/node-ownership.ts:120-128 | The loop over the snapshot, with passes begun by socket events while a release is awaited, leaves what `AllGivenUp` says; nothing is left owned, whatever fails, when no pass begins. |
| `NodeOwnership.StopIsARun` | services/call-control/src/node-ownership.ts:120-128 | The whole of `stop`, passes in its midst included, is a run of the protocol, with the failure of a release swallowed. |
| `Shutdown.StopIsFinalIffNoPassBegins` | services/call-control/src/main.ts:156-163 | From the moment `stop` has awaited the running pass, a node ends up not owned in every run, if and only if no pass begins any more, or the node is not among the configured ones that later passes find connected. |
| `Shutdown.StopGivesUpEverything` | services/call-control/src/node-ownership.ts:119-128 | When no pass begins, the replica owns nothing at all at the end of any run in which every release of the snapshot was answered or failed. |
| `Shutdown.StopIsFinalIffNobodyAsks` | services/call-control/src/node-ownership.ts:93-128 | Node by node: one that `stop` gives up can end owned if and only if some pass sends an acquire of it after that. |
| `Shutdown.GivenUpForGood` | services/call-control/src/node-ownership.ts:120-128 | In every run that gives a node up and asks for it no more, the node is not owned at the end. |
| `Shutdown.PassDuringStopLeavesANode` | services/call-control/src/main.ts:156-163 | Of two nodes owned, a pass that begins while `stop` awaits the second release takes the first back, and it is still owned when `stop` returns. |
| `Shutdown.TakenBackDuringStop` | services/call-control/src/node-ownership.ts:93-128 | Such a pass takes back exactly the connected nodes that are free. |
| `Shutdown.TakenBackAfterwards` | services/call-control/src/main.ts:419-426 | A pass begun by a closing socket once `stop` has returned takes back exactly the connected nodes that nobody else holds. |
| `Shutdown.GivenUpStays` | services/call-control/src/node-ownership.ts:124-127 | A node given up stays so through the rest of `stop` unless a later pass finds it connected. |
| `NodeOwnership.ShutdownFrees` | services/call-control/src/node-ownership.ts:124-127 | When no pass begins, every node whose release reached Redis is no longer held by the replica, and nothing is left owned. |
| `Affinity.AffinityRegistry.Acquire` | packages/affinity/src/registry.ts:90-93 | Wins exactly when no live lease is there. |
| `Affinity.AffinityRegistry.Renew` | packages/affinity/src/registry.ts:95-98 | Extends exactly while the node still holds the lease. |
| `Affinity.AffinityRegistry.Release` | packages/affinity/src/registry.ts:100-103 | Deletes exactly while the node still holds the lease. |
| `Affinity.LeaseLastsItsTtl` | packages/affinity/src/registry.ts:88-103 | After a successful acquire or renew, no sequence of calls with other node ids, on any lease, changes the owner or the expiry before the TTL has passed. |
| `Affinity.OthersCannotTouch` | packages/affinity/src/registry.ts:68-82 | The same for any live key, by induction over the calls. |
| `Affinity.ParseInvertsKey` | packages/affinity/src/registry.ts:84-86 | A key reads back as its lease if and only if the ids hold no colon. |
| `Affinity.KeysAreDistinct` | packages/affinity/src/registry.ts:84-86 | Leases with colon-free ids never share a key. |
| `Affinity.ColonLosesTheRest` | packages/affinity/src/registry.ts:121-128 | With a colon in a resource id, every listing reports another lease: what follows the colon is lost. |
| `Affinity.ColonSharesAKey` | packages/affinity/src/registry.ts:84-86 | With a colon in a tenant id two different leases share one key. |
| `Affinity.AffinityRegistry.HeldOnPage` | packages/affinity/src/registry.ts:119-129 | One page gives the leases of its keys whose owner is the node, in order. |
| `Affinity.AffinityRegistry.LeasesHeldBy` | packages/affinity/src/registry.ts:110-132 | The listing over any paging, with empty pages and repeats, is what the scanned keys give. |
| `Affinity.ListingIsExact` | packages/affinity/src/registry.ts:110-132 | On a quiet store with colon-free ids, the listing taken as a set is exactly the leases of the node. |
| `Base64Url.RoundTrip` | packages/crypto/src/envelope.ts:233-242 | Decoding gives back the encoded bytes, whatever they are (section 5 of RFC 4648). |
| `Base64Url.HasNoDot` | packages/crypto/src/envelope.ts:221-227 | Encoded text never holds the separator. |
| `Kek.FromOptions` | packages/crypto/src/kek.ts:55-76 | The provider is made exactly when its options can serve: a current key that is there, no empty version, every key of 32 bytes. |
| `Kek.UnwrapWrap` | packages/crypto/src/kek.ts:94-131 | A wrapped key unwraps under any provider that still holds the version it was wrapped under. |
| `Envelope.ParsePrint` | packages/crypto/src/envelope.ts:197-219 | For everything `encrypt` and `rotate` print, `parse` inverts printing. |
| `Envelope.DecryptEncrypt` | packages/crypto/src/envelope.ts:33-92 | A value decrypts under its own associated data wherever its key version is still held. |
| `Envelope.MovedValueIsRefused` | packages/crypto/src/envelope.ts:28-31 | Read under other associated data than it was sealed with, a value is refused, unless the cipher seals some text there to the same bytes; exactly then it opens. |
| `Envelope.DecryptsIffGenuine` | packages/crypto/src/envelope.ts:62-92 | A stored text decrypts to some bytes if and only if both its parts were sealed so: the value under the data key with the associated data, the data key under the named version with that version. |
| `Envelope.RotateReachesCurrent` | packages/crypto/src/envelope.ts:123-139 | Rotation succeeds exactly when the value parses and its version is current or can be unwrapped; the result is current, with IV, tag and sealed bytes unchanged, and rotates no further. |
| `Envelope.RotateKeepsMeaning` | packages/crypto/src/envelope.ts:111-139 | Under every associated data the rotated value decrypts to the same bytes, or is refused alike, for every reader that holds the keys. |
| `Envelope.OldVersionsCanGo` | packages/crypto/src/envelope.ts:111-139 | A rotated value reads the same for a provider from which older versions were removed. |
| `Envelope.PrefixTestIsNeedsRotation` | packages/crypto/src/envelope.ts:147-155 | For everything `encrypt` and `rotate` print, the SQL prefix test selects the value exactly when `needsRotation` holds. |
| `Envelope.PrefixTestOnAnyValue` | packages/crypto/src/envelope.ts:109-111 | On any text that parses, the test misses nothing, and agrees with `needsRotation` if and only if the current version is not oddly spelled. |
| `Envelope.OddSpellingIsSelected` | packages/crypto/src/envelope.ts:237-242 | Such a text exists: left-over base64url bits spell the same version twice, so the test selects for ever what rotation gives back unchanged. |
| `Envelope.FirstPiece` | packages/crypto/src/envelope.ts:147-155 | Text up to a separator is a prefix of other text exactly when both begin with the same piece. |
| `Envelope.Encrypt` | packages/crypto/src/envelope.ts:33-59 | The method prints what the specification says and leaves the data key buffer zeroed. |
| `Envelope.Decrypt` | packages/crypto/src/envelope.ts:62-92 | The method answers what the specification says, and the buffer the data key was in is zeroed on success and on failure. |
| `Envelope.Rotate` | packages/crypto/src/envelope.ts:123-139 | The method answers what the specification says, with its data key buffer zeroed. |
| `Rewrap.RewrapJob.RewrapTarget` | packages/db/src/rewrap.ts:105-157 | Undisturbed and for every batch size, the walk ends and leaves what one ordered walk of the column leaves, with `skipped` 0 and the visits in order; a size of zero visits nothing. |
| `Rewrap.RewrapJob.RewrapBatch` | packages/db/src/rewrap.ts:125-150 | One batch takes the walk exactly as far as its last row. |
| `Rewrap.RewrapJob.RewrapRow` | packages/db/src/rewrap.ts:125-149 | One row: a failed rotation is counted and passed over; otherwise the compare-and-swap decides between rewrapped and skipped. |
| `Rewrap.VisitsTheEligible` | packages/db/src/rewrap.ts:117-123 | The ids visited are exactly those of the rows under an older version. |
| `Rewrap.VisitsInOrder` | packages/db/src/rewrap.ts:121-153 | Each is visited once, in key order, and `rewrapped + failed` is the number that were eligible. |
| `Rewrap.WalkTreatsEach` | packages/db/src/rewrap.ts:125-149 | Every eligible row that can be rotated is, and every other row is untouched. |
| `Rewrap.SelectContinues` | packages/db/src/rewrap.ts:117-123 | The cursor query sees exactly the rows beyond the last one handled, as they were at the start. |
| `Rewrap.SwapHitsItsRow` | packages/db/src/rewrap.ts:142-147 | The compare-and-swap matches the row just read, and only it. |
| `Rewrap.RewrapJob.CountRemaining` | packages/db/src/rewrap.ts:94-103 | The count over all targets is the number of rows the test still selects. |
| `Rewrap.RewrapJob.RunOnce` | packages/db/src/rewrap.ts:159-175 | A pass walks every target once, adds up the counts, and remembers what remains. |
| `RewrapSafety.PassReport` | packages/db/src/rewrap.ts:159-175 | What an undisturbed pass reports over all its targets: `rewrapped + failed` is what was eligible and nothing is skipped; `remaining` is `failed` plus the oddly spelled rows, and equals `failed` if and only if no target has one. |
| `RewrapSafety.RemainingAreFailedOrOdd` | packages/db/src/rewrap.ts:105-157 | The same of one target. |
| `RewrapSafety.PassKeepsMeaning` | packages/db/src/rewrap.ts:62-66 | A pass leaves every value reading as it did under every associated data. |
| `RewrapSafety.OlderVersionsCanBeRemoved` | packages/db/src/rewrap.ts:182-187 | When nothing remains, every stored value that parses reads the same without the older versions. |
| `RewrapSafety.EveryRowReadsAsLastWritten` | packages/db/src/rewrap.ts:125-149 | Any interleaving of several passes, crashes and application writes leaves each row reading, under every associated data, as the last write of it does, with the same IV, tag and sealed bytes. |
| `RewrapSafety.EncryptedWritesComeBack` | packages/db/src/rewrap.ts:125-149 | In particular each encrypted write comes back as its plaintext. |
| `Calendar.TextOrder` | packages/db/src/partitions.ts:58-60 | The string order of `YYYY-MM-DD` texts is the order of the dates, for the years 0 to 9999. |
| `Calendar.DateReadsBack` | packages/db/src/partitions.ts:58-60 | A printed date literal reads back as the date. |
| `Calendar.NegativeYearsSortFirst` | packages/db/src/partitions.ts:92-95 | A cutoff before the year 0, printed with its sign, is below every date text, so nothing is dropped. |
| `Partitions.PlanMonthlyPartitions` | packages/db/src/partitions.ts:80-106 | The planner refuses exactly a retention below one month, and otherwise gives the plan the bounds call for. |
| `Partitions.AddedAreUppers` | packages/db/src/partitions.ts:99-104 | The string comparisons of the planner pick exactly the months of the look-ahead above the highest bound. |
| `Partitions.UppersReachAhead` | packages/db/src/partitions.ts:99-104 | Those months strictly increase, above the highest bound, and end with the look-ahead unless it was reached already. |
| `PartitionTheorems.AddsAscendAboveAll` | packages/db/src/partitions.ts:99-104 | The bounds a plan adds strictly increase above every existing one. |
| `PartitionTheorems.ExactlyTheExpiredGo` | packages/db/src/partitions.ts:93-95 | A pass deletes exactly the rows below a bound that is itself at or before the cutoff; nothing else goes and nothing new comes. |
| `PartitionTheorems.RetentionIsKept` | packages/db/src/partitions.ts:67-79 | No row dated on or after the first of (current month minus retention) is ever deleted. |
| `PartitionTheorems.MonthlyTablesKeepNothingOlder` | packages/db/src/partitions.ts:67-79 | With one partition a month around the cutoff, exactly the rows within retention are kept. |
| `PartitionTheorems.PassReachesAhead` | packages/db/src/partitions.ts:163-189 | A pass always leaves a partition, and its last bound is at or beyond the look-ahead. |
| `PartitionTheorems.LookAheadIsPartitioned` | packages/db/src/partitions.ts:72-73 | No date within the look-ahead falls to the `MAXVALUE` partition. |
| `PartitionTheorems.SecondPassIsEmpty` | packages/db/src/partitions.ts:116-117 | Planning again on the result is empty. |
| `PartitionTheorems.PassKeepsShape` | packages/db/src/partitions.ts:167-189 | The table is as well formed and as conventionally named after a pass as before, catch-all included. |
| `PartitionTheorems.ReorganizedStores` | packages/db/src/partitions.ts:173-182 | Splitting months out of the catch-all loses no row. |
| `PartitionTheorems.ReorganizedIsPlaced` | packages/db/src/partitions.ts:173-182 | And puts every row where its date belongs. |
| `PartitionTheorems.NamesDiffer` | packages/db/src/partitions.ts:62-66 | Conventional names tell all partitions of a table apart, so dropping by name drops what was meant. |
| `PartitionTheorems.PartitionJob.Maintain` | packages/db/src/partitions.ts:152-203 | Without the lock, or without partitions, nothing happens; otherwise months are added before old ones are dropped, and a statement that fails, or whose answer is lost, leaves the table as it was, halfway, or done. |
| `PartitionTheorems.HalfwayLosesNothing` | packages/db/src/partitions.ts:167-189 | Between the two statements the table is well formed and stores exactly the rows it did. |
| `PartitionTheorems.NextPassFinishes` | packages/db/src/partitions.ts:167-189 | A pass after one that failed in between leaves what one whole pass would have left. |
| `FlowGraph.ValidIsNoDefect` | packages/callflow-ir/src/nodes.ts:155-177 | A graph meets the contract of the compiler if and only if it has none of the defects the validator reports. |
| `FlowGraph.KeyIsOneToOne` | packages/callflow-ir/src/validator.ts:106 | For the ports a node may have, the NUL-joined key stands for one node and one port. |
| `FlowGraph.KeyReadsBack` | packages/callflow-ir/src/validator.ts:110-120 | The node and port reported for a port wired twice are right if and only if the node id holds no NUL. |
| `FlowGraph.PortsHaveNoSeparator` | packages/callflow-ir/src/nodes.ts:139-177 | No port any node type allows holds the separator. |
| `FlowValidator.ValidateGraph` | packages/callflow-ir/src/validator.ts:34-160 | The list holds an issue exactly when the graph has that defect, and is empty if and only if the graph is valid. |
| `FlowGraph.DigitConflictsAreDigits` | packages/callflow-ir/src/validator.ts:110-119 | A port wired twice is reported as a digit conflict if and only if the port is a digit, for ids and ports without NUL. |
| `FlowGraph.NulMistakesThePort` | packages/callflow-ir/src/validator.ts:112-113 | With a NUL in a node id, a piece of the id is taken for the port. |
| `FlowValidator.IssuesAreDefects` | packages/callflow-ir/src/validator.ts:34-160 | Every kind of issue, both ways, for the list in the order of the validator. |
| `FlowValidator.FindReachable` | packages/callflow-ir/src/validator.ts:138-149 | The breadth-first search ends and finds exactly the nodes that some path from an entry point leads to. |
| `FlowValidator.ClosedHoldsPaths` | packages/callflow-ir/src/validator.ts:138-149 | A set closed under edges that holds the entry points holds the end of every path. |
| `FlowValidator.CheckEdges` | packages/callflow-ir/src/validator.ts:81-108 | The walk over the edges lists their defects and counts each node and port, in order of first appearance. |
| `FlowValidator.TwiceIsTwice` | packages/callflow-ir/src/validator.ts:80-120 | A key counts more than one exactly when two edges from known nodes have it. |
| `FlowValidator.CheckPorts` | packages/callflow-ir/src/validator.ts:122-136 | Every required port without an edge is listed, node by node. |
| `FlowCompiler.CompileGraph` | packages/callflow-ir/src/compiler.ts:48-83 | Compiles exactly the valid graphs whose configurations fit their schemas; otherwise refuses with every defect, or with a misfit. |
| `FlowCompiler.WalksAgree` | packages/callflow-ir/src/compiler.ts:69-79 | For every sequence of port choices, however long, the compiled walk visits the nodes the authored edges lead to and stops at the same place, unless it comes to a node named `__proto__`. |
| `FlowCompiler.NeverLostWithoutProto` | packages/callflow-ir/src/compiler.ts:52-79 | No walk from an entry point reaches an id missing from `nodes`, if and only if no node is named `__proto__`. |
| `FlowCompiler.PathsCanBeWalked` | packages/callflow-ir/src/compiler.ts:69-72 | Some choice of ports takes the walk along any path of the graph. |
| `FlowCompiler.NodeIsCompiledAs` | packages/callflow-ir/src/compiler.ts:53-79 | Each node compiles to its own type and configuration, with its own edges as ports. |
| `FlowCompiler.PortsAreEdges` | packages/callflow-ir/src/compiler.ts:69-72 | In a sound graph the ports filled in place are exactly the wired edges of the node. |
| `CallRegistry.SMembers` | services/call-control/src/redis/registry.ts:362-364 | Listing an index set gives each member once, in some order. |
| `RegistrySync.RegistryRebuild.RebuildNode` | services/call-control/src/registry-rebuild.ts:69-106 | The loop over the listed channels records exactly what `Rebuilt` says and answers the live set. |
| `RegistrySync.RebuiltRecords` | services/call-control/src/registry-rebuild.ts:69-106 | Exactly the readable channels without a record are added, each as its dump says; every record there already is untouched. |
| `RegistrySync.RebuiltIndex` | services/call-control/src/registry-rebuild.ts:92-93 | And they are indexed under this node only. |
| `RegistrySync.RegistryRebuild.EndCall` | services/call-control/src/channel-handler.ts:206-219 | Ending a call writes the hangup event first, then removes the call; a failure leaves the first, or neither. |
| `RegistrySync.RegistryRebuild.SweepNode` | services/call-control/src/registry-rebuild.ts:125-132 | The loop over the calls of the node, up to a failure. |
| `RegistrySync.RegistryRebuild.SyncNode` | services/call-control/src/registry-rebuild.ts:117-140 | A whole `syncNode` is a rebuild and then a sweep of what the index then lists. |
| `RegistrySync.SyncedCalls` | services/call-control/src/registry-rebuild.ts:117-140 | Which calls the node has afterwards, call by call. |
| `RegistrySync.SyncIsExact` | services/call-control/src/registry-rebuild.ts:108-116 | Apart from calls started after the node was asked, the calls of the node are exactly its live channels, if and only if no live channel had a record that was not indexed under the node. |
| `RegistrySync.MovedCallIsMissed` | services/call-control/src/registry-rebuild.ts:84-93 | The failing case: a live channel whose call is recorded for another node stays unlisted, and the run changes nothing. |
| `RegistrySync.LiveCallsAreRecorded` | services/call-control/src/registry-rebuild.ts:84-104 | Every live channel ends with a record: the one it had, unchanged, if it had one. |
| `RegistrySync.RemovedCallsWereAnnounced` | services/call-control/src/channel-handler.ts:206-219 | However a run ends, a call it removed has its hangup in the outbox; exactly one when the run completed. |
| `RegistrySync.SweptEndsTheDue` | services/call-control/src/registry-rebuild.ts:125-132 | The calls ended are exactly those due, once each. |
| `RegistrySync.SweptLeavesOtherNodes` | services/call-control/src/registry-rebuild.ts:125-132 | The calls of other nodes are not touched. |
| `RegistrySync.SyncKeepsTenants` | services/call-control/src/redis/registry.ts:323-361 | A run keeps the index of tenants: whatever is recorded with a tenant is listed under it. |
| `RegistrySync.SecondRunIsIdle` | services/call-control/src/registry-rebuild.ts:117-140 | A second run over the same channels changes nothing, if and only if no call too young for the first is old enough for the second. |
| `RegistrySync.RebuildRestoresCalls` | services/call-control/src/registry-rebuild.ts:142-163 | After the registry was lost, every readable live channel of every readable node has a record again, and what live events recreated is left alone. |
| `RegistrySync.RegistryRebuild.Check` | services/call-control/src/registry-rebuild.ts:165-175 | Only the replica whose claim of the epoch wins rebuilds; a replica sets its leases again exactly when the epoch differs from the one it last saw. |
| `NodeFailureProtocol.NoCallVanishesUnannounced` | services/call-control/src/node-failure.ts:77-113 | Through crashes, lapsed claims and overlapping sweeps, a call that had a record has it still, or is in the outbox as `call.lost`, or its record expired. |
| `NodeFailureProtocol.CompletedSweepLeavesNothing` | services/call-control/src/node-failure.ts:79-113 | Once any sweep completes, the node has no calls, and each was announced or had expired. |
| `NodeFailureProtocol.OrderlySweepsAnnounceOnce` | services/call-control/src/node-failure.ts:92-111 | With no overlap and no failure between the two writes, each unexpired call is announced exactly once. |
| `NodeFailureProtocol.AnnouncedOnceIffOrderly` | services/call-control/src/node-failure.ts:49-113 | In every world and every run a call is announced at most once, if and only if no sweep begins beside one at work and none fails between announcing a call and removing it. |
| `NodeFailureProtocol.OverlapCanAnnounceTwice` | services/call-control/src/node-failure.ts:49-66 | With overlap alone, no sweep failing between its writes: once a claim lapses under a slow sweep, one call can be announced twice. |
| `NodeFailureProtocol.CrashCanAnnounceTwice` | services/call-control/src/node-failure.ts:92-111 | With such a failure alone, no two sweeps ever at work together: the sweep after it can announce the same call again. |
| `NodeFailureProtocol.InTimeNeverOverlaps` | services/call-control/src/node-failure.ts:37-66 | If every sweep ends, or fails, before the time its claim is made for has passed, no two sweeps are at work together. |
| `NodeFailureProtocol.TimelySweepsAnnounceOnce` | services/call-control/src/node-failure.ts:77-113 | So sweeps that end in time, none failing between its two writes, announce no call twice. |
| `NodeFailureProtocol.RunKeepsInv` | services/call-control/src/node-failure.ts:77-134 | The invariant behind these results is kept by every run. |
| `NodeFailure.NodeFailureWatcher.Handle` | services/call-control/src/node-failure.ts:77-113 | An undisturbed sweep announces and removes every call listed and counts the announcements. |
| `NodeFailure.SweepIsARun` | services/call-control/src/node-failure.ts:79-113 | From wherever a replica has listed the calls, its sweep can run to the end, and does what the method does. |
| `NodeFailure.DeathCanAlwaysBeHandled` | services/call-control/src/node-failure.ts:77-134 | From every state any run reaches, some continuation waits the claim out, takes the death over, and ends with no calls of the node left, each announced or expired. |
| `NodeFailure.Stores.ClaimNodeLoss` | services/call-control/src/redis/registry.ts:374-376 | The claim is won exactly when no live one is there. |
| `NodeFailure.NodeFailureWatcher.RunOnce` | services/call-control/src/node-failure.ts:123-134 | A pass handles, once each, exactly the known nodes that are not connected, not alive and not claimed, none in the startup grace; their calls are gone, each recorded one announced exactly once more, and all other calls and nodes are as they were. |
| `Authz.ExpandPermissions` | packages/authz/src/permissions.ts:310-317 | The loop gives the held permissions and their twins, and membership in it is `holdsPermission`. |
| `Authz.HoldsIsExpanded` | packages/authz/src/permissions.ts:296-322 | The two ways to ask agree: a permission is held exactly when it is in the expanded set. |
| `Authz.ExpandingTwiceIsOnce` | packages/authz/src/permissions.ts:240-254 | Expanding again adds nothing, if and only if twins do not chain. |
| `Authz.PlatformTwinsStop` | packages/authz/src/permissions.ts:255-279 | The twins of the platform do not chain. |
| `Authz.MonitoringHasNoTwin` | packages/authz/src/permissions.ts:255-279 | Nothing implies a permission to listen to, whisper on or barge into calls. |
| `Authz.AllowedIsMonotone` | packages/authz/src/evaluate.ts:78-87 | More roles, wider roles and more grants never take an answer away. |
| `Authz.ExpandedRolesAllowTheSame` | packages/authz/src/evaluate.ts:12-18 | Expanding roles beforehand changes no decision. |
| `MonitorControl.MayMonitor` | services/call-control/src/monitor-control.ts:235-295 | Answers what the full search would for a permission nothing else implies, with no lookup when the early exit settles it; reports which of the three services could not be asked, in the order they are. |
| `MonitorControl.EarlyExitIsExact` | services/call-control/src/monitor-control.ts:267-274 | When the org-wide check fails and no grant names the permission on an extension or queue, no scope the full search could build is allowed. |
| `MonitorControl.EarlyExitMissesTwins` | services/call-control/src/monitor-control.ts:269-273 | For any permission another one implies, a grant of the other on a queue is missed. |
| `MonitorControl.EarlyExitIsExactIffNoTwin` | services/call-control/src/monitor-control.ts:267-294 | So the early exit is exact for a permission if and only if nothing else implies it. |
| `MonitorControl.MonitorsEarlyExitIsExact` | services/call-control/src/monitor-control.ts:298-302 | Hence it is exact for every permission `monitor` asks for. |
| `MonitorControl.CollectExtensions` | services/call-control/src/monitor-control.ts:276-287 | The loop over the legs gives the scopes of all their extensions, or reports the failed lookup. |
| `MonitorControl.CollectQueues` | services/call-control/src/monitor-control.ts:288-293 | And the queues the legs are in, as the registry and the node say, or reports that the node could not be asked about a leg. |
| `Serial.OneAtATimeInOrder` | services/call-control/src/serial.ts:1-13 | Tasks of one key never overlap, and begin in the order they were given. |
| `Serial.ForgottenKeysAreIdle` | services/call-control/src/serial.ts:23-26 | A task given to a forgotten key finds every earlier task of it settled. |
| `Serial.SkippedOnlyBehindAThrow` | services/call-control/src/serial.ts:19-21 | A settled task was passed over if and only if the tail before it was rejected, which takes `onError` itself to throw. |
| `Serial.FailuresStopNobody` | services/call-control/src/serial.ts:11-13 | As long as `onError` does not throw, no failing task stops a later one. |
| `Serial.FirstCanGoOn` | services/call-control/src/serial.ts:19-21 | The first unsettled task of a key can always go on, whatever other keys do. |
| `Serial.IdleKeyGoesIffFulfilled` | services/call-control/src/serial.ts:23-26 | A key whose last tail has settled can be forgotten without new work for it, if and only if that tail is fulfilled. |
| `Serial.RememberedIffRejected` | services/call-control/src/serial.ts:18-26 | When all that was given has been done, a key is still remembered if and only if its last tail was rejected, which takes `onError` to throw. |
| `Serial.RejectedTailStays` | services/call-control/src/serial.ts:18-26 | A rejected tail keeps its key until new work is given to it. |
| `Serial.SerialQueue.Submit` | services/call-control/src/serial.ts:18-22 | Chains new work on the tail of its key, or on a resolved promise, and keeps the invariant. |
| `Serial.SerialQueue.ForgetIdle` | services/call-control/src/serial.ts:23-26 | Removes the key only while this tail is still the last, and keeps the invariant. |
| `Storage.TenantsAreApart` | packages/storage/src/bucket-naming.ts:44-52 | In both modes, two UUID-shaped tenants share no location and no purge prefix, if and only if their ids differ in more than case. |
| `Storage.PlatformIsApart` | packages/storage/src/bucket-naming.ts:55-57 | No platform object is under the prefix of a tenant. |
| `Storage.PurgePrefixCoversOwn` | packages/storage/src/bucket-naming.ts:44-52 | The purge prefix of a tenant covers exactly the locations of its keys. |
| `Storage.Store.DeleteUnder` | packages/storage/src/storage.ts:486-515 | Ends for any paging and any failing requests: an answer means everything under the prefix is gone and counts it; it fails only over a refused object or a failed request, and deletes nothing from elsewhere. |
| `Storage.PurgeCanBeRepeated` | packages/storage/src/storage.ts:102-107 | A purge that failed can be repeated: together the two delete exactly what one would have. |
| `Storage.Store.PurgeTenant` | packages/storage/src/storage.ts:523-540 | Removes exactly the objects of the tenant, then its own bucket if it has one, and answers their number, or fails over a refused object or a failed request; every object of others stays either way. |
| `Storage.Store.List` | packages/storage/src/storage.ts:442-466 | Gives back exactly the keys callers used that are stored under the prefix, each once where the pages list each once. |

## Left out

- Relay.OutboxRelay.RunOnce: what a claim returns is any answer the query allows with some rows locked; how the database picks among them is not modelled.
- NodeOwnership.NodeOwnership.RunOnce: the checks of one pass run one after another here, where the source starts them together; that the order makes no difference is `PassOrder.AnyOrderWillDo`, for node ids that are all different.
- NodeOwnership.NodeOwnership.Stop: a pass begins and ends while one release is awaited; passes that overlap several releases are runs of the protocol, and `Shutdown` speaks of those.
- Rewrap.RewrapJob.RunOnce: takes the targets to be different columns, and the pass to be alone; several passes and writers together are in `RewrapSafety`.
- Rewrap.RewrapJob.RewrapTarget: an update that matches a row counts as affecting it even when it writes the same text, as the driver's default does.
- RegistrySync.RegistryRebuild.SyncNode: the node's answer is one snapshot, and nothing else writes meanwhile; the normalizer that turns a dump into a record is an argument.
- NodeFailure.NodeFailureWatcher.Handle: the release of the node's leases after the sweep is not modelled; a call's announcement carries its id, node and tenant only.
- PartitionTheorems.ExactlyTheExpiredGo: assumes the names and the shape these tables are created with (`p_before`, one per month, `p_max`), and the years 0 to 9999; the first years of the calendar, which the date constructor reads as the twentieth century, are not modelled.
- Partitions.PlanMonthlyPartitions: retention is a whole number here, so a fraction is not refused but cannot be written.
- MonitorControl.MayMonitor: for a permission that another implies it may answer no where the full search says yes; `EarlyExitIsExactIffNoTwin` says exactly when.
- FlowValidator.ValidateGraph: messages are left out; the kinds are `FlowGraph.KindOf`. The issues come in the order of the code, which the contract does not state.
- FlowCompiler.CompileGraph: entry points are passed through; a node's editor state never reaches the compiled form and is not modelled.
- Affinity.AffinityRegistry.LeasesHeldBy: the scan pattern's own wildcard characters in a key prefix, and a store that changes under the scan, are not modelled.
- OwnershipProtocol.LeaseHolderIsTheOwner: Redis keeps its data, replicas have different ids, and the configured node ids are all different, so a pass has one call in flight per node.
- EventTheorems.HandledAtMostOnce: per database, as the inbox table is; nobody deletes inbox rows.
- EventTheorems.NoEventLost: the stream's own retention, and an operator putting a parked row back, are not modelled.
- Envelope.MovedValueIsRefused: the cipher is ideal in that exactly what was sealed opens; how unlikely two seals are to collide is not modelled.
- Envelope.DecryptEncrypt: key versions are strings that survive UTF-8.
- Storage.Store.List: sizes are left out.
- Storage.Store.PurgeTenant: creating buckets, cross-origin rules and lifecycle rules are not modelled; nobody writes meanwhile.
- Serial.FirstCanGoOn: which of several enabled steps the runtime takes next is not modelled.
- HTTP routes, proxies, certificates, metrics, configuration, logging and the clients of other services: plumbing with easy properties.
- The event socket commands and the media server: the other side is not part of this repository.
- Role tables, the full permission catalog and schema checks: data, or abstract predicates.
- The affinity manager, call operations and recording control: built on what is modelled, with nothing harder in them.
- The status, lag and readiness answers of the jobs, their timers and their sharing of a pass in progress: easy members.
