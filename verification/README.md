# A verified model of go-mLayer's core

go-mLayer is a node of a decentralised messaging network. Nodes exchange signed events, keep the
state that those events produce, count the events, batch the counts into rewards, and have sentries
co-sign the batches. This project models the parts in which that is decided, in Dafny, and proves
what they keep:

- **Multi-signatures** (`internal/crypto/schnorr`). `Field`, `Curve` and `Aggregation` follow the
  hand-written inverse and the mixed Jacobian/affine addition, and prove that aggregating public keys
  is the fold of the affine chord addition of section 2.2.1 of SEC 1 v2.0 and stays on the curve.
  `Group` and `MultiSignature` prove the aggregated signature correct in every abelian group whose
  base point the group order annihilates.
- **Event acceptance** (`internal/service`). `EventProcessing` and `EventHandling` follow the decisions
  of `ProcessEvent` and of the subnet and topic handlers, panics and the deferred commit included;
  `EventConditions` and `EventEffects` prove exactly when an event changes a state or becomes history, in
  terms of what is sent, stored and answered; `EventRuns`, `EventCounts`, `StateProgress` and
  `OrderIndependence` prove what every accepted event and every run of events keeps.
- **The pending-write buffer** (`internal/ds/query/data_state_manager.go`). `DataStates` on values,
  `EventPointers` at the level of the two shared flags.
- **Rewards** (`entities/reward.go`, `pkg/node/reward.go`). `HashChain`, `RewardBatches`,
  `RewardTracking` and `SentryRound`.
- **Statistics** (`pkg/node/node.go`, `internal/ds/query`). `StatsKeys`, `StatsStore` and
  `StatsQueries`: the windowed counting refines counting one event at a time, and the families of
  counters agree with each other exactly when every event has a model.
- **State indices** (`internal/ds/query`). `AuthorizationIndex` and `SubnetIndex`, over the keys of
  `Datastore`, against the simple map from identity to latest state.

`BigEndian`, `ModArith`, `Ordering`, `Entities` and `Wrappers` hold what these share.

Code that updates things in place is modelled by classes and loops (`JacobianPoint`, `BigInt`,
`DataStates`, `PointerDataStates`, `NodeStores`, `RewardBatch`, `ClaimedRewardStore`,
`NetworkStatsStore`, the two `StateStore`s), each proved against a function on values; the properties
are lemmas about those functions.

## How the environment is modelled

- The field prime `p` is any odd prime and the group order `n` any positive number of at most 256 bits.
- Hash functions are parameters with 32-byte results. Nothing assumes that they are injective: binding
  is stated as the computation of a collision.
- Signature checks, payload validation, the datastore's failures and the answers of peers are fields of
  `Answers` and `HandlerAnswers`; the operators of sentry licences, the points that their keys parse to
  and their answers are a `Network`.
- A datastore is a map from keys to values. A key is the list of its components, which are taken to
  hold no slash and not to be `.` or `..`; the statistics keys keep empty components until they are
  cleaned. A prefix query matches whole components, as the badger adapter does. A transaction that
  commits is one step.
- An event's id is the one that its signature encodes; `signed` says that a signature is present. The id
  that `GetId` derives from the signature of a handler's data is an answer (`derivedId`), that of a subnet
  state a field of it (`derived`); both are empty where deriving fails.
- A panic ends the handler, but a commit that was already deferred still runs: `Crashed` carries what is
  stored by then, and runs of deliveries go on from there.
- Timestamps in keys are strings (`stamp`): nothing depends on their format.

## What the code does otherwise than one might expect

Each of these is part of the model, and where it bounds a property the bound is proved exact.

- `toAddress` panics exactly when the thirteenth byte of the hash is zero (`AddressIsHashSuffix`).
- Adding a key whose x equals the running sum's gives Z = 0 from there on, and `toAffine` then yields
  (0, 0), a point off the curve (`MixedSumCollapses`, `AggregateOnCurve`).
- An event whose previous event is older than the local state, although the event itself is newer, is
  marked bad. The comparison takes the id of the previous event for its hash, which decides ties in time.
- An update of a subnet panics in the commit when the old or the new state has no default privilege, which a
  log line dereferences; nothing is stored then (`AcceptedIsApplied`, `UpdateSubnetState`).
- So the state that a subnet ends with is independent of the delivery order exactly when no event lies between
  another event and the one it builds on, only the oldest event's data lack an id, and the data of several events
  all have a default privilege (`OrderIndependentIff`). A chain with increasing times is not enough: after an
  update without an id the creation, delivered once more, is the state (`BlankChainReorders`).
- A previous event that is fetched from a peer is held in a shadowing variable, so the check on its
  recency is not made. It is written into the buffer past its count (`ProcessCounts`).
- Three kinds of delivery can roll a current state back or spoil it (`KeptIffNotRisky`):
  a topic event whose data carry no id, such as a creation that is delivered again, skips the lookup of the
  local state and overwrites it (`BlankTopicFails`); a subnet update whose data carry no id is stored without
  one (`BlankUpdateFails`), after which any event with a privilege replaces it (`BlankStateIsReplaced`); and a subnet event
  that names a grant whose state is found without an id, or among whose fetched states none can be read, ends
  `ProcessEvent` before the comparison and is applied (`BlankGrantFails`).
- A subnet event that names a grant with an id is never applied: the grant is queued as a pointer, on which
  the commit panics (`NamedGrantQueuesPointer`).
- A topic can change only under a stored grant that the node already considers superseded: a grant
  that is the current one ends `ProcessEvent` without acceptance, and a newer one is queued as a pointer
  (`TopicChangesUnderSupersededGrant`; `TopicChangesIff` has all conditions).
- Historic states are written outside the transactions: a commit that fails on a later event has already
  stored them (`Committed`).
- A count above 2⁶³ turns negative when it is converted; the batch's total is the message cost times the
  events exactly when no count does so, save for one of 2⁶³ before all others (`TotalIsConserved`).
- The reward pages start at index 1, so the first hundred rows of a cycle are never batched
  (`BatchesHoldTheRest`). The probes of a sentry round always start at 1000, and a round may need up to
  39 commitments, not 30 (`Needed`). Two probes ask for one licence when the number of licences divides the
  difference of their draws (`LicencesAgreeIff`); when these are the first two, both aggregates of the round
  are (0, 0) (`RepeatedProbesCollapse`).
- A sentry round panics between its two phases when the commitment's hash has a zero thirteenth byte. A
  claim stores the batch alone: the signers, the commitment and the aggregated signature are put into a local
  proof that is dropped, and the claim is later sent with the empty proof of the stored batch (`Round`).
- An event of type 1500 or above has no model; it counts twice in the total and in its block
  (`ConservedExactly`). `GetStats` by model alone reads a key nobody writes, and without any field it
  dereferences a nil block.
- The agent and account entries of an authorization share one key space, so grants in opposite
  directions replace each other, and a grant for particular topics does not replace the one for all
  (`AgreesIff`, `TopicsDoNotReplace`). A nil timestamp panics while the keys are built.
  Joining the components of an id key with colons can make different authorizations share one
  (`ColonsMayCollide`).
- A subnet update deletes its old reference even when another subnet still has it, and a creation
  overwrites a reference that is in use (`RefsAgreeIffFreed`). An update made under another id than the
  state's own hides the next one (`NextUpdateReaches`).

## Model

| member | source | states |
|---|---|---|
| Field.InverseExists | internal/crypto/schnorr/helper.go:24-53 | every number that p does not divide has an inverse modulo the prime p |
| Field.InverseUnique | internal/crypto/schnorr/helper.go:35-53 | it has only one between 0 and p |
| Field.InvMod | internal/crypto/schnorr/helper.go:35-54 | the loop ends, leaves zero in its argument and returns the inverse of what was there, and zero for zero |
| Curve.ChordOnCurve | internal/crypto/schnorr/helper.go:55-113 | the chord addition of two curve points with different x gives a curve point |
| Curve.ChordCommutes | internal/crypto/schnorr/helper.go:55-113 | the chord addition does not depend on the order of its points |
| Curve.JacobianOnCurve | internal/crypto/schnorr/helper.go:16-18 | a Jacobian triple satisfies Y² = X³ + 7Z⁶ modulo p if and only if the affine point it stands for is on the curve |
| Curve.StandsForPoint | internal/crypto/schnorr/helper.go:16-18 | every triple whose Z is not zero modulo p stands for an affine point |
| Curve.ToAffineRecovers | internal/crypto/schnorr/helper.go:115-129 | multiplying by the square and the cube of the inverse of Z recovers the affine point |
| Aggregation.MixedSumIsChord | internal/crypto/schnorr/helper.go:70-112 | the mixed addition stands for the chord sum of what its triple stands for, with Z = 2·Z·h not zero modulo p |
| Aggregation.MixedSumOnCurve | internal/crypto/schnorr/helper.go:55-113 | for every triple on the curve with Z not zero and every key on the curve with another x, the sum is on the curve with Z not zero |
| Aggregation.MixedSumCollapses | internal/crypto/schnorr/helper.go:70-112 | once Z is zero, or the two x agree, the sum has Z zero |
| Aggregation.StepsAgree | internal/crypto/schnorr/helper.go:70-108 | the code's order of reductions and subtractions computes the same triple as the formula |
| Aggregation.JacobianPoint.AddAffinePoint | internal/crypto/schnorr/helper.go:55-113 | the three coordinates become those of the mixed sum; they stay on the curve with Z not zero for a key on the curve with another x, and Z becomes zero for a key with the same x or from Z zero |
| Aggregation.JacobianPoint.ToAffine | internal/crypto/schnorr/helper.go:115-129 | returns the point the triple stands for, and (0, 0) when Z is zero |
| Aggregation.FoldOnCurve | internal/crypto/schnorr/muttisig.go:81-84 | the chord fold of curve points stays on the curve while each key's x differs from the running sum's |
| Aggregation.OriginOffCurve | internal/crypto/schnorr/muttisig.go:87 | (0, 0) is not on the curve, for any prime but 7 |
| Aggregation.AggregateOnCurve | internal/crypto/schnorr/muttisig.go:63-88 | the aggregate of curve points is on the curve if and only if each key's x differs from the running sum's, for any prime but 7 |
| Aggregation.EqualFirstKeysCollapse | internal/crypto/schnorr/muttisig.go:63-88 | two equal keys at the start make the aggregate (0, 0), whatever follows |
| Aggregation.FoldStep | internal/crypto/schnorr/muttisig.go:81-84 | one step of the loop keeps the triple standing for the fold of the keys so far, or Z at zero |
| Aggregation.AggregatePublicKeys | internal/crypto/schnorr/muttisig.go:63-88 | nil for no keys, otherwise the chord fold of all keys, and (0, 0) once an x repeats the running sum's |
| Group.ScaleMul | internal/crypto/schnorr/muttisig.go:152 | multiples of multiples are the multiples by the product |
| Group.ScaleMod | internal/crypto/schnorr/muttisig.go:91-105 | reducing a scalar modulo an order of the point, or not reducing it as the nonce, gives the same multiple |
| MultiSignature.SignatureEquation | internal/crypto/schnorr/muttisig.go:147-153 | the bytes of one signature decode to a scalar below n with [s]G = R + [e]P |
| MultiSignature.ComputeSignatureMulti | internal/crypto/schnorr/muttisig.go:155-164 | one signature for each key, in order: the hash of key and message plus the challenge times the key, modulo n |
| MultiSignature.AggregateSignatures | internal/crypto/schnorr/muttisig.go:183-190 | the bytes of the sum of the decoded signatures modulo n |
| MultiSignature.AggregateVerifies | internal/crypto/schnorr/muttisig.go:91-105 | for any signers and any challenge the aggregate satisfies [s]G = ΣR + [e]ΣP, although nonces may exceed n |
| MultiSignature.AggregateIsUnique | internal/crypto/schnorr/muttisig.go:183-190 | when n is the exact order of G, a scalar below n verifies if and only if it is the aggregate |
| MultiSignature.AddressIsHashSuffix | internal/crypto/schnorr/muttisig.go:20-50 | the address is the last 20 bytes of the hash if the first of these is not zero, and otherwise the slice panics |
| MultiSignature.ComputeSigningParams | internal/crypto/schnorr/muttisig.go:174-181 | the aggregated key; the commitment, which is the last 20 bytes of the hash of both coordinates of the aggregated nonce key; and the challenge, which is the hash of the key's x, the parity of its y, the message and the commitment, in this order, modulo n; failure exactly for an empty list or a commitment that panics |
| MultiSignature.ChallengeBinds | internal/crypto/schnorr/muttisig.go:117-144 | two runs that differ in message, commitment or, with equally long abscissas, key hash two different strings for their challenges, so that the hash values differ or a collision is found |
| MultiSignature.NonceBinds | internal/crypto/schnorr/muttisig.go:90-105 | equal nonces for different keys or 32-byte messages give a collision of the hash |
| MultiSignature.FoldIsSum | internal/crypto/schnorr/muttisig.go:63-88 | on a group whose addition is the chord rule the aggregated point is the sum of the points |
| MultiSignature.AggregateVerifiesOnCoordinates | internal/crypto/schnorr/muttisig.go:174-190 | signing under the challenge of ComputeSigningParams verifies against the two aggregated points it computed |
| MultiSignature.SignSingleIsOneSigner | internal/crypto/schnorr/muttisig.go:193-201 | SignSingle gives what the signing parameters, the one signature and the aggregation give for a single signer |
| BigEndian.RoundTrip | internal/crypto/schnorr/muttisig.go:147-153 | decoding the minimal bytes of a number gives the number |
| BigEndian.Canonical | internal/crypto/schnorr/muttisig.go:39-46 | encoding a decoded string gives the string back if and only if it has no leading zero byte |
| BigEndian.FixedRoundTrip | common/utils/helper.go:230-232 | a number that fits a width is recovered from its bytes of that width |
| Ordering.LessIsTotal | internal/service/helper.go:458-463 | the byte order on strings is total and strict |
| Ordering.MoreRecentIsStrictTotalOrder | internal/service/helper.go:439-465 | IsMoreRecentEvent is a strict total order on pairs of timestamp and hash |
| Ordering.IsMoreRecent | internal/service/helper.go:467-517 | agrees with IsMoreRecentEvent whenever the current event id is not empty, and with an empty one decides on timestamps alone and clears the synced mark on a tie |
| Entities.OverlayLaws | common/utils/helper.go:114-164 | overlaying non-zero fields is associative, and repeating an overlay changes nothing |
| Entities.OverlayUpdates | common/utils/helper.go:114-164 | the overlay is the one event in which every field has the source's value, or the destination's where that is zero; the zero event is its identity on both sides |
| DataStates.AddEventIsIdempotent | internal/ds/query/data_state_manager.go:34-51 | adding an event twice is adding it once |
| DataStates.DataStates.AddEvent | internal/ds/query/data_state_manager.go:34-51 | queues the event as it is, not valid if it has an error, and counts it; or updates the queued one field by field, a zero field leaving it alone; panics exactly on a first add without signature |
| DataStates.DataStates.AddCurrentState | internal/ds/query/data_state_manager.go:53-62 | the first state on a path is queued and counted; a second one is overlaid if both were queued through a pointer, and panics otherwise |
| DataStates.DataStates.AddHistoricState | internal/ds/query/data_state_manager.go:64-71 | the state replaces the one on the path, which is counted once |
| DataStates.CountIsEntries | internal/ds/query/data_state_manager.go:30-71 | after any additions the count is the number of entries, less the events that were written past it under new ids, modulo 65536; the buffer calls itself empty exactly where that is zero |
| EventCounts.ProcessCounts | internal/service/service.go:296-317 | after ProcessEvent the count is the number of entries modulo 65536, less one exactly if a synced previous event was fetched that was not queued |
| DataStates.PartialsCombine | internal/ds/query/data_state_manager.go:34-51 | any partial events for a queued one never panic, count nothing and leave a single overlay of their combination |
| DataStates.ReplayChangesNothing | internal/ds/query/data_state_manager.go:34-51 | adding the same partial events again changes nothing |
| EventPointers.UpdateStruct | common/utils/helper.go:114-141 | every field takes the source's value unless that is zero, the flags too unless one is shared across; what both flags read afterwards for any sharing of the four pointers; pointers that were not nil stay and are written through |
| EventPointers.PointerDataStates.AddEvent | internal/ds/query/data_state_manager.go:34-51 | a first add shares the caller's pointers; an update keeps the queued event's pointers, writes through no others, and reads as the overlay of the values before the call unless its Synced is the queued IsValid or the queued flags are one |
| EventProcessing.ProcessEvent | internal/service/service.go:95-569 | the step-by-step decisions and the queued writes are those of the staged function on values, for every event, store, peer answer and buffer |
| EventProcessing.ResolveEvent | internal/service/service.go:236-569 | the same for the part after the payload's signature is checked |
| EventProcessing.AuthorizeEvent | internal/service/service.go:338-459 | the same for the search and check of the grant |
| EventProcessing.ConcludeEvent | internal/service/service.go:461-569 | the same for recency, bad events and the result |
| EventHandling.CommitCurrent | internal/ds/query/data_state_manager.go:98-119 | commits every queued entity in any order, and fails exactly when a queued state is a pointer, a first state has neither an id nor a signature to derive one from, or a subnet is updated that has no default privilege before or after it |
| EventHandling.CommitEvents | internal/ds/query/data_state_manager.go:131-140 | stores every queued event, and fails exactly when one has no signature to take its id from |
| EventHandling.NodeStores.CommitStates | internal/ds/query/data_state_manager.go:73-165 | the stores afterwards: all that was queued, nothing when a state fails, an update without a default privilege among them, and the historic states alone when an event fails |
| EventHandling.NodeStores.HandleNewPubSubEvent | internal/service/subnet.go:142-315 | the handler of a subnet or topic event leaves the stores and the error of the function on values, through every early return, panic and the deferred commit |
| EventHandling.NodeStores.HandleQueued | internal/service/topic.go:89-208 | what is queued when the deferred commit runs, and whether the handler is panicking then |
| EventHandling.NodeStores.ApplyEvent | internal/service/topic.go:180-206 | marks the event and queues its data as current or as historic state |
| EventRuns.AuthStagePasses | internal/service/service.go:338-459 | what holds when the grant stage lets an event pass |
| EventRuns.AcceptedEventIsAuthorized | internal/service/service.go:206-459 | a remote event that passes with an agent required was signed by the agent under a named, older, verified grant of at least member privilege, which is newer than the local one and queued as current, or queued as history with both times within the local authorization's |
| EventRuns.ProcessQueuesPointers | internal/service/service.go:95-569 | ProcessEvent queues no current state except grants through pointers |
| EventRuns.OnlyAcceptedEventsChangeStates | internal/service/subnet.go:246-290 | a handler changes entity states only without a panic and by the event's own data at its own id, after ProcessEvent accepted it as recent and its data were valid |
| EventRuns.AcceptedIsApplied | internal/service/subnet.go:259-290 | and then it does if its data can be committed; otherwise the commit panics and nothing is stored, not even the event |
| EventRuns.AppliedIsStorable | internal/ds/query/subnet.go:31-107 | data are committed only if a first state has an id or a signature to derive one from, and an updated subnet a default privilege on both sides |
| EventRuns.StatesChangeIff | internal/service/subnet.go:246-290 | a handler changes entity states if and only if ProcessEvent accepts the event as recent and queues no state, its data are valid, every queued event is signed, the data can be committed, and they differ from what is stored |
| EventConditions.GrantIff | internal/service/service.go:338-459 | the grant stage lets an event pass without a pointer and hands its privilege on if and only if the grant is stored and synced, older, verified, sufficient, superseded by the local authorization and not before the event |
| EventConditions.AcceptedIff | internal/service/service.go:95-569 | ProcessEvent accepts a remote event, as recent or as older, exactly when it is judged so on what was sent, stored and answered; what it queued then is signed exactly when the fetched previous event is or becomes so with the grant, and the event is queued as it came unless a fetched one has its id |
| EventConditions.RecencyIff | internal/service/service.go:474-506 | an event is taken as recent if there is no local state, or it follows it directly, or it is more recent than the event of the state and its stored previous event is not older than that; as older if it is not more recent |
| EventConditions.AdmissionIff | internal/service/service.go:142-236 | the checks on the event, its subnet and its agent pass exactly when they hold, and leave the event queued, with that of its subnet if it is fetched |
| EventConditions.HistoricsElsewhere | internal/service/service.go:296-317 | fetched states are queued at the path of the previous event alone, the last of them for good |
| EventEffects.TopicChangesIff | internal/service/topic.go:101-206 | a remote topic event with an id changes a state if and only if it is signed, valid, encodes, is within its time, is signed by its agent, has its subnet and its previous event, is granted as above, is admitted by the local grant's own event, compares as recent and not stale to a state that is looked up only by the id in its data, and its data are valid, can be committed and differ; the new state is its data, and no other state changes |
| EventEffects.SubnetChangesIff | internal/service/subnet.go:142-315 | a remote subnet event with an id changes a state if and only if it is signed, valid, encodes, is signed by its agent if one is named, has its subnet and its previous event, names no grant and compares as recent and not stale or names a blank grant, and its data are valid, can be committed and differ; the new state is its data, and no other state changes |
| EventEffects.LocalChangesIff | internal/service/service.go:106-140 | an event of the node itself changes a state if and only if it is signed, the local state can be read, the grant it names, if any, can be synced, and its data can be committed and differ: nothing is compared |
| EventEffects.RecentIsApplied | internal/service/subnet.go:246-290 | an event that passes as recent leaves its data as state, itself as it came but marked valid and synced, the last state fetched with its previous event as history, and no other history of its model; or its data cannot be committed and nothing is stored |
| EventEffects.OlderIsKept | internal/service/subnet.go:280-291 | an event that passes as older, with valid data, changes no state and leaves its data as history under their path, itself as it came but marked valid and synced, and no other history of its model but a fetched one |
| EventEffects.InvalidIsMarked | internal/service/subnet.go:257-263 | an event that passes with invalid data changes no state and no history of its own, and is stored as it came with the error |
| EventEffects.RefusedIsStored | internal/service/service.go:142-262 | a remote event that is not admitted, or whose local authorizations cannot be read or forbid it, fails, changes no state and no history, and is stored as it came |
| EventEffects.HistoryChanges | internal/service/topic.go:180-206 | at the paths of the model a remote event changes history only by its own data, when it is judged older than the local state and its data are valid, or by the last state fetched with its previous event |
| EventRuns.TopicChangesUnderSupersededGrant | internal/service/topic.go:169-202 | a remote topic event changes a topic only under a stored, synced grant that the local authorization supersedes |
| EventEffects.SupersededGrantChangesTopic | internal/service/topic.go:101-206 | for a topic event whose data carry no id the local state is not among these conditions: its data are the state at the derived id, whatever was stored there |
| EventConditions.NamedGrantQueuesPointer | internal/service/service.go:338-459 | without an agent a named grant that has an id is queued as a pointer, or the event fails; one without an id ends ProcessEvent without a verdict on the event |
| StateProgress.RecentIsNewer | internal/service/service.go:481-506 | an accepted recent event builds on the local state's event or is newer than it, unless it is a subnet event that names a grant without an id |
| StateProgress.UngrantedIsApplied | internal/service/subnet.go:246-290 | a well-formed subnet event without a grant that compares as recent and not stale is applied, or its commit panics and stores nothing: exactly when it updates a subnet without a default privilege on both sides |
| StateProgress.BlankStateIsReplaced | internal/service/subnet.go:201-209 | a state left without an id is so replaced by any such event, whatever its time |
| StateProgress.BlankGrantIsApplied | internal/service/service.go:374-457 | a subnet event that names a grant without an id is so applied whatever its time |
| StateProgress.BlankUpdateFails | internal/service/subnet.go:165-170 | a subnet update with a privilege and without a data id can be stored without one |
| StateProgress.BlankGrantFails | internal/service/service.go:374-457 | a grant without an id can let an event with a privilege roll a state back |
| StateProgress.BlankTopicFails | internal/service/topic.go:101-112 | a topic event without a data id can roll a state back |
| StateProgress.KeptIffNotRisky | internal/service/service.go:481-506 | for every event some node may accept, and for every combination of a stored path and a grant without an id: all consistent nodes and answers keep their states consistent and moving forward if and only if the event is none of those three kinds; a subnet update without a privilege, which is never stored, is none |
| StateProgress.HandleAgrees | internal/service/subnet.go:142-315 | handling keeps the stored events in agreement with the events that were sent, also when it panics |
| StateProgress.StepProgresses | internal/service/subnet.go:259-290 | a delivery of none of those kinds leaves every current state or replaces it by one of a later event, also when it panics |
| StateProgress.RunProgresses | internal/service/topic.go:180-206 | over any run of such deliveries to both handlers, panics and restarts included, every current state only moves forward in (timestamp, hash) |
| OrderIndependence.DeliverHonest | internal/service/subnet.go:246-290 | one honest delivery marks the event bad, otherwise as it came, and changes no state if the state lies between it and its previous event; stores nothing if it updates a subnet without a privilege on both sides; and otherwise stores the event as it came but marked valid, and its data as the state if it is the latest and as history if not; with an id in an update the node then is up to date |
| OrderIndependence.ChainSettles | internal/service/service.go:474-506 | with no events in between and complete updates, every honest delivery order, with repetitions, ends with the data of the latest delivered event as state and no event bad |
| OrderIndependence.EveryDeliveryIsKept | internal/service/subnet.go:246-291 | and every delivery of such a run leaves its event as it came, and its data as the state or as history |
| OrderIndependence.InterloperUnsettles | internal/service/service.go:496-500 | an event in between gives a delivery order that does not |
| OrderIndependence.IncompleteUnsettles | internal/ds/query/subnet.go:99-118 | so does an update, after an older event, whose data carry no id, or one of whose two sides has no privilege |
| OrderIndependence.OrderIndependentIff | internal/service/service.go:474-506 | every honest run, in any order and with repetitions, ends with the data of its latest delivered event as state and no event bad, if and only if no event lies in (timestamp, hash) between another and its previous event and is seen so by the code's comparison with that event's id, the data of all but the oldest event carry an id, and those of several events all carry a default privilege |
| OrderIndependence.LinearChainIsChainInTime | internal/service/service.go:278-335 | a linear chain of previous events with increasing times is such a family |
| OrderIndependence.CreationReturns | internal/service/subnet.go:165-209 | where an update carries no id the order of time does not suffice: creation, update and creation once more leave the creation as state |
| OrderIndependence.BlankChainReorders | internal/service/subnet.go:165-209 | a linear chain of two events with increasing times on which that happens |
| HashChain.ChainBinds | entities/reward.go:62-84 | two different row lists with the same chained hash, of any lengths, give two different strings with one hash |
| RewardBatches.ToUint256 | common/utils/helper.go:230-232 | 32 bytes of the absolute value, failing exactly when it needs more |
| RewardBatches.RewardBatch.Append | entities/reward.go:62-84 | panics exactly when a number does not fit, and otherwise leaves the batch with one more row: its cost, the total grown by the signed cost, and the hash of the last hash, six bytes of the subnet and the cost |
| RewardBatches.CostIsExact | entities/reward.go:66-67 | a row's cost is count times message cost if and only if the count is at most 2⁶³ or the cost is zero, and never more |
| RewardBatches.TotalIsConserved | entities/reward.go:66-75 | the accumulated total is the message cost times the events if and only if the cost is zero or every count is below 2⁶³, save for one of 2⁶³ before any other event; it is never more |
| RewardBatches.CostsAreConserved | entities/reward.go:66-68 | the rows' costs add up to that if and only if the cost is zero or no count exceeds 2⁶³ |
| RewardBatches.AppendFits | entities/reward.go:66-75 | appending any count panics if and only if its cost or the new total needs more than 256 bits |
| RewardBatches.AppendHolds | entities/reward.go:62-84 | after appending any count, rows, costs, chained hash, total, boundary and closing are those of the longer list |
| RewardBatches.InRangeFits | entities/reward.go:62-84 | a hundred counts below 2⁶³ at a cost below 2¹⁸⁶ never overflow and conserve their value |
| RewardBatches.GenerateBatch | pkg/node/reward.go:126-160 | a page of one to a hundred rows gives a closed batch of all its rows with first and last as boundary; it panics exactly when a cost or a running total needs more than 256 bits, and the other failures are told apart exactly |
| RewardBatches.RowIsInjective | entities/reward.go:23-29 | a row encodes to 38 bytes, and two encodings are equal exactly when subnet prefix and cost are |
| RewardBatches.DataHashBinds | entities/reward.go:62-84 | two non-empty batches with one DataHash and different prefixes or costs give a hash collision |
| RewardTracking.PagesAreContiguous | pkg/node/reward.go:134 | the pages from index 1 are contiguous and disjoint: together they are the rows from the hundred-and-first on |
| RewardTracking.BatchesHoldTheRest | pkg/node/reward.go:84-102 | the batches of a cycle cover exactly those rows, each once |
| RewardTracking.NumberRoundTrip | common/encoder/encoder.go:46-54 | the recorded cycle is read back as it was written |
| RewardTracking.ClaimedRewardStore.TrackReward | pkg/node/reward.go:32-104 | every cycle after the recorded one and before the current one is visited once and in order, its batches stored, and the record ends at the last of them; a page that overflows panics in the cycle after the record, with its earlier pages stored |
| RewardTracking.ClaimedRewardStore.VisitCycle | pkg/node/reward.go:81-104 | the visit of a cycle stores its batches and records it, unless a page overflows |
| RewardTracking.ClaimedRewardStore.BatchCycle | pkg/node/reward.go:83-102 | the loop over the indices ends and stores the batches of all pages up to the first empty one, none when the cost cannot be read, and those before a page that overflows |
| SentryRound.LcgIsExact | common/utils/helper.go:237-245 | the wrap at 64 bits does not change the result modulo 2³² |
| SentryRound.LcgInverse | common/utils/helper.go:237-245 | multiplying by 4276115653 undoes the generator modulo 2³² |
| SentryRound.LcgIsInjective | common/utils/helper.go:237-245 | equal results come from seeds that are equal modulo 2³² |
| SentryRound.ProbesAreDistinct | pkg/node/reward.go:176-198 | the probes of a round draw different numbers |
| SentryRound.LicencesAgreeIff | pkg/node/reward.go:197-199 | two probes ask for the same licence if and only if the number of licences divides the difference of their draws |
| SentryRound.LicencesAreDistinct | pkg/node/reward.go:197-199 | with 2³² licences or more they ask for different licences |
| SentryRound.LicencesMayRepeat | pkg/node/reward.go:197-199 | with six licences, of which a round needs two, and salt 6 the first two probes ask for the same one |
| SentryRound.Licence | pkg/node/reward.go:197-199 | the licence of a probe is the generator's number for 1000 and the multiple of the salt, modulo the number of licences, from 1000 on |
| SentryRound.CollectCommitments | pkg/node/reward.go:197-260 | the operators found are the first in probing order that are others than this node, commit and have a key that parses, and the three lists hold their names, keys and nonce keys |
| SentryRound.CommittedIff | pkg/node/reward.go:197-258 | exactly the operators of the probed licences that are others than this node, commit with a nonce key and have a key that parses |
| SentryRound.RepeatedLicence | pkg/node/reward.go:197-260 | a licence that is probed twice puts its committing operator into the list twice |
| SentryRound.RepeatedProbesCollapse | pkg/node/reward.go:197-271 | when the first two probes ask for one licence and its operator commits, every round of two operators or more aggregates keys and nonce keys to (0, 0) |
| SentryRound.CollectSignatures | pkg/node/reward.go:280-294 | as many signatures as operators exactly when all of them sign |
| SentryRound.RequestSignatures | pkg/node/reward.go:260-350 | panics if the hash of the aggregated nonce key has a zero thirteenth byte, and otherwise claims the batch exactly when every operator signs the hash of key, message and commitment modulo n, with their keys, the commitment and the sum of their signatures in the dropped proof |
| SentryRound.ProcessSentryRewardBatch | pkg/node/reward.go:162-361 | at most twice the needed number of probes with the batch hash modulo 1000, plus one, as salt; nothing is claimed unless enough operators commit, and then the round ends as the signing phase of the first of them: a panic, nothing, or a claim signed by 30 operators, by a third of fewer than 120 licences, or by all but one of fewer than 3 |
| SentryRound.HonestRoundClaims | pkg/node/reward.go:260-350 | honest signers claim unless the parameters panic, and the dropped proof aggregates all their signatures |
| SentryRound.HonestRoundVerifies | pkg/node/reward.go:266-319 | that aggregate verifies under the round's own challenge against the two aggregated keys |
| StatsKeys.PaddedIsInjective | entities/block_stat.go:28-43 | padded numbers are equal only for equal numbers, also beyond fifteen digits |
| StatsKeys.PaddedDenotes | entities/block_stat.go:28-43 | a padded number, of fifteen digits or more, denotes the number |
| StatsKeys.PaddedIsNoModel | entities/block_stat.go:32-36 | a padded number is never a model's name |
| StatsKeys.CleanModels | entities/block_stat.go:31-35 | a per-model key is stored under the model's name, and without a model as the total's or the block's key |
| StatsKeys.RecentIsNoCounter | internal/ds/query/stats.go:29-35 | no counter is stored under a recent-event key |
| StatsStore.AddsCommute | internal/ds/query/event.go:207-238 | two increments of any keys commute |
| StatsStore.AddLast | pkg/node/node.go:204-208 | any key of a flush order can be flushed last |
| StatsStore.FlushIsAddEach | pkg/node/node.go:204-208 | flushing the tallies in any order leaves what counting key by key leaves |
| StatsStore.CountAllSplits | internal/ds/query/stats.go:18-57 | counting events one by one is counting all their keys and then putting the last event of each cycle |
| StatsStore.WindowRefinesSequence | pkg/node/node.go:167-222 | a window flushed in any order of keys leaves the store that counting its events one at a time leaves, recent events included |
| StatsStore.WindowBound | pkg/node/node.go:176-198 | no tally of a window exceeds its number of events, so the 64-bit tallies of fewer than 2⁶⁴ events do not wrap |
| StatsStore.CountAllConcat | internal/ds/query/stats.go:18-57 | counting two runs one after the other is counting their concatenation |
| StatsStore.TallyWindow | pkg/node/node.go:169-196 | the two maps of a window are the tallies of its keys and the last event of each cycle |
| StatsStore.NetworkStatsStore.IncrementCounterByKey | internal/ds/query/event.go:207-238 | the number under the cleaned key grows by the delta, and nothing else changes |
| StatsStore.NetworkStatsStore.IncrementCounters | internal/ds/query/event.go:241-277 | each of the three network counters grows by one |
| StatsStore.NetworkStatsStore.IncrementStats | internal/ds/query/stats.go:18-57 | each of the six statistics counters grows by one, and the cycle's recent event is the event |
| StatsStore.NetworkStatsStore.CountWindow | pkg/node/node.go:167-222 | a window leaves what counting its events one by one leaves |
| StatsStore.NetworkStatsStore.CountWindows | pkg/node/node.go:160-224 | so does any cut of the events into windows |
| StatsQueries.CounterIsNumber | entities/block_stat.go:28-43 | from an empty store each counter, of the network, a subnet, a model, a block, an epoch, a cycle, a validator in a cycle and a cycle's events without a subnet, holds under its literal key the number of events it is meant for, the total and the blocks those without a model twice |
| StatsQueries.RefinementConserves | entities/block_stat.go:28-43 | counters that share the events of another counter among them add up to it |
| StatsQueries.Conservation | entities/block_stat.go:28-43 | the network, epoch and cycle families hold the number of events, the total and the block family that and the events without a model, the model family that less them |
| StatsQueries.BlockConservation | entities/block_stat.go:33-35 | a block's counter is the sum of its models' counters and twice its events without a model |
| StatsQueries.ValidatorConservation | internal/ds/query/event.go:241-277 | the counters of a cycle's validators add up to the cycle's counter |
| StatsQueries.SubnetConservation | internal/ds/query/event.go:249-257 | the counters of the subnets, and those of the cycles' events without one, add up to the network's |
| StatsQueries.ConservedExactly | entities/event.go:571-594 | the families agree if and only if every event has a type below 1500 |
| StatsQueries.RecentIsLast | internal/ds/query/stats.go:66-73 | the recent event of a cycle is the last one counted in it |
| StatsQueries.GetStats | internal/ds/query/stats.go:74-104 | reads the stored key of the block and model, block, cycle or epoch, in this order of precedence, to 64 bits; fails exactly when no field is given |
| StatsQueries.AnswersCount | internal/ds/query/stats.go:74-104 | what a query reads is the number of events meant and a surplus of those without a model |
| StatsQueries.AnswersAreExact | internal/ds/query/stats.go:74-104 | it is the number of events meant if and only if no event without a model is in the way, and for a model alone if and only if that number is zero |
| AuthorizationIndex.StateStore.CreateAuthorizationState | internal/ds/query/authorization.go:74-190 | fails without change exactly when a field is missing, and panics without change exactly when only the timestamp is; otherwise counts a new prefix, clears both prefixes and puts the state under its event, and the event under the account, the agent, the id and another grantor |
| AuthorizationIndex.StateStore.GetAccountAuthorizations | internal/ds/query/authorization.go:27-72 | the states of the entries below the prefix that can be read, all of them when the limit admits |
| AuthorizationIndex.CreateHoldsAt | internal/ds/query/authorization.go:94-140 | what any creation changes among the entries of any triple, key by key |
| AuthorizationIndex.IndexAfterRun | internal/ds/query/authorization.go:74-190 | after any run the entries of a triple are one for its latest grant for all topics or in the opposite direction, and one for each list of topics granted since |
| AuthorizationIndex.EveryVersionStays | internal/ds/query/authorization.go:275-287 | every authorization of a run stays readable under its event |
| AuthorizationIndex.FoundAfterRun | internal/ds/query/authorization.go:27-72 | a query for the triple finds exactly those authorizations |
| AuthorizationIndex.FoundForTopics | internal/ds/query/authorization.go:27-72 | and one for particular topics the one granted for them |
| AuthorizationIndex.IdNamesLatest | entities/authorization.go:133-140 | the id key names the event of the latest authorization that stored its event under it |
| AuthorizationIndex.IdKeysApart | entities/authorization.go:96-140 | id keys are equal exactly for the same account, subnet, agent and list of topics, when these hold no colon |
| AuthorizationIndex.ColonsMayCollide | entities/authorization.go:133-140 | with colons in them different ones may share an id key |
| AuthorizationIndex.AgentsAfterRun | internal/ds/query/authorization.go:104-124 | the agent counter is the number of authorizations that found nothing below their own prefix |
| AuthorizationIndex.OpeningsBalance | internal/ds/query/authorization.go:104-124 | for any run these and the authorizations lost to an opposite triple are as many as the distinct triples and the surplus authorizations, which are for topics of a known triple that the index does not hold; without opposite triples none are lost |
| AuthorizationIndex.AgentsAreTriplesIff | internal/ds/query/authorization.go:104-124 | so after any run the counter is the number of distinct triples if and only if as many authorizations are surplus as are lost |
| AuthorizationIndex.QueriesAgreeIff | internal/ds/query/authorization.go:27-190 | for any run, every query finds the latest grant alone if and only if no two triples grant in opposite directions and each triple's latest grant is for all topics or like all its others |
| AuthorizationIndex.AgreesIff | internal/ds/query/authorization.go:27-190 | for any run, queries and counter both agree with the map from triple to latest authorization if and only if no two triples are opposite, each triple's latest grant is for all topics or like all its others, and no authorization is surplus |
| AuthorizationIndex.AgreesIffNoSwaps | internal/ds/query/authorization.go:74-190 | with grants for all topics that comes down to opposite triples, for the queries and for the counter alike |
| AuthorizationIndex.UngrantedIffOppositeUngranted | internal/ds/query/authorization.go:27-72 | a query for what was never granted is empty if and only if the opposite was never granted |
| AuthorizationIndex.DisjointAccountsAgree | entities/authorization.go:96-116 | when no account is an agent the index is the map for a triple if and only if its latest grant is for all topics or like all its others |
| AuthorizationIndex.TopicsDoNotReplace | entities/authorization.go:103-106 | after a grant for particular topics a query for the triple finds it and the one for all topics |
| SubnetIndex.StateStore.GetSubnetStateById | internal/ds/query/query.go:65-100 | follows the id to the event and the event to the state |
| SubnetIndex.StateStore.RefExists | internal/ds/query/query.go:231-248 | true exactly when the reference's key holds something |
| SubnetIndex.StateStore.CreateSubnetState | internal/ds/query/subnet.go:31-80 | puts the state with its id filled in under its event, the event under the id, and the id under the account, the reference and the archive; fails exactly without an id and a signature |
| SubnetIndex.StateStore.UpdateSubnetState | internal/ds/query/subnet.go:82-141 | puts the new state under its event and the event under the id of the known one, and moves the reference; panics without change exactly when the known state or the new one has no default privilege, creates an unknown one if asked to, and otherwise fails without change |
| SubnetIndex.LatestById | internal/ds/query/subnet.go:15-27 | after any run of creations and updates, under whatever ids and of states with or without an id in them, the id leads to the latest state that was put where it belongs: an update goes to the id of the state it found |
| SubnetIndex.OwnIdsKept | internal/ds/query/subnet.go:115-118 | with updates under the states' own ids every state is found under its own id |
| SubnetIndex.NextUpdateReaches | internal/ds/query/subnet.go:115-118 | after an update under some id the next one under it is found if and only if the first carried that id and each side has a privilege; without one on either side the update stores nothing |
| SubnetIndex.EveryVersionStays | internal/ds/query/subnet.go:110-113 | every state that was stored stays readable under its event |
| SubnetIndex.StaysListed | entities/subnet.go:76-91 | a created subnet stays listed by its id under its own account |
| SubnetIndex.StepKeepsRefs | internal/ds/query/subnet.go:120-129 | any operation keeps the references right if and only if it deletes none that another subnet has, and that of the state it replaces if nobody else has it |
| SubnetIndex.RefsAgreeIffFreed | internal/ds/query/query.go:231-248 | RefExists tells the references of the current subnets after every step of a run if and only if every step does |
| SubnetIndex.RefExistsForCurrent | internal/ds/query/query.go:231-248 | with ids created once, updates under the states' own ids and new references unused it is true exactly for the references of current subnets |

## Left out

- RewardBatches.GenerateBatch: requires a page of at most a hundred rows, the limit of its query.
- RewardTracking.ClaimedRewardStore.TrackReward: the goroutines that process the stored batches are not part of the visit.
- AuthorizationIndex.StateStore.CreateAuthorizationState: strings.EqualFold on keys is equality, which makes no difference for keys that begin with different constants. Creation without a transaction, where deletions and puts commit separately, is not modelled.
- SubnetIndex.LatestById: no two operations of a run store their states under one event id.
- StateProgress.RunProgresses: remote events that are each later than the event they name; a local event is always taken as more recent.
- StateProgress.KeptIffNotRisky: the direction that a risky event may fail is stated for events that pass a node's own checks, with a time above zero.
- OrderIndependence.OrderIndependentIff: one subnet's remote, valid events that name no grant (NamedGrantQueuesPointer shows that the others are not applied); no two share both time and hash. The topic handler's runs are covered by RunProgresses.
- EventPointers.PointerDataStates.AddEvent: when flags are shared across two events, what they read is stated for UpdateStruct.
- EventHandling.NodeStores.HandleNewPubSubEvent: the handlers of authorizations, subscriptions and messages follow the same shape and are not modelled; the follow-up goroutines are not either. A topic's reference, whose clash makes the commit fail, is not modelled.
- EventProcessing.ProcessEvent: the states of a fetched subnet are queued only when decoding them failed; with decodable states nothing is queued, which is what is modelled.
- Event block keys, which embed the current time, and the archives built on them.
- The package-level AddAffinePoint, which nothing calls and whose formula differs from the method's.
- Doubling and the addition of points with equal x: the code has no branch for them.
- Keccak-256, SHA-256, ECDSA, Ed25519 and the arithmetic inside btcec.
- EventProcessor, its timers and channels; websocket clients and WsClientLog; REST, QUIC, the command line, key stores and chain calls.
