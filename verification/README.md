# A verified model of the control plane's core

The control plane administers Hyperledger Fabric channels: it computes and submits channel
configuration updates, drives chaincode definitions through their lifecycle, and keeps the
connections it needs. This project models the parts where state, branching or interleaving make the
code hard to judge by reading, and proves what they guarantee. `dafny verify dfyconfig.toml` checks
all of it.

**Configuration updates** (`ConfigTree`, `ConfigUpdate`, `ConfigApply`, `ConfigDelta`, `ConfigMerge`,
`ConfigConcurrent`). `ConfigUpdate.Compute` and the methods below it are the range loops of
`pkg/util/update.go`; any iteration order is allowed. They are proved equal to `ReadOf` and `WriteOf`.
What a pair of sets *means* is defined independently of how it is computed: `ConfigApply.Apply` and
`ConfigApply.Accepts` follow the rules of the channel (an element at one version in both sets stands for
the current content, a bumped group has exactly the listed members, a delta must be one version ahead
or new at zero, a read must match). Against these the sets are shown to round-trip, to be minimal, and
to read all that they rely on. Two updates of one original are then followed through both orders:
when the second is accepted, what the pair leads to (a three-way merge, versions included), and whose
changes survive.

That no accepted update ever wipes out an earlier one turns out to be false: an entry that one side
alters and the other removes is lost when the removal comes second, because the removal reads the
version of the group and not that of the entry (`LostUpdateExists`). `LostUpdateIff` says exactly which
pairs lose an update, `NoLostUpdateIff` exactly when an accepted pair keeps all that the first changed
(entries, new groups, modification policies and removals), and `ConflictRejected` which conflicts are always caught.

**Anchor peers** (`AnchorPeers`, `AnchorUpdate`). The nested loop that removes matched peers from a slice
in place, as multiset arithmetic with an order; and the whole operation, up to the exact delta that
reaches the channel.

**Consenter identifiers** (`Consenters`). The allocator remembers an old identifier only if it
exceeds all earlier ones. Identifiers are unique all the same; which ones survive is stated exactly,
and running the allocator on its own output converges.

**Submit and confirm** (`Quorum`, `Broadcast`, `Delivery`, `Submit`). The broadcast workers and their caller,
the receive loop on a block stream, and the whole update with one goroutine per peer, as state machines
whose every interleaving is a run. The comment on `OrdererBroadcast` speaks of waiting for a quorum;
the code returns nil after a single success once all orderers have answered, and the model follows
the code.

**Chaincode lifecycle** (`Lifecycle`, `LifecycleRuns`, `LifecycleRounds`, `LifecycleDisorder`). Many organisations call
`LifecycleFull` against a ledger that stores what it is told. Three partial tests decide each call: one ignores
the policy, one ignores the sequence, one trusts the last approval. `Lifecycle.Inv` is the invariant that makes them
sound together: a last approval at the committed sequence is the committed definition itself. `Lifecycle` has one
call at a time, with every operation free to fail. In `LifecycleRuns` each of the five ledger operations of a call is a
step of its own, and the calls overlap in any way.

The code puts nothing around its operations, so a run can lose its order: by an approval at a sequence that has been
committed meanwhile (`StaleReadStalls`), or by a commit after another call has replaced an approval
(`LateCommitIsUnapproved`). Both are relative to the ledger of the model, which has no checks of sequences or of
approvals of its own; a real ledger may refuse such an operation, which then is a call that fails. `RunOrderlyIff` says
exactly which runs keep their order: those in which no approval and no commit is disturbed by what others committed
or approved since the query or the check before it. Calls whose two phases are not interrupted never are
(`AtomicCommitIsApproved`).

What a round of calls for a new definition leads to, in any interleaving, is determined by the state it starts from,
whether order has been kept or not (`OutcomeOfRound`): each organisation aims at the sequence of its last approval, if that
is of this definition, and otherwise at the one computed for it. The definition is committed where all aim, if all aim
at one sequence other than the committed one; and otherwise nothing is committed. While order is kept all aim at the
next sequence, so that every round succeeds (`ProgressFromAnyRun`).

**Connection pool** (`ConnPool`). `Get` and `Close` with their double-checked locking, for any number of
threads between lock operations, refine an atomic get-or-dial: one operation per call, with the
connection that the caller gets as its result.

## Model

| member | source | states |
|---|---|---|
| ConfigUpdate.ComputeEntriesMapUpdate | pkg/util/update.go:18-106 | policies and values: the write set holds exactly new entries at version 0 and altered ones at the next version with the updated content; the same-set exactly the unchanged ones, without content; membership is reported changed iff the names differ; in any iteration order |
| ConfigUpdate.ComputeGroupsMapUpdate | pkg/util/update.go:108-150 | the same for subgroups, with the computed sets of each altered group and the whole content at version zero of each new one |
| ConfigUpdate.Retain | pkg/util/update.go:186-199 | both sets get every unchanged member, and nothing else changes in them |
| ConfigUpdate.ComputeGroupUpdate | pkg/util/update.go:152-213 | "changed" iff the two trees differ in something other than versions, at any depth; the two sets are the specified ones |
| ConfigUpdate.Compute | pkg/util/update.go:217-234 | the three errors exactly when they apply: a missing original, else a missing update, else two trees of the same content; otherwise the specified sets |
| ConfigUpdate.SameContentSets | pkg/util/update.go:158-171 | for trees of the same content both sets are the bare group at the original version |
| ConfigUpdate.UnchangedIffNothingWritten | pkg/util/update.go:158-171 | "unchanged" (same membership, same policy, six empty sets) holds iff the trees have the same content at every depth |
| ConfigUpdate.WriteFromEmpty | pkg/util/update.go:133-147 | comparing with the empty group and resetting the root yields the new subtree's whole content with every version zero |
| ConfigUpdate.UpdatedVersionsIrrelevant | service/plane/config_ordering_add.go:96 | no version in the updated tree influences either set, so an additional version increment has no effect |
| ConfigApply.RoundTrip | pkg/util/update.go:108-213 | applying the computed sets to the original gives a tree equal to the updated one in every modification policy, policy, value and member name at every depth |
| ConfigTree.SameContentMeans | pkg/util/update.go:33-78 | "the same content" means: at every path both trees have a group or neither has, with the same modification policy and the same named policies and values, each with the same modification policy and body |
| ConfigDelta.RoundTripAt | pkg/util/update.go:108-213 | the round trip in these terms, path by path |
| ConfigApply.ApplyGivesStamp | pkg/util/update.go:152-213 | and each element's version is kept where it did not change, one ahead where it did, zero where it is new |
| ConfigApply.StampOfSame | pkg/util/update.go:158-171 | an update that changes nothing keeps every version |
| ConfigApply.OwnReadsMatch | pkg/util/update.go:33-38 | every element of the read set is in the original at the version read |
| ConfigApply.OwnDeltasFit | pkg/util/update.go:40-58 | every delta of the write set is one version ahead of the original, or new and at version zero |
| ConfigApply.AcceptsOwnUpdate | pkg/util/update.go:217-234 | the computed update is acceptable to the tree it was computed from |
| ConfigDelta.SiteKinds | pkg/util/update.go:108-150 | every path is in both sets, or a new group's content in the write set alone, or in neither and then unchanged or removed |
| ConfigDelta.MinimalGroups | pkg/util/update.go:158-212 | a group is a delta at a path iff it is new there or its own names or policy changed; then it is one version ahead (zero if new) and lists exactly the updated members |
| ConfigDelta.MinimalEntries | pkg/util/update.go:33-58 | at every path the policy and value deltas are exactly the new and the altered entries, at the right version, with the updated content |
| ConfigDelta.AlteredMeans | pkg/util/update.go:33-58 | an entry is altered iff it is new or its modification policy or its body differs; it is written with the updated policy and body, one version ahead or at zero |
| ConfigDelta.BumpedListsMembers | pkg/util/update.go:186-212 | a group whose version is bumped lists exactly the updated member names and carries the updated policy |
| ConfigDelta.ReadsAreSound | pkg/util/update.go:123-130 | whatever is read sits at the same path of the original at the same version, without content, and is named by the write set too |
| ConfigDelta.AncestorsAreRead | pkg/util/update.go:186-212 | every pre-existing group on the way to something written is in the read set |
| ConfigMerge.AcceptedAfterIff | pkg/util/update.go:152-213 | a second update is accepted after a first one iff the first changed nothing, or kept the shape of each group and each entry that the second relies on |
| ConfigMerge.SequenceGivesMerge | pkg/util/update.go:152-213 | an accepted pair of updates leads to the stamped three-way merge of their targets |
| ConfigMerge.MergeFirstUnchanged | pkg/util/update.go:152-213 | the merge is the second side where the first changed nothing |
| ConfigMerge.MergeSecondUnchanged | pkg/util/update.go:152-213 | the merge is the first side where the second changed nothing |
| ConfigMerge.StampCongruent | pkg/util/update.go:152-213 | the resulting tree depends on the content of the target only |
| ConfigConcurrent.EitherOrderAcceptedIff | pkg/util/update.go:152-213 | two real changes are each accepted after the other iff they are independent |
| ConfigConcurrent.Commute | pkg/util/update.go:152-213 | two updates that are each accepted after the other give one and the same tree in either order, which is also that of the single update to their merge |
| ConfigConcurrent.ConflictRejected | pkg/util/update.go:152-213 | if both alter or add one policy or value, or the first reshapes a group that the second reads, the second is never accepted after the first |
| ConfigConcurrent.NoLostUpdateIff | pkg/util/update.go:152-213 | in what an accepted pair leads to, all that the second changed is as it left it: altered and new entries, new groups, and the modification policy and exact member names of every group it reshaped, so that what it removed is gone; and all that the first changed is so too iff the second removed none of it |
| ConfigConcurrent.SurvivesInOriginalIff | pkg/util/update.go:152-171 | the notion of survival is tight: an update survives in the untouched original iff it changed nothing at any depth |
| ConfigConcurrent.LostUpdateIff | pkg/util/update.go:152-213 | an update is lost to an accepted second one, and in the other order rejected, iff the second can follow it and removes something that it changed |
| ConfigConcurrent.RemovalAfterAlteration | pkg/util/update.go:71-75 | an instance at the root: if one value that the first altered is gone in the second's tree, and so is every other value that the first altered, the removal is accepted and the alteration lost |
| ConfigConcurrent.LostUpdateExists | pkg/util/update.go:71-75 | a concrete pair of updates that does this |
| AnchorPeers.RemoveAt | service/plane/config_anchor_modify.go:89 | the tail of the slice moves down in place by one, nothing behind the slice changes |
| AnchorPeers.GetAnchorPeerModifyStats | service/plane/config_anchor_modify.go:81-98 | the nested loop computes the surplus of the request, the surplus of the current list and the matched peers, duplicates included, and leaves the request alone |
| AnchorPeers.SurplusAndMatched | service/plane/config_anchor_modify.go:81-98 | these are multiset difference and intersection, in list order |
| AnchorPeers.OneMoreCurrent | service/plane/config_anchor_modify.go:84-95 | one more current peer removes the first copy of itself from what is left of the request; it finds one iff the request has more copies than the current list so far |
| AnchorPeers.NothingLeftIffPermutation | service/plane/config_anchor_modify.go:53 | the early exit is taken iff the two lists are permutations of each other |
| AnchorUpdate.GetAnchorPeerConfig | pkg/util/config.go:185-208 | where all MSP values can be read and one group has the name: an empty list if it has no AnchorPeers value, the decoded list if it decodes, and the error iff it is there and does not; "not found" if none has the name; in general the list of some group of that name, and each error is justified by the configuration |
| AnchorUpdate.CreateAnchorPeerUpdate | service/plane/config_anchor_modify.go:100-145 | where one group has the name: "no differences" iff its recorded bytes are the requested ones, otherwise its update; "no differences" if none has the name; in general the update of some group of that name |
| AnchorUpdate.ConfigAnchorModify | service/plane/config_anchor_modify.go:43-79 | where one group has the name and its list can be read: the call succeeds, reports the three lists, and has an update for that group to submit iff the request is no permutation of the recorded list (none recorded is an empty one, so a first non-empty request is submitted whole); it fails on the list iff that cannot be read; "no differences" is never the answer when the name is unique |
| AnchorUpdate.FirstAnchors | service/plane/config_anchor_modify.go:81-98 | against an empty list the whole request is new, and an update is due unless it is empty |
| AnchorUpdate.AltersContent | service/plane/config_anchor_modify.go:120-141 | the edited configuration has the content of the old one iff the recorded bytes are the requested ones |
| AnchorUpdate.WithAnchorsAt | service/plane/config_anchor_modify.go:120-135 | the edit touches the organisation's own path and no other |
| AnchorUpdate.AnchorDelta | service/plane/config_anchor_modify.go:120-139 | the whole delta, path by path: the organisation's AnchorPeers value one version ahead, or, if it was absent, that value at version zero and the organisation's group |
| Consenters.CreateBftOrderers | service/plane/config_ordering_add.go:142-169 | the two loops compute the specified allocation |
| Consenters.AllocationMeans | service/plane/config_ordering_add.go:155-169 | every orderer in its place: a remembered one with the identifier remembered, the others with consecutive identifiers from one above the highest old one |
| Consenters.MaxIdIs | service/plane/config_ordering_add.go:147-152 | the identifier counted on from is the highest old one, or zero |
| Consenters.RecordsExactly | service/plane/config_ordering_add.go:147-152 | for any old list, an endpoint is remembered iff some entry of it is positive and above all earlier ones, with the highest such identifier |
| Consenters.RecordedIff | service/plane/config_ordering_add.go:147-152 | with distinct endpoints an old identifier is remembered iff it exceeds all earlier ones |
| Consenters.RecordsInjective | service/plane/config_ordering_add.go:147-152 | remembered identifiers are positive, at most the maximum, and differ for different endpoints |
| Consenters.IdsUniqueIff | service/plane/config_ordering_add.go:155-169 | the assigned identifiers are pairwise distinct iff no remembered endpoint is listed twice; so always for distinct endpoints, whatever the old metadata |
| Consenters.KeepsIdIff | service/plane/config_ordering_add.go:147-158 | a surviving endpoint keeps its identifier iff that exceeded all identifiers listed before it |
| Consenters.OrderKept | service/plane/config_ordering_add.go:147-169 | from positive increasing identifiers, dropping orderers and appending new ones keeps survivors as they are and the order increasing |
| Consenters.PassExtends | service/plane/config_ordering_add.go:142-171 | rerunning the allocator on its own output keeps the positive increasing prefix and lengthens it by at least one |
| Consenters.Converges | service/plane/config_ordering_add.go:142-171 | n passes reach a fixed point with positive increasing identifiers |
| Quorum.QuorumIsLeast | service/plane/lifecycle_full.go:358-362 | the quorum is the least q with 2q >= n + f + 1, and n - f orderers reach it |
| Quorum.QuorumsIntersect | service/plane/lifecycle_full.go:358-362 | two quorums share at least f + 1 orderers, so one that is not faulty |
| Broadcast.OrdererBroadcast | pkg/util/orderer.go:130-158 | for every arrival order and every quorum: nil iff some reply is a success (or there are none at all), otherwise the last error to arrive; and the result is the decision on the shortest prefix of replies that decides |
| Broadcast.DecisionMeaning | pkg/util/orderer.go:152-158 | nil means a success among the replies; an error means that all n were received and failed, and is the last of them |
| Broadcast.NilIffSomeSuccess | pkg/util/orderer.go:137-158 | for every arrival order of at least one reply and every quorum, the loop returns nil iff some orderer accepted, and otherwise the last error to arrive |
| Broadcast.ExitAtQuorum | pkg/util/orderer.go:145-149 | the early exit is exactly at the quorum-th success (the first, if the quorum is not positive), and all replies are received if there are fewer |
| Broadcast.SuccessesAreCounted | pkg/util/orderer.go:145 | the count is the number of successful replies |
| Broadcast.StepInv | pkg/util/orderer.go:103-150 | each step keeps every worker accounted for: running, in the buffer or received, with the caller where the received replies put it |
| Broadcast.NeverStuck | pkg/util/orderer.go:103-150 | in every interleaving no worker blocks, the caller never waits in vain, and there are at most 2n steps |
| Broadcast.ResultMeaning | pkg/util/orderer.go:103-158 | in every interleaving nil means that some orderer accepted, an error that all n failed |
| Delivery.GetTxValidationCode | pkg/delivery/peer.go:156-176 | the first event that is a status, an error or a block listing the transaction decides: the code of its first entry for the transaction, or -1 for a status or an error; while there is no such event the loop goes on |
| Delivery.VerdictMeans | pkg/delivery/peer.go:156-176 | the same of the verdict that the interleaved model uses |
| Delivery.VerdictIsReported | pkg/delivery/peer.go:163-174 | a verdict other than the error code was reported for that transaction in a block of the stream |
| Delivery.VerdictSnoc | pkg/delivery/peer.go:156-176 | a verdict is final, and before it each event is judged on its own |
| Submit.CheckCodes | pkg/delivery/peer.go:90-100 | success iff there is one code per peer and all are VALID |
| Submit.StepInv | pkg/delivery/peer.go:118-154 | each step of each party keeps the invariant that ties codes to streams, readiness to a sent seek request, and results to reports |
| Submit.GoodConclusion | pkg/delivery/peer.go:80-100 | the subscription concludes without error only if every peer reported the transaction valid |
| Submit.SubscribedBeforeBroadcast | service/plane/config_anchor_modify.go:194-214 | in every interleaving the envelope goes out only after some peer's stream has sent its seek request |
| Submit.SuccessIsConfirmed | service/plane/config_anchor_modify.go:183-222 | in every interleaving a nil result means that every local peer reported VALID for the transaction and some orderer accepted the envelope |
| Submit.ResultAnswer | pkg/delivery/peer.go:86-100 | in every run, the result taken from a concluded subscription is nil iff there is one code per peer and all are VALID; that is, iff the verdict of every peer's stream is VALID |
| Submit.BroadcastAnswer | service/plane/config_anchor_modify.go:212-214 | a broadcast that returns leads to waiting for the result iff it returned nil, and is an error otherwise |
| Submit.AnswerComesFrom | service/plane/config_anchor_modify.go:206-221 | a nil answer comes from the subscription only; every other answer is an error |
| Submit.BroadcastStarts | service/plane/lifecycle_full.go:327-356 | one orderer but the last and one success for Raft; all orderers and the least BFT quorum for BFT; no other consensus |
| Submit.SuccessIsPossible | service/plane/config_anchor_modify.go:183-222 | a run exists that answers nil |
| Lifecycle.FoundCommitted | service/plane/lifecycle_full.go:253-262 | the scan finds iff a definition of that name is committed with the requested version and init flag, whatever its policy and in any list order |
| Lifecycle.CalculateSequence | service/plane/lifecycle_full.go:296-309 | one more than the last approved sequence if that one is committed, else 1 for no approval, else the last approved sequence; in any list order |
| Lifecycle.ApprovedMeans | service/plane/lifecycle_full.go:265-267 | approved iff version, init flag and policy all equal those of the last approval |
| Lifecycle.RequestedMeans | service/plane/lifecycle_full.go:79-89 | the version is the given one or that of the package, and initialisation is also required where there are arguments |
| Lifecycle.VersionIsPrefix | service/plane/lifecycle_full.go:291-293 | the version of a package identifier is all that precedes its first colon |
| Lifecycle.IsReadyToCommit | service/plane/lifecycle_full.go:270-288 | the count comes out ready iff every listed organisation has approved |
| Lifecycle.Ledger.ApproveForMyOrg | service/plane/lifecycle_full.go:170-177 | stores the caller's definition under that chaincode, and changes nothing else |
| Lifecycle.Ledger.CheckCommitReadiness | service/plane/lifecycle_full.go:271 | true for an organisation iff its stored definition equals the arguments |
| Lifecycle.Ledger.QueryApproved | system/lifecycle/query_approved.go:77-89 | the organisation's stored definition, or the zero result |
| Lifecycle.Ledger.CommitDefinition | service/plane/lifecycle_full.go:249 | installs the definition under that chaincode, and changes nothing else |
| Lifecycle.GetPackageIdByLabel | service/plane/lifecycle_full.go:312-324 | the identifier of the first installed package with the label, if there is one |
| Lifecycle.EndorseCommit | service/plane/lifecycle_full.go:401-433 | an envelope results iff within three tries payloads fail to match a number of times and the commit is then endorsed; if they never match, the loop ends with no error and no envelope; every other failure is an error |
| Lifecycle.CommitAndInit | service/plane/lifecycle_full.go:365-499 | the errors of the commit and of the initialisation, in this order; the definition is installed unless the commit fails without effect |
| Lifecycle.FirstFailure | service/plane/lifecycle_full.go:67-249 | a call fails exactly at the first of the operations it attempts that fails, and succeeds iff none does |
| Lifecycle.AttemptsMeans | service/plane/lifecycle_full.go:67-249 | which operations a call gets to, in terms of what is stored |
| Lifecycle.CallMeans | service/plane/lifecycle_full.go:94-249 | what a call changes, in terms of what is stored: its own approval unless it is for the same definition, and the committed definition iff forced or all approvals then agree; nothing if the request is found committed |
| Lifecycle.FailedMeans | service/plane/lifecycle_full.go:67-249 | what a failed call has changed, for each operation it can fail at |
| Lifecycle.LifecycleFull | service/plane/lifecycle_full.go:67-249 | one call acts on its chaincode as the specified function, with or without a forced commit, and on no other; it fails at the specified operation and with that error, leaving exactly what it did before (and that operation, if it took effect); it answers "committed" only if the request is then found committed; otherwise it leaves the committed definition, and its answer is true for exactly those organisations whose stored approval is the requested definition at the computed sequence, which are not all |
| Lifecycle.SequenceIsNext | service/plane/lifecycle_full.go:296-309 | in every reachable state the computed sequence is the committed one plus one |
| Lifecycle.OwnApprovalStoredIff | service/plane/lifecycle_full.go:130-134 | before the readiness check the caller's own approval is stored at that sequence, iff the request is not blank or something was approved before |
| Lifecycle.CommitRaisesByOne | service/plane/lifecycle_full.go:226-249 | a commit is at the next sequence and installs what every organisation has approved there |
| Lifecycle.OutcomeOfCalls | service/plane/lifecycle_full.go:94-249 | from every state of the ledger, after one call by each organisation in any order: committed where all aim if all aim at one sequence other than the committed one, and otherwise unchanged; so at the next sequence iff all aim there |
| Lifecycle.EveryoneCallsOnce | service/plane/lifecycle_full.go:94-249 | in particular, while the invariant holds, one call by each organisation, in any order, commits the request at the next sequence, and further such calls change nothing |
| Lifecycle.InvAgreed | service/plane/lifecycle_full.go:296-309 | while the invariant holds all organisations aim at the next sequence, whatever not blank is asked for |
| Lifecycle.RepeatedCallIsIdle | service/plane/lifecycle_full.go:134-249 | from every state of the ledger, while the organisations are still calling, repeating a call changes neither approvals nor the committed definition |
| Lifecycle.CallTwice | service/plane/lifecycle_full.go:94-249 | in any reachable state, and for any request, a call repeated at once changes nothing |
| Lifecycle.StalledForever | service/plane/lifecycle_full.go:130-134 | from an own approval at the committed sequence that is not what was committed, no number of calls gets that definition committed |
| Lifecycle.StalledIsBlocked | service/plane/lifecycle_full.go:296-309 | that state is one of those that the exact outcome leaves without a commit: the organisation aims at the committed sequence |
| LifecycleRuns.StepOrderlyIff | service/plane/lifecycle_full.go:94-249 | a single operation of a call keeps the invariant, and commits only what all have approved at the next sequence, iff its guard holds |
| LifecycleRuns.RunOrderlyIff | service/plane/lifecycle_full.go:94-249 | over every run, in any interleaving of single operations and with calls failing anywhere: every step keeps order iff every approval and every commit is undisturbed since the query or the check before it |
| LifecycleRuns.RunGuardedIff | service/plane/lifecycle_full.go:94-249 | the same in terms of the state at each step: an approval's sequence is the next, a commit's readiness check would succeed, or the very definition is already committed |
| LifecycleRuns.PreviousIs | service/plane/lifecycle_full.go:94-249 | the last step of a call before its approval is its query, and before its commit its readiness check |
| LifecycleRuns.StepInv | service/plane/lifecycle_full.go:94-249 | a guarded operation keeps the invariant and all that the calls under way rely on |
| LifecycleRuns.EveryCommitIsApproved | service/plane/lifecycle_full.go:94-249 | over every undisturbed run the committed definition changes only by a commit, one sequence ahead, to what every organisation has approved |
| LifecycleRuns.AtomicCommitIsApproved | service/plane/lifecycle_full.go:94-249 | the same over every run in which no call is interrupted between its queries and its approval, or between its readiness check and its commit, whatever else is interleaved |
| LifecycleRuns.ApprovalsKeepUp | service/plane/lifecycle_full.go:253-309 | over every undisturbed run each last approval is at the committed sequence or the next, and queries made now lead to the next |
| LifecycleRuns.AtomicPhasesAreGuarded | service/plane/lifecycle_full.go:94-249 | a run in which no call is interrupted between its queries and its approval, or between its readiness check and its commit, is guarded, whatever else is interleaved |
| LifecycleRuns.LateApprovalIff | service/plane/lifecycle_full.go:124-177 | an approval is in order iff nothing was committed since the own approval was queried and either nothing was committed between the two queries or the own approval was ahead already; or its very definition is committed by now |
| LifecycleRuns.LateCommitIff | service/plane/lifecycle_full.go:228-249 | a commit is in order iff since its readiness check no organisation has last approved anything else, or its very definition is committed by now |
| LifecycleRuns.OwnApprovalAtCheckIff | service/plane/lifecycle_full.go:134-234 | at the readiness check the caller's own approval is stored at the checked sequence iff the organisation has last approved just that since the call's approval stage, or nothing since and the request was not blank or had an approval |
| LifecycleRuns.ComputedSequence | service/plane/lifecycle_full.go:296-309 | from an earlier look at the committed definitions the computed sequence is the next one, unless both the look and the own approval have fallen behind; then it is the committed one |
| LifecycleDisorder.CallIsItsSteps | service/plane/lifecycle_full.go:94-249 | the operations of a call in a row, beside any others under way, act as the function that the sequential call computes |
| LifecycleRounds.OutcomeOfRound | service/plane/lifecycle_full.go:94-249 | from the state that any run has reached, orderly or not, and in any interleaving of the single operations of any number of calls for one new definition, beside other calls that rest: once every organisation has called and no call of the round is under way, it is committed where all aim if that is one sequence other than the committed one, and otherwise the committed definition stays |
| LifecycleRounds.RoundIsSafe | service/plane/lifecycle_full.go:94-249 | at every moment of such a round the committed definition is the one before, or the new one where all aim |
| LifecycleRounds.RunIsSane | service/plane/lifecycle_full.go:94-249 | in every run stored sequences are positive, only organisations of the channel have approvals, and once anything is committed all of them have |
| LifecycleRounds.ProgressFromAnyRun | service/plane/lifecycle_full.go:94-249 | after an undisturbed run every such round commits at the next sequence, every step of it is guarded, and further calls change nothing |
| LifecycleDisorder.StaleReadStalls | service/plane/lifecycle_full.go:67-130 | a run exists in which a commit between the two queries of one call leads to a stalled definition |
| LifecycleDisorder.LateCommitIsUnapproved | service/plane/lifecycle_full.go:226-249 | a run exists in which an approval replaced between a readiness check and its commit leads to a committed definition that one organisation no longer approves, and whose own choice is stalled |
| ConnPool.GrpcPool.Lookup | pkg/orderer/pool_grpc.go:30-36 | the connection of the key, if there is one |
| ConnPool.AtomicGetMeans | pkg/orderer/pool_grpc.go:28-56 | the atomic operation: a pooled connection is handed out whatever a dial would yield; a missing one is dialed, and pooled and handed out if that succeeds |
| ConnPool.GrpcPool.DialIfAbsent | pkg/orderer/pool_grpc.go:37-55 | a pooled connection is handed out and the pool left alone; otherwise the dialed one is pooled and handed out, or nothing happens if there is none |
| ConnPool.GrpcPool.Get | pkg/orderer/pool_grpc.go:28-56 | the same for the two sections together, without other threads |
| ConnPool.GetAlone | pkg/orderer/pool_grpc.go:28-56 | the lock-by-lock steps of a thread that nobody disturbs come to just that, in each of the three cases |
| ConnPool.GrpcPool.Close | pkg/orderer/pool_grpc.go:66-78 | closes exactly the connections in the map and empties it |
| ConnPool.StepInv | pkg/orderer/pool_grpc.go:28-78 | each step of each thread keeps the lock, the map, the dials and the answers in agreement |
| ConnPool.Refines | pkg/orderer/pool_grpc.go:28-78 | every step of every thread acts as one atomic get-or-dial or close, or changes nothing that a caller could see |
| ConnPool.RunRefines | pkg/orderer/pool_grpc.go:28-78 | every run is a run of the atomic pool from the empty one |
| ConnPool.OneOperationPerCall | pkg/orderer/pool_grpc.go:28-78 | in every interleaving, between a call and its return the thread completes exactly one atomic operation: a get of its key whose result is what the caller is given, or a close |
| ConnPool.OneConnectionPerPeriod | pkg/orderer/pool_grpc.go:28-56 | in every interleaving at most one connection per key is dialed between closes, and all callers in that time get the same one |
| ConnPool.NoConnectionLost | pkg/orderer/pool_grpc.go:54-78 | in every interleaving each connection dialed is either closed or in the map (or about to be put there), never both, and under one key |

## Left out

- Integer widths: versions, sequences and identifiers are unbounded; wrap-around at the end of uint64 and int64 is not modelled.
- Aliasing in configuration trees: maps and messages are values, and cloning is the identity. The retained members that the code shares between both sets are copies here, and map entries are never nil.
- ConfigUpdate.ComputeGroupsMapUpdate: takes the two groups as ghost arguments beside their subgroup maps, for the specification only; other than that it works on the maps, as the code does.
- Policy bodies: messages are compared by kind and rule bytes; unknown protobuf fields are not modelled.
- The channel's own checks: policies, signatures and capabilities; `ConfigApply.Accepts` is about versions only.
- Marshalling, signing, envelopes and gRPC: abstract (`AnchorUpdate.Codec` asks that decoding undoes encoding); errors from them beyond the ones named are not modelled.
- Lifecycle.Ledger.ApproveForMyOrg: the ledger stores what it is told; sequence checks of the ledger's own, endorsement of the proposal and its validation are not modelled.
- LifecycleRuns.EveryCommitIsApproved: false of runs with a disturbed step (`LifecycleRuns.RunOrderlyIff`); commits forced by `CommitForce` and the operations that approve or commit at a sequence chosen by the caller are not part of the runs.
- LifecycleRounds.OutcomeOfRound: calls that were under way before, or are for other definitions, take no step during the round, and none of its calls fails.
- Lifecycle.LifecycleFull: what initialisation does to the chaincode, and the choice of endorsers; errors in choosing them count as errors of the operation they are for.
- Lifecycle.CommitAndInit: when payloads never match, the code goes on with an empty envelope; that orderers refuse it, and the call then fails, is an assumption.
- Lifecycle.IsReadyToCommit: an empty answer counts as ready, as in the code; progress is claimed for at least one organisation.
- Submit.SuccessIsConfirmed: safety only. A second close of the ready channel (its check and its close are two steps) ends a run; that it cannot happen, or that ready is ever closed, is not claimed. Obtaining a peer's delivery client either succeeds or is cancelled.
- Submit.SubscribedBeforeBroadcast: for Raft any but the last orderer may be chosen, as the code does; with fewer than two Raft orderers the code panics and the model has no step. Fewer than one orderer is covered by the invariant, but not by the statement about acceptance.
- The subscription to one peer out of many (`SubscribeTx`): its code variable starts as VALID, and nothing is claimed about it.
- Quorum.QuorumBft: the ceiling of a float is an integer division here; exact below 2^53.
- Consenters.CreateBftOrderers: certificates and identities are copied fields and are left out; the map key is the pair of host and port, which its text determines.
- ConnPool.StepInv: lock fairness, errors of closing a connection, the address matcher and certificates; a failed certificate counts as a failed dial.
- The peer pool, the update of an orderer's entry, removal of orderers, listing of chaincodes and channels, installation of packages, and discovery: glue or easy members.
