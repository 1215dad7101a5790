# Replication and ordering protocols, modelled and proved

This project models the replication and transaction-ordering protocols of the repository in Dafny and
proves what they promise: Speculative Paxos, NOPaxos, Fast Paxos, Viewstamped Replication (VR), the Eris
ordering and failure coordinator, the replicated log they share, and the two wire layers below them.

`dafny verify dfyconfig.toml` checks everything.

Protocols are step relations over replica states and the set of messages sent so far. A message may be
delivered any number of times, in any order, or never. Timers are steps that may fire whenever they are
armed. A *run* is a sequence of states from an initial one; the main theorems hold in every state of every
run, and most relate two different times of a run. Configurations have n = 2f+1 replicas.

What the code does by updating fields is also written that way: a class whose methods, with the loops of
the code, are proved to compute exactly what the protocol's handler functions say. Those functions are
what the step relations use. The `Effects` modules say of every kind of step, over runs, what it does: which
messages change the log, exactly when something is committed, given up or dropped, and what is sent. They say so
in terms of the messages delivered before and of the leader's log, not of the handlers' counters.

| files | content |
|---|---|
| `Numbers`, `Quorums`, `Logs`, `ClientTables` | quorum arithmetic; the log with hash chain, dump and install; the client table as a replay of the log |
| `SpecMerge`, `SpecMergeShape`, `SpecMergeCommits`, `SpecMergeSafety`, `SpecClientOrder`, `SpecReplica`, `SpecReconciliation`, `SpecOvertaking`, `SpecGapFill`, `SpecGapFillRepeats` | Speculative Paxos: merging reported logs, rollback, installing the merged log, from reports to the installed log, before and after gap filling |
| `Nopaxos`, `NopaxosCore`, `NopaxosSafety`, `NopaxosSteps`, `NopaxosRuns`, `NopaxosReplica`, `NopaxosEdges`, `NopaxosStops` | NOPaxos within a session and view: gap agreement, synchronization, state transfer |
| `NopaxosEffects`, `NopaxosDeliveries` | what every step of NOPaxos within a view does, over runs |
| `NopaxosViews`, `NopaxosMerge`, `NopaxosNewLeader`, `NopaxosViewChange` | NOPaxos view identifiers, the view-change merge, the new leader on its way into the view, and what a view change keeps |
| `NopaxosClient`, `NopaxosCompletion`, `NopaxosExecution` | the NOPaxos client, what completion means, and execution |
| `FastPaxos`, `FastPaxosSafety`, `FastPaxosRuns`, `FastPaxosReplica`, `FastPaxosEffects` | Fast Paxos |
| `Vr`, `VrSafety`, `VrRuns`, `VrReplica`, `VrTables`, `VrEffects` | VR with batching, within a view |
| `Eris`, `ErisSafety`, `ErisRuns`, `ErisChecks`, `ErisEffects`, `ErisObjects`, `ErisSequencing`, `ErisHeader` | Eris: coordinator, servers, sequencer, packet header |
| `UdpFragments` | fragmentation of large UDP messages |

SHA-1 is treated as injective: a hash is the term that was hashed. Numbers are unbounded except in the
packet header, where field widths matter. An application is a function of what it executed before.

## Places where the code promises less than expected

Each is stated as a lemma, together with the condition under which the expected property does hold; most of
these conditions are equivalences.

- Speculative Paxos, more than f+1 reports: two hashes can both be supported at one operation
  (`SpecMergeShape.TwoSupportedBeyondQuorum`); with exactly f+1 at most one can
  (`SpecMergeShape.AtMostOneSupported`). Which numbers of reports single out one hash is exactly known
  (`SpecMergeShape.DecisiveExactly`). What a fast quorum holds wins with any number of reports.
- Speculative Paxos, nothing taken at maxStart: leftovers are renumbered from operation 1
  (`SpecMergeShape.MergeStart`, an equivalence).
- Speculative Paxos, commit point before maxStart: entries before maxStart are skipped, so the new leader takes the
  highest reported commit point over exactly when it is not before maxStart or is 0
  (`SpecMergeCommits.CommitPointTaken`, an equivalence; `SpecMergeCommits.CommitBeforeStart` is an instance).
  Otherwise its own commit point stays (`SpecReconciliation.Reconcile`).
- Speculative Paxos, order of leftovers: leftovers are appended report by report, so a client's request can come
  after a higher-numbered one, and then the assertion at replication/spec/replica.cc:206 fails while the merged log
  is installed (`SpecOvertaking.NotInstallable`). The assertions hold exactly when no leftover comes after a higher
  number of its client (`SpecReconciliation.InstallableExactly`, an equivalence), for instance whenever whoever
  reports a request has the same client's lower-numbered ones before it (`SpecReconciliation.MergedInstallable`).
- Speculative Paxos, after gap filling: the leader merges all that the longer reports hold, and the comment at
  replication/spec/replica.cc:962-967 suspects that leftovers may then be duplicates. They are, exactly when one is
  in the leader's log before the merged log starts (`SpecGapFill.RepeatsExactly`, an equivalence), and that is so,
  with one log everywhere, as soon as a reporter's commit point is before that start
  (`SpecGapFillRepeats.LaggingRepeats`). Such a merge can pass every assertion, and the operation is executed twice
  (`SpecGapFillRepeats.ExecutedTwice`). The assertions hold exactly when no leftover falls below its client's newest
  number (`SpecGapFill.FilledInstallableExactly`, an equivalence).
- Speculative Paxos, request number 0: it counts as new from a client never heard of, and stops the replica when it
  is repeated (`SpecReplica.Replica.HandleRequest`).
- Speculative Paxos, rollback: the assertion on the client table holds exactly for entries that carried a
  new request number (`ClientTables.UndoCheckExact`).
- Log installation keeps a longer stale tail when no entry diverges (`Logs.Log.Install`, an equivalence).
- Fast Paxos, fast path: a fast-path commit takes earlier operations along that no other replica need hold
  (`FastPaxosRuns.CommittedWithoutQuorum` is such a run). On a quorum are those that were the commit point at some
  time, or for which, or on the slow path for a later one, enough replies were counted
  (`FastPaxosRuns.BackedHeld`).
- NOPaxos, first message: replicas that start a session at different message numbers put different messages
  at one position (`NopaxosEdges.FirstMessageDecides`, an equivalence). The runs studied here start it at
  one number.
- NOPaxos, state transfer: the comment at replication/nopaxos/replica.cc:470-473 says that known gaps are
  handled; the assertion three lines above it fails exactly when the receiver already knows a gap inside the
  range, after its first operation (`NopaxosEdges.TransferStops`). A sync prepare leads there through the
  follower's own request and the leader's answer exactly when it lists such a gap or the follower knew one
  (`NopaxosEdges.SyncTransferStops`; `NopaxosStops.SyncPrepareStops` is a run). What was processed and sent before
  the failing entry stays; the model lets such a replica go on, which includes the runs in which it takes no
  further step.
- NOPaxos, end of a transfer: the end is exclusive but completion is tested for equality with it. A reply with
  everything that was asked for leaves the transfer pending, without commit or acknowledgement, unless the next
  operation is a known gap (`NopaxosEdges.TransferEndsLate`; `NopaxosEdges.TransferLeftOpen` is an instance).
- NOPaxos, repeated requests: a result is kept by whoever leads when it executes, and a repeat is answered from the
  table by whoever leads the entry's view. An answer is the result of the request's one execution exactly when it
  was given right then or that result was kept (`NopaxosExecution.AnswerIsResult`, an equivalence). A replica that
  led, followed and leads again may answer with an earlier request's result, and one that never led before with
  nothing (`NopaxosExecution.WrongAnswer`, `NopaxosExecution.EmptyAnswer`).
- NOPaxos, view-change merge: where entries are fetched, the assertion that the leader's log is shorter than the
  merged one holds exactly when a missing operation is not a gap, for a leader that is up to date and for one that
  was cut back; where none are, the assertion that it is as long holds exactly for a leader that is up to date or has
  committed nothing (`NopaxosMerge.FetchAssertion`). It fails when only gaps are missing
  (`NopaxosNewLeader.OnlyGapsMissing`) and when nothing is (`NopaxosNewLeader.NothingMissing`).
- NOPaxos, new leader behind in its view: cutting back removes the last committed operation from the log too
  (replication/nopaxos/replica.cc:1653, common/log.cc:122-141), while the counter keeps it. Whatever view-change
  messages and entries such a leader receives from then on, it never gets into the view
  (`NopaxosNewLeader.LaggingNeverEnters`).
- NOPaxos, new leader up to date: exactly when it enters, asks or stops is known
  (`NopaxosNewLeader.UpToDateOutcome`, equivalences). An answer with everything it asked for does not let it in, as
  with every transfer; the next view-change message does (`NopaxosNewLeader.AnswerNotEnough`,
  `NopaxosNewLeader.RepeatEnters`).
- Eris, checks: a server may promise to drop a stamp of another shard and then process the transaction under its
  own stamp; the next check of the promised stamp violates the assertion at transaction/eris/server.cc:371-373
  (`ErisChecks.CheckFails` is a run). It is violated exactly when the stamp is promised and the transaction passed
  without being dropped (`ErisChecks.CheckStops`), and without merged drop sets the stamp is then another shard's
  (`ErisChecks.CheckStopsForeign`); both are equivalences over all runs.
- Eris header: the group count takes one byte. A packet is parsed to what was stamped exactly below 256 groups
  (`ErisHeader.ParseExactly`); with 256 it reads as one without groups (`ErisHeader.ParsesToNothing`). From the
  client through the sequencer to a server, the packet reaches the groups it names, with their numbers and its
  payload, exactly below 256 groups (`ErisHeader.RoundTrip`).
- UDP, reordering: a piece of an older message stops the receiver exactly when it comes while a newer message is
  incomplete (`UdpFragments.StopsExactly`; `UdpFragments.SwappedStops` is an instance).
- UDP, reassembled messages: lib/udptransport.cc:523 allocates one byte, `new char(msg_size)`, and copies the whole
  message into it. No message delivered from pieces fits (`UdpFragments.CopyNeverFits`). What is stated about
  delivered bytes concerns those put together, before that copy.

## Model

| member | source | states |
|---|---|---|
| Quorums.QuorumsMeet | lib/configuration.cc:224-228 | any two sets of f+1 replicas share one |
| Quorums.FastQuorumArithmetic | lib/configuration.cc:224-234 | f+1 reports contain at least FastQuorumSize-f members of any fast quorum, and what lies outside a fast quorum is smaller than that |
| Logs.HashFixesHistory | common/log.cc:198-217 | two chained logs with equal hashes at an operation have equal hashes and requests at every earlier one |
| Logs.Log.Append | common/log.cc:55-71 | the log grows by the entry, hashed over the previous hash, and stays numbered and chained |
| Logs.Log.Find | common/log.cc:74-91 | an entry is found exactly within the log's range, and it has the number asked for |
| Logs.Log.SetStatus | common/log.cc:94-103 | changes the status of that entry only; reports whether it exists |
| Logs.Log.SetRequest | common/log.cc:106-119 | changes the request of that entry only; reports whether it exists |
| Logs.Log.RemoveAfter | common/log.cc:122-141 | removes the operation itself and all later ones and nothing else |
| Logs.Log.Dump | common/log-impl.h:42-62 | the entries from..to-1 that exist, in order |
| Logs.Log.Install | common/log-impl.h:64-96 | entries before the list stay; when equal viewstamps mean equal requests, the log ends up ending with the list if and only if some entry diverged or the old log was not longer |
| Logs.Log.InstallDump | replication/vr/replica.cc:1028-1030 | cutting at the sender's last operation first makes the log end with the sender's entries |
| SpecMerge.MergeLogs | replication/spec/replica.cc:795-999 | the loops compute a merge in the sense of IsMerge: committed entries of the most committed latest report, then agreed entries while some hash is supported, then leftovers; which of them are committed is in SpecMergeCommits |
| SpecMerge.TakeAgreed | replication/spec/replica.cc:889-955 | takes, operation by operation, an entry with a supported hash, as speculative, until none is supported |
| SpecMergeShape.AtMostOneSupported | replication/spec/replica.cc:918-938 | with exactly f+1 reports at most one hash reaches the count needed at an operation |
| SpecMergeShape.QuorumDecisive | replication/spec/replica.cc:918-920 | exactly f+1 reports are decisive: two supported hashes always share a reporter, even at different operations |
| SpecMergeShape.TwoSupportedBeyondQuorum | replication/spec/replica.cc:918-938 | with f+2 reports two hashes can both reach it, for every even f |
| SpecMergeShape.DecisiveExactly | replication/spec/replica.cc:918-938 | n reports, whatever they say, support at most one hash per operation if and only if n is less than twice the number needed |
| SpecMergeShape.SupportEnds | replication/spec/replica.cc:940-954 | once an operation has no supported hash no later one has |
| SpecMergeShape.AgreedExactly | replication/spec/replica.cc:889-955 | so stopping there loses nothing: from its start on, the second stage takes an operation if and only if some hash is supported there |
| SpecMergeShape.MergeShape | replication/spec/replica.cc:1003-1093 | the merged log is numbered without gaps, one hash chain, repeats no request, starts with the committed entries, and contains every uncommitted operation from maxStart on of every latest-view report |
| SpecMergeShape.MergeTidy | replication/spec/replica.cc:1011-1032 | along the merged log views never fall and nothing committed follows something speculative, when that holds of the reports and equal entries carry one view, which the code asserts while counting |
| SpecMergeShape.MergeSound | replication/spec/replica.cc:853-999 | every request in the merged log was reported by a latest-view replica |
| SpecMergeShape.MergeStart | replication/spec/replica.cc:968-999 | the merged log begins at or after maxStart if and only if something is taken there |
| SpecMergeCommits.EntryOrigin | replication/spec/replica.cc:853-999 | the entries of a merge are, in this order, committed ones of the most committed report, and speculative ones, each either shared by enough reports and reported so, or a reported request in the new view |
| SpecMergeCommits.CommittedWereReported | replication/spec/replica.cc:864-879 | every committed entry of a merge was reported, with its number, view, request and hash, by a latest reporter that has committed it |
| SpecMergeCommits.CommittedExactly | replication/spec/replica.cc:864-938 | an operation is committed in a merge if and only if the most committed report has it committed, from maxStart on |
| SpecMergeCommits.ReportedAreCommitted | replication/spec/replica.cc:864-879 | when every report starts by maxStart, whatever any latest reporter has committed from there on is committed in the merge |
| SpecMergeCommits.CommittedStay | replication/spec/replica.cc:1032-1056 | and it is the same operation, when reported commits are fast-held |
| SpecMergeCommits.CommitPointOfMerge | replication/spec/replica.cc:1108-1131 | the newest committed operation of a merge is the highest commit point of a latest report, if that is not before maxStart, and otherwise there is none |
| SpecMergeCommits.CommitPointTaken | replication/spec/replica.cc:864-879 | it is the highest reported commit point if and only if that is not before maxStart or is 0 |
| SpecMergeCommits.CommitBeforeStart | replication/spec/replica.cc:1374-1381 | two reports that start after the commit point they name, no merge of which has anything committed |
| SpecMergeSafety.HeldIsSupported | replication/spec/replica.cc:889-938 | a hash that a fast quorum holds is supported at every operation of its history that the reports have |
| SpecMergeSafety.OthersUnsupported | replication/spec/replica.cc:889-938 | no other hash can be supported at an operation that a fast quorum holds |
| SpecMergeSafety.FastHeldOneHistory | replication/spec/replica.cc:889-955 | any two fast-held operations lie on one history |
| SpecMergeSafety.MergeSafety | replication/spec/replica.cc:795-999 | what a fast quorum holds at an operation is in every merge of f+1 or more reports, under the same number with the same hash, when holders report the latest view and reported commits are fast-held |
| SpecMergeSafety.CommittedHeldSupported | replication/spec/replica.cc:853-869 | a fast-held commit point is supported among the reports, the hypothesis MergeShape makes about committed entries |
| SpecReconciliation.MergedGrafts | replication/spec/replica.cc:1354-1423 | under the guard checked before merging, the merged log starts at maxStart and continues the leader's own log |
| SpecClientOrder.MergeInOrderExactly | replication/spec/replica.cc:957-999 | the merged log repeats no request, and has every client's numbers in order if and only if no leftover comes after a higher number of its client |
| SpecReconciliation.InstallableExactly | replication/spec/replica.cc:1108-1288 | everything the code asserts while installing the merged log holds if and only if no leftover comes after a higher number of its client |
| SpecReconciliation.MergedInstallable | replication/spec/replica.cc:1108-1288 | it holds when whoever reports a request has the same client's lower-numbered reported requests before it |
| SpecReconciliation.HeldInTarget | replication/spec/replica.cc:1374-1419 | whatever a fast quorum holds, before maxStart or after, is in the log that the merge aims for, in its place |
| SpecReconciliation.Reconcile | replication/spec/replica.cc:1412-1423 | with the hypotheses of MergeSafety on the reports, and clients in order in them, merging and installing leaves the new leader with everything a fast quorum held, in its place, and committed exactly as far as it had been or, if that is further and not before maxStart, as the furthest latest reporter |
| SpecGapFill.AcceptedByHash | replication/spec/replica.cc:200-217 | a log passes the assertion on recording its requests if and only if no number in its last hash falls below its client's newest |
| SpecGapFill.FilledGrafts | replication/spec/replica.cc:1353-1366 | the merge after gap filling continues the leader's log |
| SpecGapFill.FilledHolds | replication/spec/replica.cc:1353-1423 | whatever a fast quorum holds is in the log that this merge aims for, in its place |
| SpecGapFill.FilledInstallableExactly | replication/spec/replica.cc:1108-1288 | everything the code asserts while installing it holds if and only if no leftover falls below its client's newest number, in the merge or in the leader's log before it |
| SpecGapFill.RepeatsExactly | replication/spec/replica.cc:962-967 | the new log repeats no request if and only if no leftover that is taken is in the leader's log before the merge starts |
| SpecGapFill.ReconcileFilled | replication/spec/replica.cc:1353-1423 | when it can be installed, merging and installing leaves the new leader with everything a fast quorum held, in its place, and committed exactly as far as it had been or as the furthest latest reporter |
| SpecGapFillRepeats.LaggingRepeats | replication/spec/replica.cc:962-999 | with the same log everywhere, an operation is in the new log twice as soon as a reporter has not committed up to where the merge starts |
| SpecGapFillRepeats.ExecutedTwice | replication/spec/replica.cc:962-999 | five replicas with one log, one of them lagging, whose merge passes every assertion and has an operation twice |
| SpecOvertaking.NotInstallable | replication/spec/replica.cc:200-206 | two reports that pass the guard and whose merge violates the assertion on recording a request |
| ClientTables.UndoLast | replication/spec/replica.cc:171-190 | undoing the last entry, if it carried a new number, yields the table of the log without it, and the assertion holds |
| ClientTables.UndoCheckExact | replication/spec/replica.cc:176-177 | the assertion holds if and only if the entry carried a new request number |
| ClientTables.AppendInOrder | replication/spec/replica.cc:200-217 | appending a request whose number is not below its client's newest keeps the log accepted, and increasing if it is new; the table stays the replay |
| SpecReplica.Replica.CommitUpTo | replication/spec/replica.cc:142-157 | the commit point becomes the maximum; only statuses change |
| SpecReplica.Replica.RollbackTo | replication/spec/replica.cc:160-197 | log, last hash and client table are those of replaying the first k entries from nothing: rollback inverts appending |
| SpecReplica.Replica.Speculate | replication/spec/replica.cc:339-359 | appends the request with its chained hash and records it |
| SpecReplica.Replica.HandleRequest | replication/spec/replica.cc:274-375 | executed exactly when new; a duplicate is answered from the log; stale and deferred requests change nothing; number 0 stops the replica exactly when it is repeated |
| SpecReplica.Replica.InstallLog | replication/spec/replica.cc:1108-1288 | under exactly what the code asserts, the log becomes the old prefix plus the list, shared entries kept, committed prefix untouched; the commit point is the maximum of old and new; the table stays the replay of the log |
| SpecReplica.Replica.HandleStartView | replication/spec/replica.cc:1503-1565 | refuses exactly when the list does not connect; otherwise the log has the sender's hashes throughout and the commit point is the highest of the old one, the sender's and that of the list |
| Nopaxos.Listed | replication/nopaxos/replica.cc:1572-1592 | the gaps sent are the known ones up to the sync point, in increasing order |
| NopaxosCore.CoversMatch | replication/nopaxos/replica.cc:860-872 | knowing all of the leader's gaps up to p, a log that reaches p equals the leader's up to p |
| NopaxosCore.SettleOk | replication/nopaxos/replica.cc:1050-1056 | processing gaps that follow keeps the log aligned with the sequencer and its gaps a subset of the leader's no-ops |
| NopaxosCore.InstallGapsOk | replication/nopaxos/replica.cc:1364-1392 | installing gaps keeps that too, and installs them all |
| NopaxosSteps.FollowerGapCommit | replication/nopaxos/replica.cc:332-379 | all three cases of a gap commit keep the invariant |
| NopaxosSteps.FollowerSyncPrepare | replication/nopaxos/replica.cc:766-810 | handling a sync prepare keeps the invariant, whatever state transfer it interrupts or completes |
| NopaxosSteps.FollowerSyncCommit | replication/nopaxos/replica.cc:842-888 | a follower commits only a point up to which its log is the leader's |
| NopaxosSteps.FollowerTransferReply | replication/nopaxos/replica.cc:448-478 | installing transferred entries keeps the invariant, as far as it gets |
| NopaxosSteps.LeadGapAgreement | replication/nopaxos/replica.cc:1209-1235 | the leader's no-op is appended, never put over a received operation |
| NopaxosSteps.LeadSyncReply | replication/nopaxos/replica.cc:813-839 | the leader commits a point that f followers match |
| NopaxosSteps.InvNext | replication/nopaxos/replica.cc:154-219 | every step of every replica keeps the invariant, and nothing goes back; what each step does is in NopaxosEffects and NopaxosDeliveries |
| NopaxosEffects.LeaderCommitsExactly | replication/nopaxos/replica.cc:813-839 | over every run, the leader has committed exactly up to where it began or up to a sync point that enough followers acknowledged while it was the current one |
| NopaxosEffects.GapMissingEffect | replication/nopaxos/replica.cc:318-326 | a report that the next operation is missing makes the leader give it up if and only if with it every other replica has reported so; otherwise log and mode stay and nothing is sent |
| NopaxosEffects.GivenUpByAll | replication/nopaxos/replica.cc:318-326 | and then each of them has sent such a report |
| NopaxosEffects.GapConfirmEffect | replication/nopaxos/replica.cc:382-408 | the leader goes on if and only if f followers have confirmed the no-op it waits for |
| NopaxosEffects.SyncAckEffect | replication/nopaxos/replica.cc:813-839 | an acknowledgement commits the current sync point, and has that announced, if and only if with it f followers have acknowledged it |
| NopaxosDeliveries.RequestEffect | replication/nopaxos/replica.cc:929-982 | a request is appended if and only if its number is the one due and no gap is being decided; a later one has the missing operation asked for, once; an earlier one does nothing |
| NopaxosDeliveries.GapRequestEffect | replication/nopaxos/replica.cc:248-292 | a replica answers with what it has, or that it waits for the same operation, and otherwise not |
| NopaxosDeliveries.GapFoundEffect | replication/nopaxos/replica.cc:295-317 | an operation that was found is appended, under the number due, if and only if it comes next and no gap is being decided |
| NopaxosDeliveries.GapCommitEffect | replication/nopaxos/replica.cc:332-379 | a follower replaces what it has by the leader's no-op, appends it, or takes note of it, and confirms if and only if its log has reached it |
| NopaxosDeliveries.SyncTimerEffect | replication/nopaxos/replica.cc:1572-1592 | a sync point is the end of the leader's log and lists exactly its no-ops |
| NopaxosDeliveries.SyncPrepareEffect | replication/nopaxos/replica.cc:766-810 | if and only if the point is beyond its commit point, the follower has the leader's no-op wherever a gap is listed, appends the gaps that come next, and then acknowledges, commits or asks for what is missing |
| NopaxosDeliveries.SyncCommitEffect | replication/nopaxos/replica.cc:842-888 | a follower commits a new point if and only if it was prepared and its log has reached it, and its log is then the leader's up to there; it asks for the prepare if and only if it has none |
| NopaxosDeliveries.SyncPrepareRequestEffect | replication/nopaxos/replica.cc:891-926 | the leader repeats the sync point, with its commit if it is committed |
| NopaxosDeliveries.TransferRequestEffect | replication/nopaxos/replica.cc:411-445 | the leader sends exactly the part of its log asked for, if and only if it has all of it |
| NopaxosDeliveries.TransferEffect | replication/nopaxos/replica.cc:448-478 | a follower gets the leader's operations and nothing else, to the end of what was sent unless a gap it knew comes before, answers each, and completes the sync point if the log reached the transfer's end |
| NopaxosDeliveries.GapTimerEffect | replication/nopaxos/replica.cc:1209-1235 | a leader that waits for an operation gives it up, a follower asks again |
| NopaxosDeliveries.OthersIgnored | replication/nopaxos/replica.cc:154-219 | messages for the other role, or for another replica, change nothing |
| NopaxosRuns.Agreement | replication/nopaxos/replica.cc:294-408 | in every run, any two replicas at any two times have the same operation, gaps included, at every position both committed |
| NopaxosRuns.LeaderAppendsOnly | replication/nopaxos/replica.cc:985-1057 | the leader's log only grows, so it never turns a received operation into a no-op |
| NopaxosRuns.NoOpsAreLeaders | replication/nopaxos/replica.cc:332-379 | every follower no-op is a leader no-op |
| NopaxosRuns.OverwritesOnlyOpen | replication/nopaxos/replica.cc:1384-1388 | a gap overwrites only operations that are neither committed nor executed: assertion and panic are unreachable |
| NopaxosRuns.LoopOverwritesOnlyOpen | replication/nopaxos/replica.cc:1364-1392 | the same inside the loop over the gaps of a sync prepare, whatever the gaps before have set off |
| NopaxosRuns.CommitDurable | replication/nopaxos/replica.cc:813-888 | what a replica committed is from then on in the leader's log and on a quorum |
| NopaxosRuns.RepliesDurable | replication/nopaxos/replica.cc:1013-1040 | once the leader answered at an operation, every replica that reaches it has that very request there, forever |
| NopaxosRuns.AlwaysReadable | replication/nopaxos/replica.cc:448-478 | every message sent meets the assertions on its shape at whoever receives it |
| NopaxosEdges.FirstMessageDecides | replication/nopaxos/replica.cc:953-955 | two fresh replicas agree on the first position if and only if they start at the same message number |
| NopaxosEdges.TransferStops | replication/nopaxos/replica.cc:465-475 | the assertion in the install loop fails if and only if a known gap lies in the range after its first operation |
| NopaxosEdges.SyncTransferStops | replication/nopaxos/replica.cc:790-806 | a lagging follower that handles a sync prepare asks the leader, whose answer stops it if and only if a known or listed gap lies beyond its next operation and up to the sync point |
| NopaxosStops.SyncPrepareStops | replication/nopaxos/replica.cc:411-478 | a run in which that happens |
| NopaxosEdges.TransferEndsLate | replication/nopaxos/replica.cc:1042-1048 | a reply with all that was asked for ends the transfer if the operation after it is a known gap, and otherwise leaves it pending, without commit or acknowledgement |
| NopaxosEdges.TransferLeftOpen | replication/nopaxos/replica.cc:790-806 | a follower that misses one operation gets it and acknowledges nothing |
| NopaxosReplica.ProcessSplits | replication/nopaxos/replica.cc:1042-1056 | processing an operation followed by a gap is processing one after the other, also when a transfer completes in between |
| NopaxosReplica.Server.constructor | replication/nopaxos/replica.cc:1287-1333 | a replica enters the view with the base log, its gaps, and the sync point recorded |
| NopaxosReplica.Server.ProcessNext | replication/nopaxos/replica.cc:985-1057 | the recursion computes the protocol's step, messages included |
| NopaxosReplica.Server.RecordGaps | replication/nopaxos/replica.cc:1364-1392 | the loop over gaps, each with what it sets off, computes the protocol's installation of all |
| NopaxosReplica.Server.OnRequest | replication/nopaxos/replica.cc:929-982 | stale, next, early and first messages, as the protocol says |
| NopaxosReplica.Server.BeginGapAgreement | replication/nopaxos/replica.cc:1209-1235 | logs a no-op, enters gap commit and asks the others |
| NopaxosReplica.Server.OnGapReply | replication/nopaxos/replica.cc:295-329 | appends what was found, or counts the report and gives the operation up at the last one, as the protocol says |
| NopaxosReplica.Server.OnGapCommitReply | replication/nopaxos/replica.cc:382-408 | counts confirmations and resumes at a quorum |
| NopaxosReplica.Server.OnGapCommit | replication/nopaxos/replica.cc:332-379 | records, overwrites or appends, and acknowledges |
| NopaxosReplica.Server.OnSyncPrepare | replication/nopaxos/replica.cc:766-810 | installs gaps, then acknowledges, commits or asks for the missing part |
| NopaxosReplica.Server.OnSyncPrepareReply | replication/nopaxos/replica.cc:813-839 | counts replies to the current sync point and commits at a quorum |
| NopaxosReplica.Server.OnSyncCommit | replication/nopaxos/replica.cc:842-888 | commits when prepared and complete, asks for the prepare when it is missing |
| NopaxosReplica.Server.Commit | replication/nopaxos/replica.cc:1133-1156 | moves the commit point forward, announces it at the leader, executes |
| NopaxosReplica.Server.OnStateTransferReply | replication/nopaxos/replica.cc:448-478 | installs entry by entry, and when the check on a number fails has the state and messages reached by then |
| NopaxosReplica.Server.ForgetFutureGaps | replication/nopaxos/replica.cc:1268-1281 | removing the largest gap while it is beyond the log leaves exactly the gaps within it |
| NopaxosViews.EnteredChain | replication/nopaxos/replica.cc:1238-1333 | in every run all identifiers under which any replica ever operated are componentwise comparable |
| NopaxosViews.NeverBack | replication/nopaxos/replica.cc:1238-1246 | no step lowers a component of a replica's identifier or of the last one it operated under |
| NopaxosViews.MaximaOfReports | replication/nopaxos/replica.cc:541-553 | the largest session and the largest view of any collection of view-change messages and the leader's own are the exact pair of one report |
| NopaxosViews.MaximaOfNobody | replication/nopaxos/replica.cc:541-553 | without the chain they may be nobody's |
| NopaxosMerge.LatestId | replication/nopaxos/replica.cc:530-552 | the first loop computes the separate maxima and resets the furthest operation when the leader is behind |
| NopaxosMerge.InstallCommittedGaps | replication/nopaxos/replica.cc:1364-1378 | the gaps become the union, and the log is advanced over them as far as they go |
| NopaxosMerge.Merge | replication/nopaxos/replica.cc:528-606 | the merged end is the furthest reported under the latest identifier, the merged gaps are the union of those reported under it, and the source of missing entries is right |
| NopaxosMerge.MergeKeepsSyncPoint | replication/nopaxos/replica.cc:528-606 | if a quorum acknowledged sync point p with gaps G, any f+1 reports merge into an end of at least p and exactly the gaps G up to p |
| NopaxosMerge.GapsWithinMerge | replication/nopaxos/replica.cc:591-595 | the assertion that all gaps lie within the merged log holds |
| NopaxosMerge.FetchAssertion | replication/nopaxos/replica.cc:617-628 | of any merge, with the leader's end or, after cutting back, its commit point as start: the first assertion holds if and only if some operation after the start is not a gap, the second if and only if the leader is up to date or has committed nothing |
| NopaxosNewLeader.NewLeader.HandleViewChanges | replication/nopaxos/replica.cc:528-633 | with log and counter apart: cuts back, gathers gaps and the furthest end, and stops, asks or enters as OnReports says |
| NopaxosNewLeader.NewLeader.Rewind | replication/nopaxos/replica.cc:1644-1655 | the log loses the last committed operation that the counter keeps; stops when later operations were executed or nothing is committed |
| NopaxosNewLeader.NewLeader.InstallGap | replication/nopaxos/replica.cc:1364-1391 | records a gap, appends it when it comes next, turns an operation into it, or stops on one committed or executed |
| NopaxosNewLeader.LaggingNeverEnters | replication/nopaxos/replica.cc:560-564 | over every sequence of view-change messages and entries, a leader that was cut back never enters the view |
| NopaxosNewLeader.UpToDateOutcome | replication/nopaxos/replica.cc:566-633 | a leader that is up to date enters if and only if nobody reports a longer log, asks if and only if a missing operation is not a gap, and otherwise violates the assertion, unless a reported gap clashes |
| NopaxosNewLeader.AnswerNotEnough | replication/nopaxos/replica.cc:448-478 | an answer with all it asked for stops it if and only if a known gap is inside; otherwise the log reaches the end and the view is not entered |
| NopaxosNewLeader.RepeatEnters | replication/nopaxos/replica.cc:528-633 | with the whole merged log the next view-change message lets it in |
| NopaxosNewLeader.OnlyGapsMissing | replication/nopaxos/replica.cc:617-618 | the assertion fails when the one missing operation is a gap |
| NopaxosNewLeader.NothingMissing | replication/nopaxos/replica.cc:617-618 | it fails for a leader behind in its view that has committed all that is reported |
| NopaxosViewChange.CommitsSurvive | replication/nopaxos/replica.cc:528-606 | over every run of a view and the view change after it: whatever any replica committed is covered by any quorum's merged log, with exactly the gaps of the committed log |
| NopaxosViewChange.ContentsSurvive | replication/nopaxos/replica.cc:528-606 | whichever replica of the view an operation is taken from, with the merged gaps in it is the committed one |
| NopaxosClient.FindLeader | replication/nopaxos/client.cc:197-221 | finds the leader's reply exactly when the leader of the latest view replied and no replica before it in index order replied from a later session |
| NopaxosClient.CountMatching | replication/nopaxos/client.cc:223-234 | counts the replies that name the same view, session and operation |
| NopaxosClient.Client.HandleReply | replication/nopaxos/client.cc:184-241 | completes if and only if Completes holds of the stored replies, with the leader's reply; otherwise stores the reply or ignores it |
| NopaxosClient.CompletesInOneView | replication/nopaxos/client.cc:184-241 | within one view and session it completes if and only if the leader replied and f+1 replies name its slot |
| NopaxosCompletion.CompletionDurable | replication/nopaxos/client.cc:184-241 | when the client completes, from then on f+1 replicas including the leader have the request at that operation, and no replica ever has a no-op or another request there in the view |
| NopaxosExecution.Executor.ExecuteUpTo | replication/nopaxos/replica.cc:1060-1130 | after any interleaving of appending, overwriting the unexecuted part, changing views and executing, the state is that of one replay of the executed log, each operation in the view of its time |
| NopaxosExecution.Executor.Execute | replication/nopaxos/replica.cc:1079-1128 | skips stale, re-answers duplicate and executes new requests |
| NopaxosExecution.ReplayInOrder | replication/nopaxos/replica.cc:1060-1177 | each request is executed at most once, in increasing order per client, and the table knows the last one |
| NopaxosExecution.ExecutedExactly | replication/nopaxos/replica.cc:1079-1107 | what is executed is exactly the requests that no earlier operation of their client supersedes, whoever led when |
| NopaxosExecution.AnswerExact | replication/nopaxos/replica.cc:1083-1127 | every answer is to a request that ran: its result at once, and later what the table kept |
| NopaxosExecution.AnswerIsResult | replication/nopaxos/replica.cc:1093-1127 | an answer is the result of the request's execution if and only if it was given right then, or the replica led when it executed the request, or the result it kept before is equal |
| NopaxosExecution.OneAnswer | replication/nopaxos/replica.cc:1083-1127 | two answers to one request agree if and only if its result was kept or equal, or both were given at its execution or neither was |
| NopaxosExecution.WrongAnswer | replication/nopaxos/replica.cc:1159-1177 | a replica that leads, follows and leads again answers a repeat with the earlier request's result |
| NopaxosExecution.EmptyAnswer | replication/nopaxos/replica.cc:1159-1177 | a replica that never led before answers a repeat with nothing |
| FastPaxosSafety.ReplyHolds | replication/fastpaxos/replica.cc:546-570 | a reply that the leader counts comes from a replica that holds the leader's request |
| FastPaxosSafety.InvNext | replication/fastpaxos/replica.cc:256-291 | every step keeps: slow paths are prefixes of the leader's log, counters are ordered, executed operations are a prefix |
| FastPaxosSafety.AlwaysDeliverable | replication/fastpaxos/replica.cc:720-790 | a transfer reply always meets the assertions at its requester |
| FastPaxosRuns.Agreement | replication/fastpaxos/replica.cc:101-151 | what any two replicas have executed at any two times, one is a prefix of the other |
| FastPaxosRuns.AtMostOnce | replication/fastpaxos/replica.cc:294-339 | no replica executes two operations with one request identity |
| FastPaxosRuns.Durable | replication/fastpaxos/replica.cc:572-612 | a quorum of replies for an operation means that from then on that many replicas hold the leader's request there, on the slow path everything before it too |
| FastPaxosRuns.CommitPointHeld | replication/fastpaxos/replica.cc:579-591 | the operation at the leader's commit point is always on f+1 replicas |
| FastPaxosRuns.BackedHeld | replication/fastpaxos/replica.cc:572-612 | an operation that was the commit point, or for which enough replies were counted, or on the slow path for a later one, is on f+1 replicas with the leader's request from then on |
| FastPaxosRuns.CommittedWithoutQuorum | replication/fastpaxos/replica.cc:579-591 | a run in which an earlier committed operation is on the leader only |
| FastPaxosEffects.LeaderExactly | replication/fastpaxos/replica.cc:294-612 | over every run, the leader's log is exactly the requests that were new when it received them, in that order, and it has committed exactly up to where enough replies were counted |
| FastPaxosEffects.LeaderRequestEffect | replication/fastpaxos/replica.cc:294-400 | a request at the leader is appended if and only if no earlier one of its client has as high a number |
| FastPaxosEffects.FollowerRequestEffect | replication/fastpaxos/replica.cc:294-400 | a follower appends a request and replies on the fast path if and only if its number is new to it |
| FastPaxosEffects.PrepareEffect | replication/fastpaxos/replica.cc:425-506 | the next prepare puts the leader's request on the slow path; it is acknowledged if and only if it is there then, and otherwise a transfer is asked for |
| FastPaxosEffects.CommitEffect | replication/fastpaxos/replica.cc:616-665 | a commit executes exactly the leader's log up to it if and only if it is new, the follower has the operation and its slow path reaches it or the one before; a transfer is asked for if and only if it lacks the operation |
| FastPaxosEffects.AckEffect | replication/fastpaxos/replica.cc:509-613 | a reply commits if and only if it counts and enough of its path were counted with it; the one that makes them enough is announced; a conflicting one has the prepare sent |
| FastPaxosEffects.TransferRequestEffect | replication/fastpaxos/replica.cc:669-703 | the leader answers with all that follows the requester's commit point |
| FastPaxosEffects.TransferEffect | replication/fastpaxos/replica.cc:706-792 | the slow path becomes the leader's log at least to the end of the transfer, executed up to its commit point, and exactly the new uncommitted operations are acknowledged |
| FastPaxosEffects.ResendEffect | replication/fastpaxos/replica.cc:242-253 | the last request is sent as a prepare if and only if something is uncommitted |
| FastPaxosEffects.OthersIgnored | replication/fastpaxos/replica.cc:256-291 | messages for the other role change nothing |
| FastPaxosReplica.Process.Commit | replication/fastpaxos/replica.cc:101-151 | the loop executes exactly the operations up to the point and raises the slow path |
| FastPaxosReplica.Process.OnRequest | replication/fastpaxos/replica.cc:294-400 | the protocol's handling of a request, messages included |
| FastPaxosReplica.Process.OnPrepare | replication/fastpaxos/replica.cc:425-506 | adopts the leader's request as next slow-path operation, re-acknowledges, or asks for a transfer |
| FastPaxosReplica.Process.OnPrepareOK | replication/fastpaxos/replica.cc:509-613 | counts, commits at the quorum of the path, announces once, resends on conflict |
| FastPaxosReplica.Process.OnCommit | replication/fastpaxos/replica.cc:616-665 | commits, overwriting the next operation if needed, or asks for a transfer, or ignores |
| FastPaxosReplica.Process.SendPrepareOKs | replication/fastpaxos/replica.cc:154-187 | acknowledges exactly the new uncommitted slow-path operations and records their requests |
| FastPaxosReplica.Process.OnStateTransfer | replication/fastpaxos/replica.cc:706-792 | takes over entries beyond the slow path, commits and acknowledges |
| VrSafety.FollowerPrepare | replication/vr/replica.cc:597-675 | overlapping, repeated and early prepares keep the log a prefix of the leader's |
| VrSafety.FollowerTransfer | replication/vr/replica.cc:824-899 | a transfer from any replica of the view keeps it a prefix |
| VrSafety.LeadPrepareOK | replication/vr/replica.cc:678-749 | counting, committing, announcing and closing the next batch keep the leader in order |
| VrRuns.InvNext | replication/vr/replica.cc:411-461 | every step keeps the invariant and nothing goes back |
| VrRuns.AlwaysReadable | replication/vr/replica.cc:623-624 | the assertions on the shape of messages hold at every receiver |
| VrRuns.LogsArePrefixes | replication/vr/replica.cc:597-675 | every replica's log is a prefix of the leader's, then and at every later time |
| VrRuns.Agreement | replication/vr/replica.cc:151-201 | executed sequences of any two replicas at any two times are comparable |
| VrRuns.AtMostOnce | replication/vr/replica.cc:489-521 | no request is executed twice |
| VrRuns.CommitDurable | replication/vr/replica.cc:678-749 | what any replica committed is from then on in the logs of f+1 replicas |
| VrRuns.BatchesPartition | replication/vr/replica.cc:374-408 | in every reachable state each operation up to the last batch's end is in exactly one closed batch, and no batch has another |
| VrRuns.PreparesAreBatches | replication/vr/replica.cc:374-408 | every prepare ever sent is one of the closed batches and carries exactly the leader's operations of that batch |
| VrEffects.LeaderExactly | replication/vr/replica.cc:464-749 | over every run, the leader's log is the base and then exactly the requests to be replicated that were new when they arrived, in that order; it has committed exactly up to where it began or enough followers acknowledged |
| VrEffects.ArriveEffect | replication/vr/replica.cc:464-572 | a request is appended if and only if it is to be replicated and new; the batch is closed if and only if none is out or enough has gathered |
| VrEffects.AckEffect | replication/vr/replica.cc:678-749 | an acknowledgement commits if and only if with it f followers have acknowledged; the one that makes them enough is announced, and closes the next batch if it was for the one that is out |
| VrEffects.PrepareEffect | replication/vr/replica.cc:597-675 | a prepare brings a follower that has what precedes it to its last operation; acknowledged if and only if it then has that, otherwise a transfer is asked for |
| VrEffects.CommitEffect | replication/vr/replica.cc:752-790 | a commit executes exactly the leader's operations up to it if and only if the follower has them; otherwise a transfer is asked for |
| VrEffects.TransferRequestEffect | replication/vr/replica.cc:793-821 | a replica answers with all that follows the requester's commit point, and its own commit point |
| VrEffects.TransferEffect | replication/vr/replica.cc:824-899 | the log becomes the leader's at least to the end of the transfer, executed up to its commit point, and exactly the new uncommitted operations are acknowledged |
| VrEffects.TimerEffect | replication/vr/replica.cc:330-408 | the gathered batch goes out, the last prepare or the commit point is repeated |
| VrEffects.OthersIgnored | replication/vr/replica.cc:411-461 | messages for the other role change nothing |
| VrReplica.Process.constructor | replication/vr/replica.cc:278-303 | a replica enters the view with the base log, nothing in a batch and no votes |
| VrReplica.Process.Execute | replication/vr/replica.cc:151-201 | the loop executes exactly the operations up to the point |
| VrReplica.Process.SendBatch | replication/vr/replica.cc:374-408 | sends exactly the operations since the last batch |
| VrReplica.Process.OnRequest | replication/vr/replica.cc:464-572 | duplicate, refused and replicated requests, and when the batch is closed |
| VrReplica.Process.OnPrepare | replication/vr/replica.cc:597-675 | the loop appends exactly the operations that are missing |
| VrTables.TableAssertionHolds | replication/vr/replica.cc:344-350 | with tables that match on entering the view, no request is ever recorded below its client's newest number, at any follower, for any prepare or state transfer, in any run |
| VrTables.ReachableTables | replication/vr/replica.cc:344-359 | every follower's table then holds exactly the newest request of each client in its log |
| VrReplica.Process.OnPrepareOK | replication/vr/replica.cc:678-749 | the protocol's handling of an acknowledgement |
| VrReplica.Process.OnCommit | replication/vr/replica.cc:752-790 | commits, ignores or asks for a transfer |
| VrReplica.Process.OnStateTransfer | replication/vr/replica.cc:824-899 | appends new entries, commits, acknowledges exactly the new uncommitted ones |
| ErisSafety.ReceivedOk | transaction/eris/fcor.cc:121-162 | a received transaction is decided as a whole, and decisions only grow |
| ErisSafety.SettleOk | transaction/eris/server.cc:1106-1117 | processing messages decided ahead keeps the server in order |
| ErisSafety.InvNext | transaction/eris/server.cc:335-460 | every step of coordinator and servers keeps the invariant |
| ErisRuns.OneFate | transaction/eris/fcor.cc:121-194 | no transaction has one stamp found and another dropped, not even at different times |
| ErisRuns.DecisionsStand | transaction/eris/fcor.cc:154-161 | a decided stamp never changes its fate |
| ErisRuns.DropSetsDisjoint | transaction/eris/server.cc:1720-1841 | temporary, permanent and revoked drops of every server are pairwise disjoint |
| ErisRuns.AssertionsHold | transaction/eris/server.cc:1066-1117 | the conflict assertions on found, dropped and skipped messages hold for every message at every server at every time, also one by one while drop sets are merged and on the merged sets |
| ErisRuns.NumbersRise | transaction/eris/server.cc:1661-1682 | the numbers of a new log entry are above those of every entry before it in all shards, even one dropped since |
| ErisChecks.CheckFails | transaction/eris/server.cc:361-373 | a run after which a check violates its assertion |
| ErisChecks.CheckStops | transaction/eris/server.cc:361-373 | over all runs, a check violates its assertion if and only if the stamp is promised and the server passed its transaction without dropping it |
| ErisChecks.CheckStopsForeign | transaction/eris/server.cc:361-373 | without merged drop sets, if and only if moreover the stamp is another shard's |
| ErisRuns.LogsAgree | transaction/eris/server.cc:1029-1117 | servers of a shard never process different transactions at one position; where one skips what another processed, nobody has it as found |
| ErisRuns.NoDropWithoutPromises | transaction/eris/fcor.cc:165-273 | a dropped stamp means that in every shard f+1 replicas with that view's leader promised, in one view, to drop it or another stamp of its transaction |
| ErisEffects.CheckEffect | transaction/eris/server.cc:339-400 | over every run, a server answers a check with the transaction if and only if it has passed it, and promises, and remembers, to drop the stamp if and only if it has not; it is silent about what is decided and when it promised to drop what it has passed since |
| ErisEffects.PromisesMeant | transaction/eris/server.cc:388-392 | every promise ever sent was made by a server that had not passed the transaction then and remembered the promise |
| ErisEffects.ArriveEffect | transaction/eris/server.cc:980-1117 | an arriving transaction is entered if and only if it comes next and is not promised away |
| ErisEffects.GapReplyEffect | transaction/eris/server.cc:299-332 | and so is another server's entry |
| ErisEffects.FoundEffect | transaction/eris/server.cc:401-430 | what is found is no longer promised away under any stamp, and is entered if and only if it comes next |
| ErisEffects.DropEffect | transaction/eris/server.cc:431-460 | what is dropped is skipped in the log, or as the next message if and only if it comes next |
| ErisEffects.DropsEffect | transaction/eris/server.cc:1791-1809 | another server's drop sets are taken over, and what it knows decided is no longer promised away |
| ErisEffects.InfoEffect | transaction/eris/fcor.cc:99-118 | a request for information has the stamp checked, and what is decided repeated |
| ErisEffects.ReceivedEffect | transaction/eris/fcor.cc:121-162 | a received transaction is decided for all its open stamps, dropped if and only if one was dropped before, and the shards are told |
| ErisEffects.PromiseEffect | transaction/eris/fcor.cc:165-273 | an open stamp is dropped, and its shard told, if and only if enough promises of every shard's latest view, with its leader's, have been received |
| ErisObjects.Renew | transaction/eris/fcor.cc:197-235 | the scan, in any order, keeps one promise per replica, all of the latest view |
| ErisObjects.FailureCoordinator.OnTxnReceived | transaction/eris/fcor.cc:121-162 | the three loops compute the protocol's decision and messages |
| ErisObjects.FailureCoordinator.OnTempDropped | transaction/eris/fcor.cc:165-194 | records the promise and drops when every shard has promised |
| ErisObjects.FailureCoordinator.Promised | transaction/eris/fcor.cc:241-273 | true exactly when every shard has a quorum of promises with the leader's |
| ErisObjects.ErisServer.constructor | transaction/eris/server.cc:45-67 | a server starts with an empty log and no drops, in view 0, and meets what the methods rely on |
| ErisObjects.ErisServer.OnCheck | transaction/eris/server.cc:335-400 | answers with the transaction found through the index, promises, or reports that the assertion fails, exactly when it does |
| ErisObjects.ErisServer.InstallLogEntry | transaction/eris/server.cc:1661-1682 | the index names exactly the stamps of the processed transactions, each with its operation |
| ErisObjects.ErisServer.AddUnDrop | transaction/eris/server.cc:1732-1754 | all stamps are revoked, the transaction kept under its own stamp |
| ErisObjects.ErisServer.AddPermDrop | transaction/eris/server.cc:1757-1788 | the stamp is dropped for good, the transaction found through the index is skipped and leaves the index under all its stamps, so that the index stays exact |
| ErisObjects.ErisServer.Merge | transaction/eris/server.cc:1791-1809 | the three loops take over another server's drop sets, index kept exact |
| ErisObjects.ReachableIssues | transaction/eris/server.cc:1029-1117 | in every reachable state a server meets what these methods rely on |
| ErisObjects.ErisServer.Process | transaction/eris/server.cc:1029-1117 | the recursion appends what comes next and whatever follows and is decided |
| ErisSequencing.Sequencer.Receive | transaction/eris/sequencer.cc:16-40 | each listed group's number is the count of packets sent to it |
| ErisSequencing.NumbersConsecutive | transaction/eris/sequencer.cc:16-40 | each group's numbers run from 1 without a hole |
| ErisSequencing.StampNamesPacket | transaction/eris/sequencer.cc:16-40 | a group and a number name one packet |
| ErisSequencing.SameOrderEverywhere | transaction/eris/sequencer.cc:16-40 | packets sharing groups are ordered the same way in all of them |
| ErisSequencing.NoCycle | transaction/eris/sequencer.cc:16-40 | the union of all groups' orders has no cycle |
| ErisSequencing.SequencerMakesEpoch | transaction/eris/sequencer.cc:16-40 | what the sequencer issues satisfies everything the server proofs rely on, the common order included |
| ErisSequencing.HeaderCounts | transaction/eris/sequencer.cc:22-36 | the numbers written into the header are the counts of packets per group |
| ErisHeader.Serialize | transaction/eris/message.cc:90-110 | into any buffer, the packet's format, its size as computed, with groups and payload in place |
| ErisHeader.Stamp | transaction/eris/sequencer.cc:16-40 | of any number of groups, fills in the session and the numbers of those the count's byte covers, sends the packet to those, and touches nothing else; without header it goes nowhere |
| ErisHeader.Parse | transaction/eris/message.cc:52-88 | reads any packet whose header lies within it: session, the groups counted, and the payload after them; without a header all is payload |
| ErisHeader.ParseStamped | transaction/eris/message.cc:52-88 | of n stamped groups n % 256 are read, and the payload is taken from right after them |
| ErisHeader.ParseExactly | transaction/eris/types.h:22-24 | a packet is parsed to what was stamped if and only if there are fewer than 256 groups |
| ErisHeader.ParsesToNothing | transaction/eris/types.h:22-24 | a packet for 256 groups reads as one without any, its payload as the start of its groups |
| ErisHeader.ParseUnstamped | transaction/eris/message.cc:52-88 | a packet without stamp is parsed to its payload |
| ErisHeader.RoundTrip | transaction/eris/message.cc:14-110 | serialize, stamp and parse reach all groups and give the assigned session and numbers and the unchanged payload if and only if there are fewer than 256 groups; with more, only those counted get the packet, and the payload read starts in the others |
| UdpFragments.Cut | lib/udptransport.cc:389-418 | the pieces are in order, as many as needed, and concatenate to the body |
| UdpFragments.Send | lib/udptransport.cc:362-419 | whole when it fits, in pieces under a new number otherwise |
| UdpFragments.Receiver.OnPacket | lib/udptransport.cc:478-530 | the reassembly branch as a function of the buffer and the packet |
| UdpFragments.DeliveredWasSent | lib/udptransport.cc:482-530 | under any loss, repetition and reordering the buffer is a prefix of one sent message and everything put together was sent |
| UdpFragments.InOrder | lib/udptransport.cc:388-530 | pieces received in order are put together to exactly the message, and nothing is left behind |
| UdpFragments.CopyNeverFits | lib/udptransport.cc:520-525 | a message delivered from pieces never fits the one-byte buffer it is copied into |
| UdpFragments.StopsExactly | lib/udptransport.cc:499-508 | genuine packets stop the receiver if and only if a piece of an older message comes while a newer one is incomplete |
| UdpFragments.OrderedNeverStops | lib/udptransport.cc:499-508 | a network that keeps the order of messages never stops it, whatever it loses or repeats |
| UdpFragments.SwappedStops | lib/udptransport.cc:499-508 | two first pieces in the wrong order stop it |

## Left out

- PBFT and TOMBFT, which are partial implementations.
- Timers as durations, sockets, address lookup and protobuf encoding: timers are steps that may fire, messages are values.
- Wrap-around of 64-bit numbers.
- Speculative Paxos sync messages, view-change triggering and the exchange of gap-filling messages: the merge, before and after it, rollback and installation are modelled.
- Speculative Paxos and VR across views: both report the view of the last log entry, so nothing is claimed about commits surviving a view change as coded.
- VR recovery.
- VrReplica.Process.OnStateTransfer: within a view every replica has the same entries of older views, so that replacing one does not occur.
- VrTables.TableAssertionHolds: the leader's own table, which also records requests that are not replicated, needs no such lemma: it records only requests above the client's newest number.
- NOPaxos start-view messages at the followers (replication/nopaxos/replica.cc:637-726): what they install is what the new leader has when it enters.
- NopaxosNewLeader.NewLeader.HandleViewChanges: the next message number is not kept; it plays no part until the view is entered.
- NOPaxos start-view replies, whose only effect within a view is to commit the base log; replicas enter with any commit point up to it.
- NOPaxos pending requests: a request that cannot be processed yet stays deliverable.
- NopaxosViews.MaximaOfReports: identifiers only; logs are the subject of NopaxosMerge and NopaxosViewChange.
- FastPaxosRuns.CommitPointHeld: says nothing about operations before the commit point; BackedHeld says which of them are held.
- The view field of Fast Paxos: it never changes, so messages of other views do not occur.
- Eris epoch changes and coordinator failover; one epoch and one coordinator are modelled.
- Eris execution and locking, and the assertion that a dropped transaction was not executed: promises are checked for the server's own stamp only.
- Eris servers that a check stopped: in the model they neither answer nor change, and may go on.
- Eris view changes beyond the exchange of drop sets.
- ErisHeader.RoundTrip: the payload is opaque; copying the numbers into the parsed request is not modelled.
- Granola, Spanner and TAPIR, benchmarks, tracing and configuration files.
- Quorum sets are sets of replica numbers per operation; the stored messages themselves matter only in the merges.
