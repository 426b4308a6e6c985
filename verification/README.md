# Verified models of HACEP and of the algorithms its console ships

HACEP keeps one rule session per fact group on the primary node of the group and serialized copies of
it on the other owners. This project models that replication protocol, and the algorithms of the two
scripts that the example console carries: `d3.js` (hull, quadtree, delimiter-separated values, bounded
queue, `stratify`, red-black tree) and `stomp.js` (STOMP framing). `dafny verify dfyconfig.toml` checks
everything.

## The modules

| module | about |
|---|---|
| `Options` | a value that may be missing |
| `RulesEngine` | the rule engine as the session code uses it: pure functions to create, insert, fire, send and migrate, a pseudo clock and channels; the laws that replay relies on, and engines that meet them |
| `SerializedSession` | a replica as a value: bytes, version, buffer, background snapshot; each step of the code as a function; which group state a replica stands for |
| `SessionCluster` | all nodes that own one group, as a state machine; whole runs compared with one node that never fails |
| `Takeover` | what such a cluster can always do next: settle, take over, upgrade, let a node join, finish a snapshot |
| `UpgradeInFlight` | a rules upgrade while a snapshot task holds a session: exactly when it does no harm |
| `CatchUpRace` | catching up with the rules at the grain of single fields, the adding thread beside the snapshot task: exactly which schedules lose facts |
| `StateTransfer` | the externalizers of live and serialized sessions |
| `SnapshotLatch` | compare-and-set, latch, tasks and rebuild of one replica at the grain of their shared fields |
| `SnapshotWait` | whether a rebuild that waits for a snapshot ever goes on |
| `Sessions` | the session classes, the delta merge and the saver as objects, each method proved against the steps above |
| `NamedLocks` | the lock table, the monitors and the critical section of the saver, for any number of threads |
| `VersionUpdate` | the cluster-wide change of the rules version with its put and put back |
| `ConsecutiveDays` | the accumulate function with its day buckets |
| `Dsv` | formatter and tokenizer of delimiter-separated values (compare section 2 of RFC 4180) |
| `Utf8` | the octets of a text and back (compare section 3 of RFC 3629) |
| `Stomp`, `StompStream` | marshalling, chunking, reassembling and unmarshalling (compare the section "STOMP Frames" of STOMP 1.1); whole streams of frames with padding, cut anywhere |
| `Hull` | the convex hull: the monotone chain of each side, and the polygon of both |
| `Quadtree` | add, cover and nearest neighbour, over the reals |
| `RedBlackShape`, `RedBlackLinks`, `RedBlackTree` | the threaded red-black tree: trees and contexts as values, linked nodes on the heap, insertion and removal |
| `BoundedQueue` | the queue of deferred tasks |
| `Stratify` | the tree builder and the height climb |

## What is assumed

- The rule engine is any choice of pure functions. Replay relies on four laws (`RulesEngine.Lawful`):
  migrating to the same version is the identity, migrations compose, a new session migrates to a new
  session, and a firing between two insertions leaves no trace in what the next firing produces. They
  are explicit hypotheses; `RunningSum`, `RewardPoints` and `UpgradeInFlight.Free` are engines that
  meet them, and the last law is exactly what a batch replay needs (`BatchFiringNeedsTheLaw`).
  Marshalling keeps memory and clock and loses the listeners.
- In `SessionCluster` the compare-and-set of `createSnapshot` and its new latch are one step;
  upgrades and transfers happen while no snapshot is submitted or running; a snapshot is submitted only
  by an addition, which has caught up with the rules; deltas are delivered to all owners reliably and
  in order; a node takes over when all deltas are merged; nothing is thrown between a rebuild and the
  put that follows; one version holds for the whole cluster, since the listener is synchronous.
  `SnapshotLatch` takes the first of these apart, `CatchUpRace` and `UpgradeInFlight` the second,
  `TransferKeepsReplica` and `WriterConserves` that of transfers: each with the exact condition
  under which nothing goes wrong without it.
- Executors, the data grid, the web socket and rule firing are parameters or steps of the environment:
  which node refuses a version, what a deferred task does when it is started, when a task of the
  executor gets its next step.

## What the proofs turned up

- `createSnapshot` sets `saving` to false before it counts the latch down, and `latch` is a field. A
  late count down can therefore open the latch of the *next* snapshot, and a rebuild then reads bytes
  that lack facts (`LateCountDownMissesFacts`). A rebuild that looks between the compare-and-set and
  the new latch waits for the old one (`EarlyCheckMissesFacts`, `EarlyReadMissesFacts`).
  `RebuildIsComplete` says for every schedule whether it did harm; with both pairs made one step only a
  failing task can (`RebuildSeesAllOfHistory`).
- In the same window a rebuild can await a latch that nobody opens any more, and never returns
  (`RebuildWaitsForEver`; `RebuildCanFinish` is the exact condition).
- A snapshot that fails after draining facts loses exactly those facts (`SnapshotConservation`).
- An upgrade while a snapshot is submitted sends the adding thread and the job into
  `rebuildSessionAndUpgrade` together; they share the buffer, and the later assignment of the bytes wins
  (`RaceLosesFacts`). `CatchUpConserves` is the exact condition, `LaterAssignmentWins` the one for two
  of them. A state transfer that reads bytes and buffer around an assignment has the same gap
  (`WriterConserves`).
- An upgrade in the middle of a snapshot can lose facts (`UpgradeDuringSnapshotLosesFacts`), fire facts
  under rules that came later (`UpgradeDuringSnapshotFiresUnderLaterRules`), and leave the old version
  label on bytes of the new rules. `UpgradeWhileSaving` says exactly when it does none of this.
- A replica without bytes has nowhere to put its version on the wire, so facts that arrived under one
  version can be replayed under another after a transfer (`TransferCanReplayUnderALaterVersion`).
- Nor is the count of buffered facts on the wire, so a transferred replica buffers up to the maximum once
  more before it submits a snapshot (`TransferRestartsTheCount`).
- Live output is exactly once but for a node that dies between firing and put: what it sent stays
  sent, although its put never happened (`LiveOutputExactlyOnce`, `DyingInTheWindowIsHeard`).
- `UpdateVersionListener` compares the group and artifact ids with the *key* of the event
  (`SameGroupIsRefused`).
- A day ends 432 seconds early in `ConsecutiveDaysAccumulateFunction` (`CalendarDay`).
- `formatRows` loses an empty field at the very end and unquoted carriage returns (`RoundTrip` says
  exactly when). The delimiter goes into its regular expression as it is, so that fields with a `]` or
  a backslash in them are not quoted for themselves (`DelimiterIsNotQuoted`), for `]` next to nothing
  is (`LineFeedIsNotQuoted`, `QuotesAreNotQuoted`), and `-` throws.
- With one-character socket frames STOMP frames lose their command (`EndToEnd`), and so they do when a
  message begins with line feeds that follow the previous frame and is not a lone one
  (`ReceivePadded` is the exact condition, `PaddingInItsOwnMessage` an instance).
- A task that reports a result and then throws stops the bounded queue for good if another one is
  waiting or comes later (`SpoiledQueue`; `AnsweredUnlessStuck` is the exact condition). An `abort`
  after the answer runs the await callback a second time (`LateAbort`; `AwaitedExactlyOnce`).
- A `content-length` that is no number makes the client take the text above the body for the body, and a
  negative one the end of that text (`BodyOfLength`).
- After the quadtree has grown, a point on a former border gets a second leaf when it is added again
  (`BorderPointHasTwoLeaves`).

## Model

| member | source | states |
|---|---|---|
| `SessionCluster.FailoverRefinement` | hacep-core/src/main/java/it/redhat/hacep/cache/session/KieSessionSaver.java:46-75 | after any run of inserts, deliveries, snapshot steps, joins, crashes, takeovers and upgrades, every surviving node stands for the state one never-failing node has after a prefix of the logged facts and upgrades; exactly the facts in its inbox are missing |
| `SessionCluster.SettledNodesAgree` | hacep-core/src/main/java/it/redhat/hacep/cache/session/KieSessionSaver.java:46-75 | once all deltas are merged, every node stands for the state of the never-failing node |
| `SessionCluster.PromotedSessionIsExact` | hacep-core/src/main/java/it/redhat/hacep/cache/session/HAKieSerializedSession.java:123-130 | the session the saver opens on whatever node is primary has the state of the never-failing node, and live listeners on exactly the live channels |
| `SessionCluster.KeptOutputIsSingleOutput` | hacep-core/src/main/java/it/redhat/hacep/cache/session/HAKieSerializedSession.java:170-183 | the live output of all puts that completed, over any run, is the live output of the never-failing node |
| `SessionCluster.LiveOutputExactlyOnce` | hacep-core/src/main/java/it/redhat/hacep/cache/session/HAKieSession.java:67-76 | the whole live output equals that of the never-failing node if and only if every fact whose node dies between firing and put is one on which the never-failing node would have sent nothing; the condition speaks of the steps alone |
| `SessionCluster.OrphanedIsLost` | hacep-core/src/main/java/it/redhat/hacep/cache/session/HAKieSession.java:67-76 | what dying nodes send is, fact by fact, what the never-failing node would have sent at that moment of the log |
| `SessionCluster.DyingInTheWindowIsHeard` | hacep-core/src/main/java/it/redhat/hacep/cache/session/KieSessionSaver.java:64-71 | a concrete run in which the client hears a sum that no node keeps |
| `SessionCluster.RunKeepsInv` | hacep-core/src/main/java/it/redhat/hacep/cache/session/KieSessionSaver.java:46-75 | every reachable cluster keeps every node on a prefix of the log |
| `SessionCluster.InsertKeepsInv` | hacep-core/src/main/java/it/redhat/hacep/cache/session/KieSessionSaver.java:46-75 | an insert on the primary keeps all nodes on the log extended by the fact |
| `SessionCluster.UpgradeKeepsInv` | hacep-core/src/main/java/it/redhat/hacep/configuration/RulesManager.java:80-98 | an upgrade while no snapshot is submitted, at once on live sessions and lazily on replicas, keeps all nodes on the log extended by it |
| `SessionCluster.StepKeepsInv` | hacep-core/src/main/java/it/redhat/hacep/cache/session/HAKieSerializedSession.java:95-140 | deliveries, snapshot steps, joins, crashes and takeovers change nothing of what the nodes stand for |
| `SessionCluster.MergeMeaning` | hacep-core/src/main/java/it/redhat/hacep/cache/session/HAKieSessionDeltaFact.java:47-67 | merging a delta into no value, a replica or a live object processes exactly its fact, silently |
| `SessionCluster.DeliverFollows` | hacep-core/src/main/java/it/redhat/hacep/cache/session/HAKieSessionDeltaFact.java:47-67 | a node that merges the oldest delta of its inbox moves one fact along the log |
| `SessionCluster.OpenedMeaning` | hacep-core/src/main/java/it/redhat/hacep/cache/session/KieSessionSaver.java:50-63 | created, reused or rebuilt, the opened session has the state its copy stood for |
| `SessionCluster.InsertedMeaning` | hacep-core/src/main/java/it/redhat/hacep/cache/session/HAKieSession.java:67-76 | an insert processes its fact on that state, and live listeners hear what they hear on the never-failing node |
| `SessionCluster.UpgradedMeaning` | hacep-core/src/main/java/it/redhat/hacep/configuration/RulesManager.java:80-98 | what a copy stands for migrates when the version changes, whether the copy itself is touched or not |
| `SessionCluster.TransferredMeaning` | hacep-core/src/main/java/it/redhat/hacep/cache/session/HAKieSerializedSession.java:232-268 | a transfer while no snapshot is submitted keeps what the copy stands for |
| `Takeover.TakeoverIsAlwaysPossible` | hacep-core/src/main/java/it/redhat/hacep/cache/session/KieSessionSaver.java:46-75 | from every reachable cluster and for every surviving node: deliveries and steps of snapshot tasks lead to a takeover by that node, and after the next insert its live session is in the state of the never-failing node |
| `Takeover.TakeoverSucceeds` | hacep-core/src/main/java/it/redhat/hacep/cache/session/KieSessionSaver.java:50-63 | as soon as all deltas are merged, any surviving node without a submitted snapshot, replica or not, can be promoted and insert, and is then live in the state of the never-failing node on the log and the fact |
| `Takeover.OthersMayCrash` | hacep-core/src/main/java/it/redhat/hacep/cache/session/KieSessionSaver.java:46-75 | when another node than the primary crashes, the primary goes on inserting into its session |
| `Takeover.UpgradeIsAlwaysPossible` | hacep-core/src/main/java/it/redhat/hacep/configuration/RulesManager.java:80-98 | in the same way the rules can always be upgraded, and every node then stands for the migrated state of the never-failing node |
| `Takeover.JoinSucceeds` | hacep-core/src/main/java/it/redhat/hacep/cache/session/HAKieSerializedSession.java:232-268 | a node can join from any node at rest, unless that has no bytes and an old version, and stands for the state of the never-failing node |
| `Takeover.SnapshotHoldsTheState` | hacep-core/src/main/java/it/redhat/hacep/cache/session/HAKieSerializedSession.java:95-121 | a submitted snapshot can be finished, and then the bytes alone, with an empty buffer, are the state of the never-failing node |
| `Takeover.PendingStep` | hacep-core/src/main/java/it/redhat/hacep/cache/session/HAKieSerializedSession.java:95-140 | a node that is not at rest has a next delivery or task step; it is enabled, brings the node nearer to rest and touches no other |
| `Takeover.Failover` | hacep-core/src/test/java/it/redhat/hacep/cluster/ClusterTest.java:141-169 | a concrete run of two nodes: a sum, a crash, a takeover from the replica and a second insert; the state is the total and both sums have been heard |
| `UpgradeInFlight.UpgradeWhileSaving` | hacep-core/src/main/java/it/redhat/hacep/cache/session/HAKieSerializedSession.java:80-121 | when the rules are upgraded while a snapshot task holds a session: what the replica stands for once the job has published is right, for the engine that records every firing, if and only if the job held nothing unfired and the buffer was empty, or all was fired and nothing waited or nothing was added; and, without an addition, both versions have one representation. For every state, every addition and every order of the remaining steps |
| `UpgradeInFlight.HarmlessForEveryEngine` | hacep-core/src/main/java/it/redhat/hacep/cache/session/HAKieSerializedSession.java:80-121 | where nothing was taken or waiting and something is added, the result is right for every lawful engine |
| `UpgradeInFlight.PublishIsAlwaysPossible` | hacep-core/src/main/java/it/redhat/hacep/cache/session/HAKieSerializedSession.java:80-121 | whatever arrives after an upgrade in flight, the interrupted task can publish after it |
| `UpgradeInFlight.FreeIsLawful` | hacep-core/src/main/java/it/redhat/hacep/cache/session/HAKieSerializedSession.java:170-183 | the engine that records every firing with its version meets the laws of replay |
| `UpgradeInFlight.DrainingRun` | hacep-core/src/main/java/it/redhat/hacep/cache/session/HAKieSerializedSession.java:98-121 | whatever is added meanwhile: the job has its facts in order, and only those it had taken before the first addition survive of what was there at the upgrade |
| `UpgradeInFlight.UpgradeDuringSnapshotLosesFacts` | hacep-core/src/main/java/it/redhat/hacep/cache/session/HAKieSerializedSession.java:80-121 | an instance: a fact is lost |
| `UpgradeInFlight.UpgradeDuringSnapshotFiresUnderLaterRules` | hacep-core/src/main/java/it/redhat/hacep/cache/session/HAKieSerializedSession.java:98-121 | an instance without an addition: a fact of the old rules is fired under the new ones |
| `CatchUpRace.CatchUpConserves` | hacep-core/src/main/java/it/redhat/hacep/cache/session/HAKieSerializedSession.java:80-160 | for every schedule of additions, snapshot tasks and upgrades at any moment, with loading, draining, assigning the bytes and assigning the version as steps of their own: bytes and buffer are all of history in order if and only if every fold that took a fact is among those the bytes come from, which is read off the order of the steps alone |
| `CatchUpRace.AccountMatches` | hacep-core/src/main/java/it/redhat/hacep/cache/session/HAKieSerializedSession.java:80-160 | the order of loading, draining and assigning decides which folds the bytes come from and which fold took each fact, whatever the facts and versions |
| `CatchUpRace.WriterConserves` | hacep-core/src/main/java/it/redhat/hacep/cache/session/HAKieSerializedSession.java:232-247 | a state transfer that reads the bytes and then the buffer writes all of history if and only if every fold that took a fact until then is among those the bytes it read come from |
| `CatchUpRace.TurnsConserve` | hacep-core/src/main/java/it/redhat/hacep/cache/session/HAKieSerializedSession.java:80-160 | if no fold overwrites facts assigned after it loaded, and none is given up with facts, a replica at rest holds all of history, whatever upgrades come |
| `CatchUpRace.StepHolds` | hacep-core/src/main/java/it/redhat/hacep/cache/session/HAKieSerializedSession.java:80-160 | a step lets go of a fact if and only if it breaks one of those two rules |
| `CatchUpRace.GivingUp` | hacep-core/src/main/java/it/redhat/hacep/cache/session/HAKieSerializedSession.java:112-118 | a fold can be given up at any moment, and lets go of a fact if and only if it has taken one |
| `CatchUpRace.LaterAssignmentWins` | hacep-core/src/main/java/it/redhat/hacep/cache/session/HAKieSerializedSession.java:146-160 | of two folds under way together, the later assignment keeps all facts if and only if the earlier one took none that it has not |
| `CatchUpRace.LossIsForGood` | hacep-core/src/main/java/it/redhat/hacep/cache/session/HAKieSerializedSession.java:80-160 | what a replica at rest is missing never comes back |
| `CatchUpRace.StepKeepsInv` | hacep-core/src/main/java/it/redhat/hacep/cache/session/HAKieSerializedSession.java:80-160 | every step keeps bytes, sessions under way and what was written to the facts of the folds they come from |
| `CatchUpRace.AdditionIsAlwaysPossible` | hacep-core/src/main/java/it/redhat/hacep/cache/session/HAKieSerializedSession.java:80-121 | from every reachable state, whatever is under way, an addition can be made and a snapshot after it finished, with nothing left in the buffer |
| `CatchUpRace.RaceLosesFacts` | hacep-core/src/main/java/it/redhat/hacep/cache/session/HAKieSerializedSession.java:80-160 | a concrete schedule: an upgrade while a snapshot is submitted, the addition assigns after the job, and a fact is gone |
| `SerializedSession.UpToDateMeaning` | hacep-core/src/main/java/it/redhat/hacep/cache/session/HAKieSerializedSession.java:80-93 | migrating late, skipping versions, reaches the state of migrating at every update |
| `SerializedSession.AddMeaning` | hacep-core/src/main/java/it/redhat/hacep/cache/session/HAKieSerializedSession.java:80-89 | an added fact is processed on the state the replica stood for, also while a snapshot runs (`AddSubmits` says when one is submitted) |
| `SerializedSession.AdditionsSubmit` | hacep-core/src/main/java/it/redhat/hacep/cache/session/HAKieSerializedSession.java:80-98 | however many facts are added to a replica with no snapshot submitted: one is submitted if and only if the buffer has come to hold more than the maximum |
| `SerializedSession.AddSubmits` | hacep-core/src/main/java/it/redhat/hacep/cache/session/HAKieSerializedSession.java:80-98 | an addition submits a snapshot if and only if none is submitted and more facts than the maximum wait, so no more wait without one |
| `SerializedSession.JobKeepsCount` | hacep-core/src/main/java/it/redhat/hacep/cache/session/HAKieSerializedSession.java:170-183 | the count is that of the buffer and of what a draining task has taken; the steps of the task keep it so, and it starts again with the replay |
| `SerializedSession.JobLoadMeaning` | hacep-core/src/main/java/it/redhat/hacep/cache/session/HAKieSerializedSession.java:95-121 | the snapshot start leaves the replica standing for the same state |
| `SerializedSession.JobDrainMeaning` | hacep-core/src/main/java/it/redhat/hacep/cache/session/HAKieSerializedSession.java:170-178 | moving one fact from the buffer into the snapshot leaves it so |
| `SerializedSession.JobFireMeaning` | hacep-core/src/main/java/it/redhat/hacep/cache/session/HAKieSerializedSession.java:178-183 | firing once at the end leaves it so, silently |
| `SerializedSession.JobPublishMeaning` | hacep-core/src/main/java/it/redhat/hacep/cache/session/HAKieSerializedSession.java:105-116 | publishing the bytes leaves it so |
| `SerializedSession.RebuildMeaning` | hacep-core/src/main/java/it/redhat/hacep/cache/session/HAKieSerializedSession.java:123-130 | the rebuilt session has the state the replica stood for, migrated to the current version |
| `SerializedSession.ReplayMeaning` | hacep-core/src/main/java/it/redhat/hacep/cache/session/HAKieSerializedSession.java:170-183 | a batch replay reaches the state of firing after every fact |
| `SerializedSession.ReplayListeners` | hacep-core/src/main/java/it/redhat/hacep/cache/session/HAKieSerializedSession.java:170-183 | a replayed session has live listeners on exactly the live channels |
| `SerializedSession.CatchingUpIsSilent` | hacep-core/src/main/java/it/redhat/hacep/cache/session/HAKieSerializedSession.java:123-183 | no live listener hears a rebuild or an upgrade of a replica |
| `RulesEngine.BatchFiring` | hacep-core/src/main/java/it/redhat/hacep/cache/session/HAKieSerializedSession.java:170-183 | inserting a batch and firing once equals firing after every fact, for a lawful engine |
| `RulesEngine.RunningSumIsLawful` | hacep-core/src/test/java/it/redhat/hacep/cluster/ClusterTest.java:141-169 | the running-sum rules that the cluster test expects meet the laws replay relies on |
| `RulesEngine.RewardPointsIsLawful` | hacep-core/src/main/java/it/redhat/hacep/cache/session/HAKieSerializedSession.java:170-183 | a witness that the laws allow rules that keep conclusions in memory, weighted by the version that drew them |
| `RulesEngine.BatchFiringNeedsTheLaw` | hacep-core/src/main/java/it/redhat/hacep/cache/session/HAKieSerializedSession.java:170-183 | firing once for a batch equals firing after every fact, for all sessions and batches, if and only if a firing between two insertions leaves no trace |
| `RulesEngine.HeardIsOnChannels` | hacep-core/src/main/java/it/redhat/hacep/configuration/RulesManager.java:162-168 | a listener hears all outputs of its channels and no others, each one once and in order |
| `RulesEngine.HeardJoin` | hacep-core/src/main/java/it/redhat/hacep/cache/session/HAKieSession.java:67-76 | what is heard of two batches of outputs is what is heard of the first, then of the second |
| `RulesEngine.ReplayIsHeardOnReplayChannels` | hacep-core/src/main/java/it/redhat/hacep/cache/session/HAKieSerializedSession.java:170-183 | all that a replay sends on the replay channels is heard there, and nothing of it on live ones |
| `RulesEngine.ReplayOfSums` | hacep-core/src/test/java/it/redhat/hacep/cluster/ClusterTest.java:141-169 | replaying facts with the summing rules sends one sum, that of all facts, to the replay channel and nothing to the live one |
| `SerializedSession.CountingRulesDiverge` | hacep-core/src/main/java/it/redhat/hacep/cache/session/HAKieSerializedSession.java:123-183 | rules that count their firings meet the other laws, and a rebuilt replica is then right if and only if at most one fact was replayed |
| `StateTransfer.SerializedRoundTrip` | hacep-core/src/main/java/it/redhat/hacep/cache/session/HAKieSerializedSession.java:232-268 | reading what a replica wrote keeps bytes, version and buffer; without bytes the version becomes that of the reader |
| `StateTransfer.LiveRoundTrip` | hacep-core/src/main/java/it/redhat/hacep/cache/session/HAKieSession.java:133-154 | reading what a live session wrote gives the replica that wraps it |
| `StateTransfer.JoinReadsWhatWasWritten` | hacep-core/src/main/java/it/redhat/hacep/cache/session/HAKieSerializedSession.java:232-268 | the join step of the cluster machine is the writer followed by the reader |
| `StateTransfer.LiveSessionSurvives` | hacep-core/src/main/java/it/redhat/hacep/cache/session/HAKieSession.java:133-154 | a live session that is transferred and rebuilt later is the session migrated to the later version |
| `StateTransfer.TransferKeepsReplica` | hacep-core/src/main/java/it/redhat/hacep/cache/session/HAKieSerializedSession.java:232-268 | a transfer keeps bytes, version and all facts if and only if no snapshot holds a fact and a replica without bytes is on the version of the reader |
| `StateTransfer.TransferCanReplayUnderALaterVersion` | hacep-core/src/main/java/it/redhat/hacep/cache/session/HAKieSerializedSession.java:232-268 | a concrete replica whose fact is replayed under a later version after the transfer |
| `StateTransfer.TransferRestartsTheCount` | hacep-core/src/main/java/it/redhat/hacep/cache/session/HAKieSerializedSession.java:232-268 | the count is not on the wire: a transferred replica submits a snapshot if and only if more facts than the maximum arrive at its new place, however many it brought |
| `SnapshotLatch.SnapshotConservation` | hacep-core/src/main/java/it/redhat/hacep/cache/session/HAKieSerializedSession.java:95-121 | under every interleaving, failing tasks included: until a rebuild reads the bytes, everything ever added is the bytes, then what the running task took, then the buffer, if and only if no task failed with facts it had taken |
| `SnapshotLatch.FailureLosesWhatWasTaken` | hacep-core/src/main/java/it/redhat/hacep/cache/session/HAKieSerializedSession.java:112-118 | a task can fail at any moment before it ends; bytes and buffer stay, and exactly what it has taken goes |
| `SnapshotLatch.RebuildIsComplete` | hacep-core/src/main/java/it/redhat/hacep/cache/session/HAKieSerializedSession.java:95-140 | for every schedule: a finished rebuild got all of the history if and only if no task failed with facts before it read the bytes, no task held facts when it did, and none took one afterwards |
| `SnapshotLatch.StepKeepsOneActive` | hacep-core/src/main/java/it/redhat/hacep/cache/session/HAKieSerializedSession.java:95-121 | each step keeps at most one active task, and its session built on the current bytes |
| `SnapshotLatch.StepAccounted` | hacep-core/src/main/java/it/redhat/hacep/cache/session/HAKieSerializedSession.java:95-140 | a harmless step keeps what remains equal to history, any other one leaves it too short, and what is too short stays so |
| `SnapshotLatch.RebuildSeesAllOfHistory` | hacep-core/src/main/java/it/redhat/hacep/cache/session/HAKieSerializedSession.java:123-140 | if the compare-and-set and the new latch are one step, and so are the end of saving and the count down, a finished rebuild got all of the history if and only if no task failed with facts |
| `SnapshotLatch.StepKeepsGuarded` | hacep-core/src/main/java/it/redhat/hacep/cache/session/HAKieSerializedSession.java:95-140 | the guard of the latch survives every disciplined step |
| `SnapshotLatch.LateCountDownMissesFacts` | hacep-core/src/main/java/it/redhat/hacep/cache/session/HAKieSerializedSession.java:95-121 | without that discipline a late count down opens the next latch: a concrete run that misses a fact |
| `SnapshotLatch.EarlyCheckMissesFacts` | hacep-core/src/main/java/it/redhat/hacep/cache/session/HAKieSerializedSession.java:95-140 | a rebuild that looks between the compare-and-set and the new latch does not wait: a concrete run that misses a fact |
| `SnapshotLatch.EarlyReadMissesFacts` | hacep-core/src/main/java/it/redhat/hacep/cache/session/HAKieSerializedSession.java:95-140 | the same when the job loads only after the rebuild has read the bytes |
| `SnapshotLatch.UndisturbedRebuild` | hacep-core/src/main/java/it/redhat/hacep/cache/session/HAKieSerializedSession.java:123-140 | from any reachable moment past the wait a rebuild can finish, and undisturbed it gets all of the history if and only if no task holds a fact and none was lost before |
| `SnapshotWait.RebuildCanFinish` | hacep-core/src/main/java/it/redhat/hacep/cache/session/HAKieSerializedSession.java:95-140 | from every reachable state some schedule finishes the rebuild if and only if it does not wait for a closed latch that is no longer the current one |
| `SnapshotWait.StrandedForGood` | hacep-core/src/main/java/it/redhat/hacep/cache/session/HAKieSerializedSession.java:132-140 | a rebuild that waits for such a latch waits for ever, whatever happens |
| `SnapshotWait.DisciplinedRebuildFinishes` | hacep-core/src/main/java/it/redhat/hacep/cache/session/HAKieSerializedSession.java:123-140 | if the compare-and-set and the new latch are one step, and so are the end of saving and the count down, a rebuild can always finish |
| `SnapshotWait.RebuildWaitsForEver` | hacep-core/src/main/java/it/redhat/hacep/cache/session/HAKieSerializedSession.java:95-140 | a concrete run of the code as it is: a rebuild waits for ever |
| `SnapshotWait.TaskOpensLatch` | hacep-core/src/main/java/it/redhat/hacep/cache/session/HAKieSerializedSession.java:98-118 | any unfinished task can go on to its end and opens the current latch |
| `Sessions.HAKieSerializedSession.ReplayFacts` | hacep-core/src/main/java/it/redhat/hacep/cache/session/HAKieSerializedSession.java:170-183 | the draining loop computes the replay of the buffer, empties it and sends only what replay sends |
| `Sessions.HAKieSerializedSession.RebuildSessionAndUpgrade` | hacep-core/src/main/java/it/redhat/hacep/cache/session/HAKieSerializedSession.java:146-160 | the object becomes the upgraded replica |
| `Sessions.HAKieSerializedSession.Add` | hacep-core/src/main/java/it/redhat/hacep/cache/session/HAKieSerializedSession.java:80-89 | the object becomes the replica with the fact added, upgraded first if needed, with one more task for the executor exactly if the replica had none and the count exceeds the maximum |
| `Sessions.HAKieSerializedSession.CreateSnapshot` | hacep-core/src/main/java/it/redhat/hacep/cache/session/HAKieSerializedSession.java:95-98 | a new latch with count one and one task more for the executor, unless a snapshot is submitted |
| `Sessions.HAKieSerializedSession.RunSnapshot` | hacep-core/src/main/java/it/redhat/hacep/cache/session/HAKieSerializedSession.java:98-118 | an undisturbed snapshot leaves the bytes of the whole replica, an empty buffer and an open latch |
| `Sessions.HAKieSerializedSession.BuildSession` | hacep-core/src/main/java/it/redhat/hacep/cache/session/HAKieSerializedSession.java:162-168 | the replay of the whole buffer on the session of the bytes, and an empty buffer |
| `Sessions.HAKieSerializedSession.WaitForSnapshotToComplete` | hacep-core/src/main/java/it/redhat/hacep/cache/session/HAKieSerializedSession.java:132-140 | a submitted snapshot has run and the latch is open; without one nothing happens |
| `Sessions.HAKieSerializedSession.Rebuild` | hacep-core/src/main/java/it/redhat/hacep/cache/session/HAKieSerializedSession.java:123-130 | a fresh live object with the session rebuilt after the wait, nothing live heard but what waiting and rebuilding send |
| `Sessions.WaitingChangesNothing` | hacep-core/src/main/java/it/redhat/hacep/cache/session/HAKieSerializedSession.java:123-140 | with or without a submitted snapshot, the session rebuilt after the wait has the state the replica stood for before it, in silence |
| `Sessions.SnapshotAloneIsTheJob` | hacep-core/src/main/java/it/redhat/hacep/cache/session/HAKieSerializedSession.java:95-121 | the undisturbed snapshot is the sequence of the interleaved steps |
| `Sessions.SnapshotsRecur` | hacep-core/src/main/java/it/redhat/hacep/cache/session/HAKieSerializedSession.java:80-121 | after a snapshot the next one is submitted if and only if more facts than the maximum have arrived since |
| `Sessions.HAKieSession.Insert` | hacep-core/src/main/java/it/redhat/hacep/cache/session/HAKieSession.java:67-76 | inserts into the created or kept session and remembers the fact |
| `Sessions.HAKieSession.WrapWithSerializedSession` | hacep-core/src/main/java/it/redhat/hacep/cache/session/HAKieSession.java:60-65 | a fresh replica that stands for the live session |
| `Sessions.MergeFact` | hacep-core/src/main/java/it/redhat/hacep/cache/session/HAKieSessionDeltaFact.java:47-67 | the three kinds of receiver become the merged replica; a replica is updated in place |
| `Sessions.MergeEmpty` | hacep-core/src/main/java/it/redhat/hacep/cache/session/HAKieSessionDeltaEmpty.java:41-46 | what is there stays, and nothing becomes an empty replica |
| `Sessions.ChangeVersion` | hacep-core/src/main/java/it/redhat/hacep/configuration/RulesManager.java:80-98 | an empty version is rejected and a refused one changes nothing; otherwise the rules and every live session of the node move to the version, as in the cluster machine |
| `Sessions.KieSessionSaver.Open` | hacep-core/src/main/java/it/redhat/hacep/cache/session/KieSessionSaver.java:50-63 | creates, reuses or rebuilds the live object, leaving other groups alone |
| `Sessions.KieSessionSaver.Put` | hacep-core/src/main/java/it/redhat/hacep/cache/session/KieSessionSaver.java:68-71 | ships the delta of the object and commits it |
| `Sessions.KieSessionSaver.Insert` | hacep-core/src/main/java/it/redhat/hacep/cache/session/KieSessionSaver.java:46-75 | the group ends with the live session after the fact, and exactly the deltas of the cluster machine are shipped |
| `NamedLocks.OneLockPerGroup` | hacep-core/src/main/java/it/redhat/hacep/cache/session/KieSessionSaver.java:79-89 | for any number of threads and any schedule: same lock if and only if same group, and at most one thread of a group inside |
| `NamedLocks.SessionIsSequential` | hacep-core/src/main/java/it/redhat/hacep/cache/session/KieSessionSaver.java:46-89 | when the inserts of a group are done, its session holds their facts, each once, in the order of entering the monitor |
| `NamedLocks.RealTimeOrder` | hacep-core/src/main/java/it/redhat/hacep/cache/session/KieSessionSaver.java:46-89 | an insert that was done before another one entered stays before it |
| `NamedLocks.NoDeadlock` | hacep-core/src/main/java/it/redhat/hacep/cache/session/KieSessionSaver.java:46-89 | as long as an insert is not done, some thread can move |
| `NamedLocks.StepKeepsInv` | hacep-core/src/main/java/it/redhat/hacep/cache/session/KieSessionSaver.java:46-89 | every step of every thread keeps locks, monitors, order and sessions in agreement |
| `NamedLocks.RunKeepsInv` | hacep-core/src/main/java/it/redhat/hacep/cache/session/KieSessionSaver.java:46-89 | every schedule does |
| `VersionUpdate.ExecuteAgrees` | hacep-core/src/main/java/it/redhat/hacep/cache/RulesUpdateVersionImpl.java:36-67 | which outcome an update has, and that a refused update leaves all nodes and the entry on one version if and only if the versions were equal, or the nodes that stay refused both and the entry goes back |
| `VersionUpdate.ExecuteId` | hacep-core/src/main/java/it/redhat/hacep/cache/RulesUpdateVersionImpl.java:36-67 | updating to `group:artifact:version`: an illegal state exactly if group or artifact is not that of the entries; otherwise it returns exactly if nobody refuses, and then the entry and every node are on the version and nothing else has changed |
| `VersionUpdate.ExecuteTakesIds` | hacep-core/src/main/java/it/redhat/hacep/cache/RulesUpdateVersionImpl.java:36-38 | an argument is illegal exactly if it is not of the form `group:artifact:version`, colons at the end ignored |
| `VersionUpdate.RunAgrees` | hacep-core/src/main/java/it/redhat/hacep/cache/RulesUpdateVersionImpl.java:36-67 | if nobody refuses to go back, any run of updates keeps the cluster on one version |
| `VersionUpdate.PutVersion` | hacep-core/src/main/java/it/redhat/hacep/cache/listeners/UpdateVersionListener.java:40-55 | a put of a version throws exactly if a node refuses it, and changes exactly the other nodes |
| `VersionUpdate.SameGroupIsRefused` | hacep-core/src/main/java/it/redhat/hacep/cache/listeners/UpdateVersionListener.java:40-52 | the listener compares the group with the key: even the same group is refused |
| `VersionUpdate.KeepsKeys` | hacep-core/src/main/java/it/redhat/hacep/cache/RulesUpdateVersionImpl.java:36-67 | an update never changes group, artifact or the set of entries and nodes |
| `VersionUpdate.Cluster.Deliver` | hacep-core/src/main/java/it/redhat/hacep/cache/listeners/UpdateVersionListener.java:40-55 | one node reacts as its listener says, the others stay |
| `VersionUpdate.Cluster.PutEntry` | hacep-core/src/main/java/it/redhat/hacep/cache/RulesUpdateVersionImpl.java:52-57 | the loop over all listeners computes the put |
| `VersionUpdate.Cluster.ExecuteUpdate` | hacep-core/src/main/java/it/redhat/hacep/cache/RulesUpdateVersionImpl.java:36-67 | put, and put back on an exception |
| `ConsecutiveDays.GetDaysIsOneDivision` | hacep-examples/hacep-rules/src/main/java/it/redhat/hacep/playground/rules/reward/catalog/ConsecutiveDaysAccumulateFunction.java:117-121 | the two-step rounding is one division by whole days with 432 seconds to spare, for all numbers; negative ones mirror |
| `ConsecutiveDays.CalendarDay` | hacep-examples/hacep-rules/src/main/java/it/redhat/hacep/playground/rules/reward/catalog/ConsecutiveDaysAccumulateFunction.java:117-121 | it is the calendar day if and only if the value is not in the last 432 seconds of a day |
| `ConsecutiveDays.RunCounts` | hacep-examples/hacep-rules/src/main/java/it/redhat/hacep/playground/rules/reward/catalog/ConsecutiveDaysAccumulateFunction.java:32-70 | after any run that reverses only values that are there, the buckets count the values left day by day and the result is the number of their days |
| `ConsecutiveDays.AccumulateCounts` | hacep-examples/hacep-rules/src/main/java/it/redhat/hacep/playground/rules/reward/catalog/ConsecutiveDaysAccumulateFunction.java:32-41 | accumulating keeps the buckets the counts |
| `ConsecutiveDays.ReverseCounts` | hacep-examples/hacep-rules/src/main/java/it/redhat/hacep/playground/rules/reward/catalog/ConsecutiveDaysAccumulateFunction.java:59-70 | reversing a value that is there does too, and removes an empty bucket |
| `ConsecutiveDays.ReverseUndoes` | hacep-examples/hacep-rules/src/main/java/it/redhat/hacep/playground/rules/reward/catalog/ConsecutiveDaysAccumulateFunction.java:32-70 | reverse undoes accumulate |
| `ConsecutiveDays.ReverseOfAnAbsentValue` | hacep-examples/hacep-rules/src/main/java/it/redhat/hacep/playground/rules/reward/catalog/ConsecutiveDaysAccumulateFunction.java:59-70 | reversing an absent value does nothing, or takes another value of that day out |
| `ConsecutiveDays.SizeIsDistinctDays` | hacep-examples/hacep-rules/src/main/java/it/redhat/hacep/playground/rules/reward/catalog/ConsecutiveDaysAccumulateFunction.java:48-51 | the result is the number of distinct days |
| `ConsecutiveDays.BucketsRoundTrip` | hacep-examples/hacep-rules/src/main/java/it/redhat/hacep/playground/rules/reward/catalog/ConsecutiveDaysAccumulateFunction.java:98-114 | reading what was written gives the same buckets, whatever the key order and whatever follows |
| `ConsecutiveDays.TruncatedIsNotRead` | hacep-examples/hacep-rules/src/main/java/it/redhat/hacep/playground/rules/reward/catalog/ConsecutiveDaysAccumulateFunction.java:98-114 | a beginning of what was written is read if and only if it is all of it; until then the buckets of the pairs that are there have been set |
| `ConsecutiveDays.ConsecutiveDaysBuckets.AccumulateValue` | hacep-examples/hacep-rules/src/main/java/it/redhat/hacep/playground/rules/reward/catalog/ConsecutiveDaysAccumulateFunction.java:32-41 | the map after accumulate |
| `ConsecutiveDays.ConsecutiveDaysBuckets.ReverseValue` | hacep-examples/hacep-rules/src/main/java/it/redhat/hacep/playground/rules/reward/catalog/ConsecutiveDaysAccumulateFunction.java:59-70 | the map after reverse |
| `ConsecutiveDays.ConsecutiveDaysBuckets.GetResult` | hacep-examples/hacep-rules/src/main/java/it/redhat/hacep/playground/rules/reward/catalog/ConsecutiveDaysAccumulateFunction.java:48-51 | the number of distinct days of the values |
| `ConsecutiveDays.ConsecutiveDaysBuckets.WriteExternal` | hacep-examples/hacep-rules/src/main/java/it/redhat/hacep/playground/rules/reward/catalog/ConsecutiveDaysAccumulateFunction.java:98-105 | the writing loop |
| `ConsecutiveDays.ConsecutiveDaysBuckets.ReadExternal` | hacep-examples/hacep-rules/src/main/java/it/redhat/hacep/playground/rules/reward/catalog/ConsecutiveDaysAccumulateFunction.java:107-114 | the reading loop on any input: an announced number of pairs that may be negative, and an input that may end too early |
| `Dsv.RoundTrip` | hacep-examples/hacep-eap-playground/src/main/webapp/js/d3.js:4588-4684 | parsing what was formatted gives the rows back if and only if no row is empty, every field is quoted or safe without quotes, and the very last field is not empty; the expression that decides on quotes is taken as it is written |
| `Dsv.SafeForMost` | hacep-examples/hacep-eap-playground/src/main/webapp/js/d3.js:4588-4684 | for every delimiter but a bracket and a backslash, a field is safe if and only if one with a carriage return is quoted |
| `Dsv.DelimiterIsNotQuoted` | hacep-examples/hacep-eap-playground/src/main/webapp/js/d3.js:4588-4684 | for a bracket or a backslash, a field with the delimiter in it is written exactly like two fields, and two fields are read |
| `Dsv.LineFeedIsNotQuoted` | hacep-examples/hacep-eap-playground/src/main/webapp/js/d3.js:4588-4684 | for a bracket, a field with a line feed in it is written and read like two lines |
| `Dsv.QuotesAreNotQuoted` | hacep-examples/hacep-eap-playground/src/main/webapp/js/d3.js:4588-4684 | for a bracket, a field in quotes is read without them, and a lone quote, the shortest field that is lost, as nothing |
| `Dsv.LinesRoundTrip` | hacep-examples/hacep-eap-playground/src/main/webapp/js/d3.js:4601-4684 | the same whichever of LF, CR and CR LF separates the rows, behind quoted and plain fields alike |
| `Dsv.TerminatedRoundTrip` | hacep-examples/hacep-eap-playground/src/main/webapp/js/d3.js:4601-4661 | with a line end behind every row, the rows come back if and only if none is empty and all fields are safe, an empty field at the very end included |
| `Dsv.SurvivorsRoundTrip` | hacep-examples/hacep-eap-playground/src/main/webapp/js/d3.js:4601-4684 | for every line end the rows that meet the condition come back |
| `Dsv.OthersDoNot` | hacep-examples/hacep-eap-playground/src/main/webapp/js/d3.js:4601-4684 | no others do |
| `Dsv.AnyCharacterBehindQuotes` | hacep-examples/hacep-eap-playground/src/main/webapp/js/d3.js:4615-4634 | any other character behind a closing quote is taken for a delimiter |
| `Dsv.UnclosedQuotes` | hacep-examples/hacep-eap-playground/src/main/webapp/js/d3.js:4615-4634 | without a closing quote the field is the rest of the text |
| `Dsv.ParseRows` | hacep-examples/hacep-eap-playground/src/main/webapp/js/d3.js:4601-4661 | the tokenizer loop with its end-of-line flag computes the parse |
| `Dsv.ParseLine` | hacep-examples/hacep-eap-playground/src/main/webapp/js/d3.js:4650-4655 | the inner loop collects one line |
| `Dsv.Tokenizer.Next` | hacep-examples/hacep-eap-playground/src/main/webapp/js/d3.js:4611-4648 | one token: end of text, end of line, or a field with what is left behind its separator |
| `Dsv.Tokenizer.Quoted` | hacep-examples/hacep-eap-playground/src/main/webapp/js/d3.js:4615-4634 | a quoted field with doubled quotes, and CR, LF or CR LF behind it |
| `Dsv.Tokenizer.FindEnd` | hacep-examples/hacep-eap-playground/src/main/webapp/js/d3.js:4636-4648 | the loop stops behind the separator that ends the field, or at the end of the text |
| `Dsv.Tokenizer.Plain` | hacep-examples/hacep-eap-playground/src/main/webapp/js/d3.js:4636-4648 | a plain field up to LF, CR, CR LF, the delimiter or the end |
| `Dsv.FieldRoundTrip` | hacep-examples/hacep-eap-playground/src/main/webapp/js/d3.js:4615-4684 | a formatted field is scanned back, with the right end-of-line flag |
| `Dsv.UndoubledDoubled` | hacep-examples/hacep-eap-playground/src/main/webapp/js/d3.js:4633-4684 | undoubling quotes undoes doubling them |
| `Dsv.TrailingEmptyField` | hacep-examples/hacep-eap-playground/src/main/webapp/js/d3.js:4601-4678 | an empty field at the very end is lost, and nothing else |
| `Dsv.UnsafeFieldIsCut` | hacep-examples/hacep-eap-playground/src/main/webapp/js/d3.js:4611-4684 | a field that is not safe is read back as another one: cut at a carriage return, line feed or delimiter, or taken for a quoted one |
| `StompStream.ReceivePadded` | hacep-examples/hacep-eap-playground/src/main/webapp/js/stomp.js:90-114 | for frames with any number of line feeds in front of and behind them, cut into messages anywhere: all frames arrive in order and nothing is kept if and only if each message is a lone line feed exactly when it begins with padding |
| `StompStream.EndToEnd` | hacep-examples/hacep-eap-playground/src/main/webapp/js/stomp.js:156-173 | frames sent one after the other in chunks arrive with the same commands, headers (and the added length) and bodies, in order and with nothing left over, if and only if chunks hold at least two characters |
| `StompStream.ReceiveStream` | hacep-examples/hacep-eap-playground/src/main/webapp/js/stomp.js:266-278 | the partial-data receiver delivers the frames of a stream without padding, with nothing left over, if and only if no chunk is a lone line feed |
| `StompStream.UnmarshallPadded` | hacep-examples/hacep-eap-playground/src/main/webapp/js/stomp.js:90-114 | unmarshalling a beginning of a padded stream delivers the complete frames, keeps the beginning of the next, and skips the padding that is in the data |
| `StompStream.FineMessage` | hacep-examples/hacep-eap-playground/src/main/webapp/js/stomp.js:266-278 | a message that is a lone line feed exactly when it begins with padding keeps the receiver at its place in the stream |
| `StompStream.BadMessage` | hacep-examples/hacep-eap-playground/src/main/webapp/js/stomp.js:266-278 | after any other message the rest of the stream cannot arrive, whatever the later messages |
| `StompStream.SpoiledPiece` | hacep-examples/hacep-eap-playground/src/main/webapp/js/stomp.js:57-88 | a text that begins with a line feed or has fewer line feeds than a frame is not parsed as that frame |
| `Stomp.FrameRoundTrip` | hacep-examples/hacep-eap-playground/src/main/webapp/js/stomp.js:29-88 | a marshalled frame is unmarshalled to itself |
| `Stomp.BodyArrives` | hacep-examples/hacep-eap-playground/src/main/webapp/js/stomp.js:72-86 | with or without a length, the body is read back, although the length counts octets |
| `Stomp.HeadersRoundTrip` | hacep-examples/hacep-eap-playground/src/main/webapp/js/stomp.js:60-71 | header lines are parsed back to the headers |
| `Stomp.DecimalRoundTrip` | hacep-examples/hacep-eap-playground/src/main/webapp/js/stomp.js:43-76 | parseInt reads the decimal length back |
| `Utf8.DecodesTo` | hacep-examples/hacep-eap-playground/src/main/webapp/js/stomp.js:49-55 | the octets of a text are the only ones that decode to it, characters at more length than needed excluded (section 3 of RFC 3629) |
| `Stomp.SizeIsOctets` | hacep-examples/hacep-eap-playground/src/main/webapp/js/stomp.js:49-55 | the size is the number of octets of the text in UTF-8 |
| `Stomp.OctetsOfTheBody` | hacep-examples/hacep-eap-playground/src/main/webapp/js/stomp.js:29-47 | behind the blank line of a marshalled frame come exactly the announced number of octets, they are the body, and the null octet follows |
| `Stomp.HeadersThatArrive` | hacep-examples/hacep-eap-playground/src/main/webapp/js/stomp.js:29-47 | the headers of the frame arrive, and the number of octets of the body exactly if there is one and the length is not switched off |
| `Stomp.SizeCoversLength` | hacep-examples/hacep-eap-playground/src/main/webapp/js/stomp.js:49-55 | the byte size is at least the length |
| `Stomp.SpacedHeader` | hacep-examples/hacep-eap-playground/src/main/webapp/js/stomp.js:63-71 | a header line is read with any white space around its name and its value |
| `Stomp.FirstHeaderWins` | hacep-examples/hacep-eap-playground/src/main/webapp/js/stomp.js:66-71 | of lines with one name the first one counts |
| `Stomp.NumberInFront` | hacep-examples/hacep-eap-playground/src/main/webapp/js/stomp.js:74-76 | a length is read behind white space and a sign, as far as its digits go |
| `Stomp.HexadecimalInFront` | hacep-examples/hacep-eap-playground/src/main/webapp/js/stomp.js:74-76 | behind `0x` it is hexadecimal, and no number without a digit |
| `Stomp.BodyOfLength` | hacep-examples/hacep-eap-playground/src/main/webapp/js/stomp.js:72-76 | the body that a length announces, of which there may be less; a length that is no number gives the text above the body, a negative one the end of that text |
| `Stomp.TextShape` | hacep-examples/hacep-eap-playground/src/main/webapp/js/stomp.js:29-47 | the marshalled text is solid lines, one blank line and the body |
| `Stomp.ReceiveNameless` | hacep-examples/hacep-eap-playground/src/main/webapp/js/stomp.js:57-114 | with one-character chunks every delivered frame lacks its command |
| `StompStream.PaddingInItsOwnMessage` | hacep-examples/hacep-eap-playground/src/main/webapp/js/stomp.js:90-114 | an instance: line feeds in a message of their own or at the head of the next one cost the next frame its command |
| `Stomp.ToString` | hacep-examples/hacep-eap-playground/src/main/webapp/js/stomp.js:29-47 | the line-collecting loop computes the text |
| `Stomp.ParseSingle` | hacep-examples/hacep-eap-playground/src/main/webapp/js/stomp.js:57-88 | the header and body loops compute the parse; the first of equal headers wins |
| `Stomp.Client.Transmit` | hacep-examples/hacep-eap-playground/src/main/webapp/js/stomp.js:156-173 | the loop hands exactly the chunks to the socket |
| `Stomp.Client.OnMessage` | hacep-examples/hacep-eap-playground/src/main/webapp/js/stomp.js:254-281 | a message delivers the complete frames and leaves the rest as partial data; a lone line feed is a heart-beat |
| `Hull.PolygonHull` | hacep-examples/hacep-eap-playground/src/main/webapp/js/d3.js:965-991 | nothing for less than three points; otherwise a closed polygon of input points that has every point on or inside every edge and turns strictly the same way at every corner, unless all points are collinear; it begins at the last point in the order by x and y and comes by the first one, and collinear points leave just these two |
| `Hull.JoinedEncloses` | hacep-examples/hacep-eap-playground/src/main/webapp/js/d3.js:977-990 | the joined sides have every point on one side of every edge, the seams included |
| `Hull.JoinedIsConvex` | hacep-examples/hacep-eap-playground/src/main/webapp/js/d3.js:977-990 | unless all points are collinear, which leaves a segment, the joined sides have three corners or more and turn strictly at each, the two seams included |
| `Hull.EndsOfPolygon` | hacep-examples/hacep-eap-playground/src/main/webapp/js/d3.js:977-990 | the polygon begins at a point that no point is after, and the upper side ends at one that no point is before |
| `Hull.ComputeUpperHullIndexes` | hacep-examples/hacep-eap-playground/src/main/webapp/js/d3.js:952-963 | for sorted points, repeated ones included: an increasing chain from the first to the last point with strict left turns only, and every point on or left of every edge |
| `Hull.PopChain` | hacep-examples/hacep-eap-playground/src/main/webapp/js/d3.js:952-963 | a popped point stays on or left of the chain that closes over it |
| `Hull.PushChain` | hacep-examples/hacep-eap-playground/src/main/webapp/js/d3.js:952-963 | a pushed point keeps the chain convex and supporting |
| `Hull.ChainSeesLast` | hacep-examples/hacep-eap-playground/src/main/webapp/js/d3.js:952-963 | every earlier edge sees the last point strictly on its left |
| `Quadtree.Find` | hacep-examples/hacep-eap-playground/src/main/webapp/js/d3.js:1344-1411 | returns a point that no stored point beats, within the radius, and nothing exactly when no point is strictly within it; with a negative radius, only a stored point within it; at a point with data it is the newest of them |
| `Quadtree.SkipIsSafe` | hacep-examples/hacep-eap-playground/src/main/webapp/js/d3.js:1369-1374 | a cell outside the shrinking search box holds nothing closer |
| `Quadtree.VisitIsSafe` | hacep-examples/hacep-eap-playground/src/main/webapp/js/d3.js:1396-1407 | a visited leaf is taken or beaten |
| `Quadtree.PushKeepsStack` | hacep-examples/hacep-eap-playground/src/main/webapp/js/d3.js:1376-1394 | pushing the four children, the closest on top, forgets no datum |
| `Quadtree.AddKeeps` | hacep-examples/hacep-eap-playground/src/main/webapp/js/d3.js:1183-1224 | adding keeps every leaf in its closed cell and adds exactly the datum |
| `Quadtree.AddHere` | hacep-examples/hacep-eap-playground/src/main/webapp/js/d3.js:1203-1223 | a datum is put in front of those in the leaf of its point, and the leaves of all other points stay |
| `Quadtree.SplitHere` | hacep-examples/hacep-eap-playground/src/main/webapp/js/d3.js:1217-1223 | splitting a leaf leaves its data where its point leads, and puts the new datum where its own does |
| `Quadtree.BorderPointHasTwoLeaves` | hacep-examples/hacep-eap-playground/src/main/webapp/js/d3.js:1203-1211 | a concrete tree in which a point on the border of a former extent gets a second leaf |
| `Quadtree.SplitKeeps` | hacep-examples/hacep-eap-playground/src/main/webapp/js/d3.js:1217-1223 | so does splitting until two points separate |
| `Quadtree.SameQuadrantHalves` | hacep-examples/hacep-eap-playground/src/main/webapp/js/d3.js:1217-1223 | the measure that makes splitting end |
| `Quadtree.Grow` | hacep-examples/hacep-eap-playground/src/main/webapp/js/d3.js:1281-1312 | doubling ends with the first square that covers the point, the same data in their cells, and every inner point led to the same leaf |
| `Quadtree.Quadtree.Cover` | hacep-examples/hacep-eap-playground/src/main/webapp/js/d3.js:1263-1320 | the extent is the unit square at the point rounded down, the old one if it covers the point, or the first doubling that does; the data stay, those at inner points in their leaves |
| `Quadtree.Quadtree.Insert` | hacep-examples/hacep-eap-playground/src/main/webapp/js/d3.js:1183-1224 | exactly the datum is added, in front of those stored at its point; what is stored at other inner points stays |
| `Quadtree.Quadtree.Nearest` | hacep-examples/hacep-eap-playground/src/main/webapp/js/d3.js:1344-1411 | the search on the tree object; at a point with data it finds the one inserted last |
| `RedBlackTree.RedBlackTree.Insert` | hacep-examples/hacep-eap-playground/src/main/webapp/js/d3.js:11031-11101 | the links spell a red-black tree, the in-order sequence is the old one with the node right behind `after` (or first), the threads spell it, and the nodes are the old ones and the new one |
| `RedBlackTree.RedBlackTree.Remove` | hacep-examples/hacep-eap-playground/src/main/webapp/js/d3.js:11103-11205 | the same with the node left out, and its threads cut |
| `RedBlackTree.RedBlackTree.Repair` | hacep-examples/hacep-eap-playground/src/main/webapp/js/d3.js:11062-11100 | the insertion loop ends in a red-black tree with the same order and nodes |
| `RedBlackTree.RedBlackTree.RepairLeft` | hacep-examples/hacep-eap-playground/src/main/webapp/js/d3.js:11065-11080 | one turn, parent on the left: same order and nodes, the red focus is higher |
| `RedBlackTree.RedBlackTree.RepairRight` | hacep-examples/hacep-eap-playground/src/main/webapp/js/d3.js:11081-11097 | one turn, parent on the right |
| `RedBlackTree.RedBlackTree.RecolorUncle` | hacep-examples/hacep-eap-playground/src/main/webapp/js/d3.js:11067-11071 | a red uncle: recolouring |
| `RedBlackTree.RedBlackTree.RaiseLeft` | hacep-examples/hacep-eap-playground/src/main/webapp/js/d3.js:11077-11079 | the outer case on the left |
| `RedBlackTree.RedBlackTree.RaiseRight` | hacep-examples/hacep-eap-playground/src/main/webapp/js/d3.js:11093-11095 | the outer case on the right |
| `RedBlackTree.RedBlackTree.HangBehind` | hacep-examples/hacep-eap-playground/src/main/webapp/js/d3.js:11039-11046 | the place behind a node is an empty hole directly behind it in order |
| `RedBlackTree.RedBlackTree.HangFirst` | hacep-examples/hacep-eap-playground/src/main/webapp/js/d3.js:11047-11052 | the place in front of all is an empty hole |
| `RedBlackTree.RedBlackTree.Settle` | hacep-examples/hacep-eap-playground/src/main/webapp/js/d3.js:11058-11100 | a red leaf in the hole, then the repair |
| `RedBlackTree.RedBlackTree.Splice` | hacep-examples/hacep-eap-playground/src/main/webapp/js/d3.js:11108-11148 | taking a node out leaves a tree with the rest in order and at most one missing black node at a known hole |
| `RedBlackTree.RedBlackTree.SpliceOne` | hacep-examples/hacep-eap-playground/src/main/webapp/js/d3.js:11115-11148 | at most one child |
| `RedBlackTree.RedBlackTree.SpliceNear` | hacep-examples/hacep-eap-playground/src/main/webapp/js/d3.js:11126-11148 | the successor is the right child |
| `RedBlackTree.RedBlackTree.SpliceFar` | hacep-examples/hacep-eap-playground/src/main/webapp/js/d3.js:11126-11148 | the successor is deeper |
| `RedBlackTree.RedBlackTree.Close` | hacep-examples/hacep-eap-playground/src/main/webapp/js/d3.js:11148-11204 | the colours after a removal |
| `RedBlackTree.RedBlackTree.Mend` | hacep-examples/hacep-eap-playground/src/main/webapp/js/d3.js:11152-11204 | the removal loop ends in a red-black tree with the same order and nodes |
| `RedBlackTree.RedBlackTree.MendLeft` | hacep-examples/hacep-eap-playground/src/main/webapp/js/d3.js:11154-11201 | one turn for a short left child: the tree is whole, or the parent is short |
| `RedBlackTree.RedBlackTree.MendRight` | hacep-examples/hacep-eap-playground/src/main/webapp/js/d3.js:11176-11201 | one turn for a short right child |
| `RedBlackTree.RedBlackTree.RaiseSiblingLeft` | hacep-examples/hacep-eap-playground/src/main/webapp/js/d3.js:11155-11161 | a red sibling |
| `RedBlackTree.RedBlackTree.LeanRight` | hacep-examples/hacep-eap-playground/src/main/webapp/js/d3.js:11164-11169 | a red inner nephew |
| `RedBlackTree.RedBlackTree.TurnLeft` | hacep-examples/hacep-eap-playground/src/main/webapp/js/d3.js:11170-11174 | a red outer nephew: the tree is whole again |
| `RedBlackTree.RedBlackTree.RaiseSiblingRight` | hacep-examples/hacep-eap-playground/src/main/webapp/js/d3.js:11177-11183 | a red sibling, mirrored |
| `RedBlackTree.RedBlackTree.LeanLeft` | hacep-examples/hacep-eap-playground/src/main/webapp/js/d3.js:11186-11191 | a red inner nephew, mirrored |
| `RedBlackTree.RedBlackTree.TurnRight` | hacep-examples/hacep-eap-playground/src/main/webapp/js/d3.js:11192-11196 | a red outer nephew, mirrored |
| `RedBlackTree.RedBlackTree.RotateLeft` | hacep-examples/hacep-eap-playground/src/main/webapp/js/d3.js:11208-11225 | the links spell the rotated tree, with only the named fields written |
| `RedBlackTree.RedBlackTree.RotateRight` | hacep-examples/hacep-eap-playground/src/main/webapp/js/d3.js:11227-11244 | the mirrored rotation |
| `RedBlackTree.RedBlackTree.Hang` | hacep-examples/hacep-eap-playground/src/main/webapp/js/d3.js:11213-11218 | a node takes the place of a child of its parent, or of the root |
| `RedBlackLinks.First` | hacep-examples/hacep-eap-playground/src/main/webapp/js/d3.js:11246-11249 | the leftmost node, with nothing in front of it |
| `RedBlackLinks.ThreadAfter` | hacep-examples/hacep-eap-playground/src/main/webapp/js/d3.js:11034-11038 | the threads spell the sequence with the node put in |
| `RedBlackLinks.ThreadFirst` | hacep-examples/hacep-eap-playground/src/main/webapp/js/d3.js:11048-11051 | the same in front |
| `RedBlackLinks.Unthread` | hacep-examples/hacep-eap-playground/src/main/webapp/js/d3.js:11104-11106 | the threads spell the sequence without the node |
| `RedBlackLinks.Inherit` | hacep-examples/hacep-eap-playground/src/main/webapp/js/d3.js:11126-11137 | a node takes over colour, children and parent of another |
| `RedBlackShape.HeightIsLogarithmic` | hacep-examples/hacep-eap-playground/src/main/webapp/js/d3.js:11031-11205 | two to half the height is at most the number of nodes plus one |
| `RedBlackShape.WaysAreShort` | hacep-examples/hacep-eap-playground/src/main/webapp/js/d3.js:11031-11205 | every node is so few steps away from the root |
| `RedBlackShape.HeightIsLongest` | hacep-examples/hacep-eap-playground/src/main/webapp/js/d3.js:11031-11205 | no way down has more nodes than the height |
| `RedBlackShape.PlugIsRedBlack` | hacep-examples/hacep-eap-playground/src/main/webapp/js/d3.js:11062-11100 | a good subtree in a good context is a red-black tree |
| `RedBlackShape.SplitIsGood` | hacep-examples/hacep-eap-playground/src/main/webapp/js/d3.js:11062-11100 | any node of a red-black tree splits it so |
| `BoundedQueue.Queue.AwaitedExactlyOnce` | hacep-examples/hacep-eap-playground/src/main/webapp/js/d3.js:1604-1705 | between calls: the await callback runs at most once if and only if no abort comes after the answer, and else a second time with the error of that abort; without one and unless stuck, it has run exactly when it was set and an error came up or no task is left, with the first error, or the first result of every task, as the history of reports has them |
| `BoundedQueue.TallyWithoutError` | hacep-examples/hacep-eap-playground/src/main/webapp/js/d3.js:1665-1679 | what a history of reports says as long as nothing ends it: every task that has reported has its first result |
| `BoundedQueue.TallyAfterError` | hacep-examples/hacep-eap-playground/src/main/webapp/js/d3.js:1628-1702 | the error is that of the first abort, of the first report of a task that is an error, or of the first throw of a task that has not reported, whichever comes first, and nothing counts after it |
| `BoundedQueue.LateAbort` | hacep-examples/hacep-eap-playground/src/main/webapp/js/d3.js:1628-1702 | a concrete run: await is answered, then abort runs its callback again |
| `BoundedQueue.Queue.AnsweredUnlessStuck` | hacep-examples/hacep-eap-playground/src/main/webapp/js/d3.js:1604-1705 | without an error: when no task runs, the await callback has got all results if and only if the queue is not stuck, that is spoiled with a task waiting; while tasks run it has got nothing |
| `BoundedQueue.Queue.NeverIdle` | hacep-examples/hacep-eap-playground/src/main/webapp/js/d3.js:1651-1663 | tasks start in defer order and never more than the size run; while a place is free, a task waits if and only if the queue is stuck |
| `BoundedQueue.Queue.End` | hacep-examples/hacep-eap-playground/src/main/webapp/js/d3.js:1665-1679 | the call enters the history; the first one of a task counts, later ones change nothing else |
| `BoundedQueue.Queue.Report` | hacep-examples/hacep-eap-playground/src/main/webapp/js/d3.js:1665-1679 | a result is taken in, or an error ends everything |
| `BoundedQueue.Queue.Perform` | hacep-examples/hacep-eap-playground/src/main/webapp/js/d3.js:1659-1659 | starting a task delivers exactly the calls it makes, in order |
| `BoundedQueue.Queue.Catch` | hacep-examples/hacep-eap-playground/src/main/webapp/js/d3.js:1646-1649 | a throw counts unless its task has reported |
| `BoundedQueue.Queue.Start` | hacep-examples/hacep-eap-playground/src/main/webapp/js/d3.js:1651-1663 | the starting loop keeps all counts; it stops in the middle only if a task throws |
| `BoundedQueue.Queue.StartOne` | hacep-examples/hacep-eap-playground/src/main/webapp/js/d3.js:1651-1663 | one turn of it; the queue is spoiled exactly if that task had ended without error and throws |
| `BoundedQueue.Queue.Poke` | hacep-examples/hacep-eap-playground/src/main/webapp/js/d3.js:1646-1649 | starts tasks unless inside a task, and turns a throw of a task that has not ended into an error |
| `BoundedQueue.Queue.Fail` | hacep-examples/hacep-eap-playground/src/main/webapp/js/d3.js:1681-1697 | an error clears all tasks and notifies |
| `BoundedQueue.Queue.Defer` | hacep-examples/hacep-eap-playground/src/main/webapp/js/d3.js:1619-1627 | a task more, started if there is a place |
| `BoundedQueue.Queue.Await` | hacep-examples/hacep-eap-playground/src/main/webapp/js/d3.js:1632-1643 | the callback is set once and may be answered at once |
| `BoundedQueue.Queue.Abort` | hacep-examples/hacep-eap-playground/src/main/webapp/js/d3.js:1628-1631 | an error from outside unless one came up before, told to the await callback whether it was answered or not |
| `BoundedQueue.SpoiledQueue` | hacep-examples/hacep-eap-playground/src/main/webapp/js/d3.js:1646-1679 | a concrete run: a task that reports a result and throws stops the queue for good, and await is answered without the second result |
| `Stratify.StratifyData` | hacep-examples/hacep-eap-playground/src/main/webapp/js/d3.js:9693-9735 | succeeds if and only if one datum has no parent, every parent id names exactly one datum and all reach the root; then the tree is over all data with true depths and heights; otherwise the error is the first thing wrong with a parent id or, if nothing is, the missing root or the cycle |
| `Stratify.NodesByKey` | hacep-examples/hacep-eap-playground/src/main/webapp/js/d3.js:9705-9711 | every id maps to its only datum, or is marked ambiguous |
| `Stratify.Link` | hacep-examples/hacep-eap-playground/src/main/webapp/js/d3.js:9713-9726 | parents and children as the data say, or the first error |
| `Stratify.EachBefore` | hacep-examples/hacep-eap-playground/src/main/webapp/js/d3.js:9077-9086 | each reachable node once, in pre-order: in front of all that is below it, and behind what is below the siblings before it |
| `Stratify.BlocksNext` | hacep-examples/hacep-eap-playground/src/main/webapp/js/d3.js:9077-9086 | putting the children of the next node right behind it keeps what is below each node together |
| `Stratify.VisitComplete` | hacep-examples/hacep-eap-playground/src/main/webapp/js/d3.js:9730-9732 | the visit sees all nodes if and only if all reach the root |
| `Stratify.Depths` | hacep-examples/hacep-eap-playground/src/main/webapp/js/d3.js:9730-9730 | each depth is one more than that of the parent |
| `Stratify.DepthIsDistance` | hacep-examples/hacep-eap-playground/src/main/webapp/js/d3.js:9730-9730 | the depth is the number of steps to the root |
| `Stratify.ComputeHeight` | hacep-examples/hacep-eap-playground/src/main/webapp/js/d3.js:9226-9230 | the early-exit climb restores the heights for one node more |
| `Stratify.Heights` | hacep-examples/hacep-eap-playground/src/main/webapp/js/d3.js:9226-9230 | the heights after all climbs |
| `Stratify.HeightIsLongest` | hacep-examples/hacep-eap-playground/src/main/webapp/js/d3.js:9226-9230 | the height is the length of the longest way down |
| `Stratify.ExplainedIsNoTree` | hacep-examples/hacep-eap-playground/src/main/webapp/js/d3.js:9715-9732 | an error is a proof that the data describe no tree |
| `Stratify.UniqueError` | hacep-examples/hacep-eap-playground/src/main/webapp/js/d3.js:9713-9732 | no data have two errors |
| `Stratify.UniqueTree` | hacep-examples/hacep-eap-playground/src/main/webapp/js/d3.js:9713-9726 | data describe at most one tree |

## Left out

- Drools internals, Infinispan internals, JMS, Camel, REST and console plumbing, logging, thread pools
  and timeouts: calls into code that is not in the repository, or without a hard property.
- Suspend and resume: two listeners toggle one flag, and only single branches could be described.
- The rest of `d3.js`: the DOM, transitions, colours, projections and layouts compute with foreign
  calls or floating point.
- Quadtree removal and the accessor-less `addAll`: after growth a point on the old border is routed to
  another quadrant, so removal would need a different invariant.
- Floating point in hull and quadtree: coordinates are exact reals (so there are no invalid points to
  ignore), and the square root of the search is a parameter without rounding.
- Quadtree.Add: cells are values, so the in-place update of child arrays and the sharing of nodes are
  not modelled; leaves with equal coordinates are one node with a list.
- Quadtree.Find: with a negative radius the code searches an inverted box, and only membership and the
  distance of what it finds are promised; a radius that is not a number is not modelled.
- Quadtree.Quadtree.Nearest: the same.
- Quadtree.Quadtree.Insert: after growth a point on the border of a former extent can have two leaves
  (`BorderPointHasTwoLeaves`); the order of the data at a point is that of the leaf its quadrants lead to.
- SessionCluster.FailoverRefinement: one fact group, since groups share nothing but the version; the
  field `size` is modelled, but in the cluster machine says nothing about the buffer, because a transfer
  does not restore it (`TransferRestartsTheCount`).
- SessionCluster.UpgradeKeepsInv: upgrades while a snapshot is submitted or running are the subject of
  `CatchUpRace` and `UpgradeInFlight`, not of the cluster machine.
- SerializedSession.JobLoadMeaning: catching up and loading are one step here; `CatchUpRace` splits them.
- SnapshotLatch.SnapshotConservation: the rules do not change, so that no task catches up;
  `CatchUpRace` has that branch.
- SnapshotLatch.RebuildIsComplete: the same machine, in which the rules do not change.
- CatchUpRace.CatchUpConserves: about facts, not about the rules they are fired under; that is the
  subject of `UpgradeInFlight`.
- UpgradeInFlight.UpgradeWhileSaving: up to the publishing of the snapshot that was interrupted, after
  which the lemmas of `SerializedSession` apply; a second upgrade before that is left out.
- Sessions.HAKieSerializedSession.WaitForSnapshotToComplete: while the thread waits, the job runs
  undisturbed; `SnapshotLatch` interleaves them.
- VersionUpdate.ExecuteAgrees: a container update that only reports errors counts as success, because
  the listener ignores the result; overlapping updates are not modelled.
- ConsecutiveDays.RunCounts: at most 2147483646 operations, beyond which a bucket count wraps.
- Dsv.RoundTrip: the delimiter is one character and neither a quote nor the end of a line, which the
  tokenizer could not tell apart from it, nor `-`, for which the constructor throws; columns and
  converters are left out.
- StompStream.EndToEnd: one character stands for one code point, so a chunk boundary inside a
  surrogate pair cannot be expressed; headers of a frame to send have different names, none is
  `content-length` or `__proto__`, and a `content-length` of false is a flag; dispatch and heart-beat
  timers are left out.
- Hull.PolygonHull: the outcome of the sort is a parameter, a permutation that puts the points in order;
  the result are positions instead of the points themselves.
- BoundedQueue.Queue.Start: the size is a whole number or infinite.
- BoundedQueue.Queue.Perform: while it is started, a task calls its own callback or those of earlier
  tasks, not `defer`, `await` or `abort`.
- BoundedQueue.Queue.Fail: the `abort` methods of running tasks are not called, so what they do is not
  modelled.
- Stratify.StratifyData: nodes are positions in the data rather than objects, and the accessors for
  id and parent id have been applied.
- RedBlackTree.RedBlackTree.Insert: the node to insert is not in the tree yet and `after` is, which is
  what the callers in the Voronoi code do; they are not part of this model.
- NamedLocks.SessionIsSequential: a session is the list of its facts; what inserting does to it is
  the subject of `Sessions`.
