# Atlas coordination protocols in Dafny

A model of the parts of Atlas where several actors touch the same state, and of a few algorithms on
bytes, keys and orders, with proofs of what they promise. `dafny verify dfyconfig.toml` checks all of it.

Each protocol is a transition system: a state, the steps that may happen, and theorems about every
sequence of steps. A database statement is one atomic step. Replies of Ceph, Kubernetes, HTTP nodes and
the object store, clocks, failures and the interleaving of actors are inputs, so a theorem about every
run is a theorem about every behaviour of the environment that its stated assumptions allow. Objects
whose methods update fields in place (the lease row, the limiter, the in-memory store, the failover
client, the upload loop) are classes and loops proved against the functions the theorems are about.

| file | what it models |
|---|---|
| `JournalStatus.dfy`, `Failback.dfy` | reading `rbd journal status`, the promote guard, and two-site failover and failback |
| `Lease.dfy` | the leader lease and the election loop |
| `DataBridge.dfy`, `OneCutover.dfy`, `Moves.dfy`, `Ledger.dfy` | a migration plan with racing stage jobs and reconciler passes; how many cutovers drain at once; why each state was entered and each row written; the rows as the sum of the statements |
| `CdcRestart.dfy`, `CdcDrain.dfy` | bounded self-heal of CDC streams; the synthesized drain |
| `RateLimiter.dfy`, `SingleReplica.dfy` | per-replica windows, the shared counters, the background sync and restarts; one replica with and without the sync |
| `NativeStore.dfy`, `NativeHttp.dfy` | the in-memory block store and the HTTP failover client |
| `Multipart.dfy`, `ObjectCopy.dfy` | streaming multipart upload; migration planning, copying, verifying |
| `Feed.dfy`, `Backup.dfy`, `Devices.dfy`, `PoolReport.dfy`, `Percentile.dfy` | activity feed, backup pruning, vdev matching and the pool report it reads, latency percentiles |
| `Ordering.dfy`, `Text.dfy`, `Numbers.dfy`, `Options.dfy` | sorting, text order and zero-padded numbers, machine bounds, optional values |

## Where the code and its documentation differ

The model follows the code. Each entry names the theorem that says when the promise holds and, where it
can fail, the one that shows how.

- **Failback guard.** The guard is checked when a promote is requested, the promote happens in a job
  later, and the route accepts further promotes meanwhile. `Failback.NoSplitBrainNoLostWrite` holds when no
  guard check is made while a promote job of the other site is queued, a stale one included;
  `Failback.OverlapSplitsTheBrain` shows that any such overlap can end in two primaries, and
  `Failback.OverlapIsReachable` that it can arise in every mode.
- **One leader.** A failed renewal leaves the flag as it was. `Lease.LeadersAreExclusive` needs attempts
  that finish on time and do not fail. Whatever fails, there is one leader as long as every leader's
  grant is unexpired (`Lease.LiveGrantsMeanOneLeader`), and a leader whose grant has expired can always
  be doubled (`Lease.ExpiredLeaderCanBeDoubled`). From any reachable state, however many leaders there are,
  one whole undisturbed attempt of every live instance leaves at most one (`Lease.OneLeaderAgain`).
- **One cutover at a time.** At most one cutover drains as long as the plan is never moved into `validated`
  while a cutover is draining or its run is about to set it draining (`OneCutover.OneCutoverAtATime`). From
  every reachable state, a move that breaks this can be followed by a second cutover draining beside the
  first (`OneCutover.ReopeningAdmitsTwo`), and `validate`, which writes the state unconditionally, is always
  such a move (`OneCutover.RevalidationAdmitsASecondCutover`). Each visit to `validated` still admits only
  one cutover (`DataBridge.InsertsArePaidFor`).
- **At most three automatic restarts.** The reconciler reads the counter of the stream it lists and bumps
  the counter of the stream the plan points at. The bound holds for the restarts of a stream on its own
  behalf (`CdcRestart.OwnRestartsAreBounded`), and for all restarts while the two are the same stream
  (`CdcRestart.AimedRestartsAreBounded`). A stream left behind by a second start makes them unbounded
  (`CdcRestart.OrphanedRestartsAreUnbounded`), and nothing else does: what the reconciler does by itself is
  bounded if and only if there is no such stream (`CdcRestart.BoundedIffNoOrphan`).
- **"Single-replica behaves exactly as before"** holds if and only if the sync's flag does not overrule the
  process's own count (`SingleReplica.SingleReplicaAnswers`). It can in two ways, each reached for every budget
  but the largest: the 32-bit counter comes round within the minute (`SingleReplica.WrappedIsOverruled`), or
  the process restarts within it while its rows stay in the table (`SingleReplica.RestartedIsOverruled`).
- **At most `rpm` a minute.** A restart within the minute gives a replica its budget anew:
  `RateLimiter.ReplicaBudget` and `RateLimiter.ClusterBudget` count the processes. Counters wrap at 2^32;
  without sync and restarts the budget holds if and only if there are fewer requests than that
  (`SingleReplica.PlainBudgetIff`).
- **"Aborts the upload on any error"** does not cover an upload whose id was lost with the initiating answer,
  one whose final answer was lost, an abort the store does not carry out, or a call that its caller drops, as
  `copy_one` and `run` in `crates/atlas-databridge/src/object.rs` drop the writes in flight when a read or
  another copy fails. `Multipart.PutMultipartStreaming` says exactly when an abort is sent and when an upload
  is left behind, `Multipart.LeftBehindIff` lists the cases.
- **Percentiles** are exact up to a product of 100 times the saturated target and no further
  (`Percentile.ExactIff`); beyond it the target is too low for some histogram (`Percentile.TooLowBeyond`).
- **"A retry cannot apply a mutation twice"** holds for rounds that met no timeout and no 503
  (`NativeHttp.ElectionRetriesAreSafe`). A round that met a 421 is retried whatever else it met:
  `NativeHttp.AppliesTwiceIff` is the exact condition, `NativeHttp.MixedRoundIsRetried` a case.
- **Clones in the in-memory store** get their snapshot's size and extents but read as zeros; the reference
  store of `NativeStore.HistoriesAgree` says so too.
- **Backup pruning** counts every object under the prefix, so foreign keys can push a backup out:
  `Backup.SurvivesIffFewAbove` is the exact condition, `Backup.ForeignKeyEvicts` a case.

## Assumptions

- `Failback`: a daemon that reports `up+` tells the truth in the words the comments give; a journal report
  lists positions with all their fields, and the other site's client at the writer's own positions only when it
  has committed everything; an operator
  confirms `peer_replayed` only after the peer's last demotion; Ceph accepts a non-forced promote when the
  newest local entry is a demotion. Each copy's past is one sequence of writes and demotions.
- `Lease`: a statement that was given up on, by an error or a crash, does not take effect later.
  Instances share one clock that does not go back. No two running instances share an id; one that
  starts again may keep its own.
- `RateLimiter`: each replica's clock does not go back; clocks need not agree with each other. A restarted
  process keeps its replica id; one that starts under a new id is a further replica.
- `Multipart.PutMultipartStreaming`: past 65535 parts the numbers repeat, and what is called the stored object
  is one only for a store that takes repeated numbers.
- `NativeHttp.DeleteMeansAbsent`: no concurrent writers; a send that fails other than by timeout did not arrive.
- `NativeHttp.HttpApi.Call`: how many rounds fit before the deadline is an input.
- `DataBridge`: row ids are fresh. Cutover deadlines are taken from the clock at the insert.
- `Devices.LinesBelongToOneDisk`: no whole-disk by-id entry of one disk is named like an entry of the other or like its partition.
- `ObjectCopy.Run`: each planned key yields one result, as the stream of copies does.

## Model

| member | source | states |
|---|---|---|
| JournalStatus.PeersReplayedMeaning | crates/atlas-driver-ceph/src/cmd.rs:465-504 | for every report: no answer exactly when the list, the local client, its positions or a peer is missing; otherwise true exactly when every peer's positions equal the local ones as multisets |
| JournalStatus.RawMeaning | crates/atlas-driver-ceph/src/cmd.rs:478-504 | in terms of the fields as listed: yes exactly when the first local client lists some position and every peer, of which there is one, lists in some order the same object number, tag and entry of each; no answer exactly when one of these is missing |
| JournalStatus.NoWriterNoAnswer | crates/atlas-driver-ceph/src/cmd.rs:478-486 | without a client whose id is empty, or without a client list, there is no answer |
| JournalStatus.MissingReadsAsZero | crates/atlas-driver-ceph/src/cmd.rs:478-504 | writing out zero for each missing field and an empty list for each missing one changes no answer, so the meaning above covers every report |
| JournalStatus.ReorderingKeepsTheAnswer | crates/atlas-driver-ceph/src/cmd.rs:478-504 | the answer is the same for any order of clients and positions, given that local entries, of which Ceph registers one, agree |
| Failback.ConfirmedMeansAhead | crates/atlas-driver-ceph/src/cmd.rs:465-476 | a true answer on the demoted writer means the other copy holds its whole journal |
| Failback.GuardMeansAhead | crates/atlas-driver-ceph/src/cmd.rs:506-559 | a passed guard means the peer is not primary and this copy holds everything the peer holds, in both modes |
| Failback.PassesIff | crates/atlas-driver-ceph/src/cmd.rs:517-559 | a promote passes exactly when the daemon is up and, in journal mode, the replay is confirmed and the peer is reported demoted or not primary; otherwise, when it is reported demoted |
| Failback.BlocksFor | crates/atlas-driver-ceph/src/cmd.rs:517-559 | a daemon that is not up is the reason given before all others, and each other reason is given in its own mode |
| Failback.NoSplitBrainNoLostWrite | crates/atlas-driver-ceph/src/cmd.rs:506-559 | in every run of writes, replays, demotions, daemon outages, confirmations and any number of queued, retried and lost promote jobs, without overlapping checks: at most one primary, and its writes are exactly the acknowledged ones |
| Failback.GuardedPromoteIsClean | crates/atlas-gateway/src/routes/dr.rs:629-680 | a queued promote, stale or not, is accepted by Ceph exactly when its copy is not primary yet, and makes a copy with every acknowledged write the only primary |
| Failback.JobsAreCounted | crates/atlas-gateway/src/routes/dr.rs:629-680 | in every run the queued promotes of a site are its passed checks less its promotes and lost jobs |
| Failback.OverlapSplitsTheBrain | crates/atlas-gateway/src/routes/dr.rs:629-680 | whenever a check passes while the other site's job is queued, the two jobs make both copies primary |
| Failback.OverlapIsReachable | crates/atlas-gateway/src/routes/dr.rs:629-680 | in every mode such an overlap can arise after a clean demotion |
| Lease.LeaseTable.TryAcquire | crates/atlas-inventory/src/leader.rs:16-43 | an undisturbed attempt owns the lease exactly when it was free, expired or already its own; a live lease of another holder is unchanged |
| Lease.Elector.OnOutcome | crates/atlas-gateway/src/startup.rs:668-680 | owning sets the flag, not owning clears it, an error keeps it; acquired and lost are reported exactly when it changes |
| Lease.FlagFollowsTheRow | crates/atlas-gateway/src/startup.rs:668-680 | after a completed attempt the flag says whether the row is held by this instance; after a failed one it is what it was |
| Lease.ExpiredIsTaken | crates/atlas-inventory/src/leader.rs:22-43 | another instance takes the row exactly when its reading is past the expiry, with a new expiry one TTL later, and otherwise leaves it unchanged |
| Lease.FreeOrOwnIsTaken | crates/atlas-inventory/src/leader.rs:22-43 | a free row, or one already held, is always written with the new expiry |
| Lease.StepKeepsInv | crates/atlas-inventory/src/leader.rs:22-43 | every statement of every attempt keeps the grant invariant, and no instance's expiry moves back however stale its reading |
| Lease.GrantsAreExclusive | crates/atlas-inventory/src/leader.rs:13-43 | any number of instances, any interleaving, stale readings, crashes, restarts under the same id and failures: one unexpired grant at a time |
| Lease.LeadersAreExclusive | crates/atlas-gateway/src/startup.rs:570-681 | with the gateway's TTL and renewal period, attempts within the other half of the TTL and no failed query: at most one leader flag at any time |
| Lease.LiveGrantsMeanOneLeader | crates/atlas-gateway/src/startup.rs:652-681 | in any run, one leader as long as every leader's grant is unexpired |
| Lease.OneLeaderAgain | crates/atlas-gateway/src/startup.rs:652-681 | from every reachable state, whatever failed and however many leaders there are: after punctual attempts without failure, one from start to end for each live instance, there is at most one leader |
| Lease.ExpiredLeaderCanBeDoubled | crates/atlas-gateway/src/startup.rs:680-680 | any reachable leader with an expired grant can be joined by a second leader, a newcomer or a restarted instance |
| Lease.FailedRenewalExpiresALeader | crates/atlas-gateway/src/startup.rs:680-680 | one failed renewal in an otherwise punctual run leads to such a leader |
| Text.StampOrder | crates/atlas-inventory/src/lib.rs:107-116 | text order of the fixed-width UTC timestamps is time order |
| Text.PadOrder | crates/atlas-gateway/src/startup.rs:854-854 | zero-padded text order is numeric order and the text determines the number |
| Text.ContainsIff | crates/atlas-driver-ceph/src/cmd.rs:517-559 | the substring test of the promote guard holds exactly when the text occurs somewhere |
| DataBridge.InsertsArePaidFor | crates/atlas-databridge/src/pipeline.rs:172-205 | over all races, edge clusters, streams and cutovers inserted never exceed won transitions, nor those the entries into assessed, loaded and validated (`Moves` says what each entry follows) |
| DataBridge.StatementKeepsHolders | crates/atlas-databridge/src/pipeline.rs:446-471 | a statement turns a won transition into a pending insert, or a pending insert into a row, never more |
| DataBridge.StatementKeepsEntries | crates/atlas-inventory/src/databridge/plans.rs:40-60 | a won transition leaves the state it pays with, and only an entry brings the plan back |
| DataBridge.ProgramOrder | crates/atlas-databridge/src/reconcile.rs:257-296 | in every interleaving a run's earlier statements precede its later ones in the trace |
| DataBridge.CutoverCompleteIsJustified | crates/atlas-databridge/src/reconcile.rs:257-296 | every move into cutover_complete follows completion of one of the plan's own cutovers by the same run; outside fake mode also a recorded zero lag, in bytes and seconds, of the stream the plan pointed at when that run read it (or no stream), and a teardown |
| DataBridge.FakeCutoverJustified | crates/atlas-databridge/src/pipeline.rs:948-1000 | a fake-mode completion follows the job's own won transition, insert and completion |
| DataBridge.DrainedCutoverJustified | crates/atlas-databridge/src/reconcile.rs:266-296 | a reconciler completion follows the insert of that cutover, the reading of the plan, a drained observation of the stream read there, the teardown and the completion, in that order |
| DataBridge.ValidatedIsJustified | crates/atlas-databridge/src/reconcile.rs:297-343 | every move into validated follows an inline validation recorded as passed by the same run, a Job of a recorded validation seen passing by the same run, or the failing of an overdue, still lagging cutover by the same run |
| DataBridge.ExpiryJustified | crates/atlas-databridge/src/reconcile.rs:297-312 | an expiring pass moves the plan only after it saw the plan's stream lagging, found that very cutover five minutes past its insert, and marked it failed |
| Moves.LoadedIsJustified | crates/atlas-databridge/src/reconcile.rs:118-157 | every move into loaded is an inline load's own, or that of a pass that found the plan full_loading and saw its Job succeed |
| Moves.FailedIsJustified | crates/atlas-databridge/src/reconcile.rs:118-157 | every move into failed is that of a pass that saw the load's Job fail, or saw a validation that was running fail and recorded it |
| Moves.ProvisionedIsJustified | crates/atlas-databridge/src/reconcile.rs:57-114 | every move into provisioned follows the same run marking an edge cluster ready: one it inserted after winning the plan, or one a pass found provisioning and saw ready |
| Moves.AssessedIsJustified | crates/atlas-databridge/src/pipeline.rs:149-277 | every move into assessed is the assess job's, or follows the deletion of the cluster a refused provisioning had inserted |
| Moves.RolledBackIsJustified | crates/atlas-databridge/src/pipeline.rs:1009-1019 | every move into rolled_back follows the same run marking the cutover inserted last rolled back, or its finding that no cutover had ever been inserted |
| Moves.WonStatesFollow | crates/atlas-databridge/src/pipeline.rs:15-95 | discovered, provisioning, cdc_streaming and cutover_in_progress are entered only from draft, assessed, loaded and validated |
| Moves.StagesWriteTheirOwn | crates/atlas-databridge/src/pipeline.rs:285-915 | full_loading and validating are written by the jobs of those stages alone, and nothing leads back to draft |
| Moves.WhatWasReadIsUsed | crates/atlas-databridge/src/pipeline.rs:638-766 | in every run, stopping, restarting, judging the lag and needing a stream or edge go by what the same run read from the plan before |
| Moves.WritesAreWarranted | crates/atlas-databridge/src/pipeline.rs:149-1019 | in every run every insert, update and deletion of a cluster, stream, cutover or validation row comes after the statements of the same run that it depends on, on the row they name and with the value they give |
| Moves.FinishedRunsDidTheirWork | crates/atlas-databridge/src/pipeline.rs:149-1019 | a job or pass that reached its end has made each of the writes its stage promises, whatever interleaved |
| Ledger.RowsAreTheTrace | crates/atlas-inventory/src/databridge/plans.rs:40-60 | in every run the plan's state and pointers and each cluster, cutover, validation and stream row are the last values the statements that took effect gave them |
| Ledger.RunsGoOnByTheTrace | crates/atlas-inventory/src/databridge/plans.rs:46-60 | in every reachable state a run's next statement lets it go on exactly when those statements say so: compare-and-set, found rows, drained lag, deadline |
| Ledger.LatestByTheTrace | crates/atlas-inventory/src/databridge/cutovers.rs:79-87 | the cutover a rollback finds is one that no other was inserted after |
| Ledger.EventsAreRecorded | crates/atlas-databridge/src/reconcile.rs:257-307 | what an event records of the plan, its stream and that stream's lag is what the statements before it add up to |
| OneCutover.OneCutoverAtATime | crates/atlas-databridge/src/pipeline.rs:943-1000 | in every run that never enters validated while a cutover is draining or about to, at most one drains |
| OneCutover.StepKeepsExclusive | crates/atlas-databridge/src/pipeline.rs:948-981 | every statement keeps: at most one cutover busy, and none while the plan is validated |
| OneCutover.ReopeningAdmitsTwo | crates/atlas-databridge/src/pipeline.rs:771-785 | from every reachable state a step that breaks the condition can be followed to two draining at once |
| OneCutover.RevalidationAdmitsASecondCutover | crates/atlas-databridge/src/pipeline.rs:771-785 | from every reachable state with a draining cutover, a second validation and cutover lead to two draining at once |
| OneCutover.Prepare | crates/atlas-databridge/src/pipeline.rs:149-277 | from every state the plan can be provisioned and validated without touching cutovers or other runs |
| OneCutover.DrainingIsReachable | crates/atlas-databridge/src/pipeline.rs:924-1006 | a run from the empty state, through a ready edge cluster, to a draining cutover |
| CdcRestart.OwnRestartsAreBounded | crates/atlas-databridge/src/reconcile.rs:212-245 | over a stream's life, handling the stream itself restarts it automatically at most three times |
| CdcRestart.CounterCountsRestarts | crates/atlas-inventory/src/databridge/cdc.rs:47-58 | in every run the row's counter is the number of its restarts: operators', the reconciler's own and misdirected ones |
| CdcRestart.GivesUpOnlyWhenSpent | crates/atlas-databridge/src/reconcile.rs:212-245 | in every run looking at a stream changes a row only to mark the listed stream failed, only with its connector down and three restarts counted |
| CdcRestart.StalledIsRestarted | crates/atlas-databridge/src/reconcile.rs:212-245 | a stalled stream its plan points at is counted and restarted below three restarts and given up at three; a running one is left alone |
| CdcRestart.ListingIsComplete | crates/atlas-databridge/src/reconcile.rs:170-182 | a pass lists every streaming row once, with its counter, and no other |
| CdcRestart.AimedRestartsAreBounded | crates/atlas-databridge/src/reconcile.rs:212-245 | all automatic restarts are at most three while no stream with restarts left is handled that its plan does not point at |
| CdcRestart.BoundedIffNoOrphan | crates/atlas-databridge/src/reconcile.rs:170-245 | in every reachable state between passes, the automatic restarts of the reconciler by itself are bounded exactly when there is no orphan |
| CdcRestart.OrphanedRestartsAreUnbounded | crates/atlas-databridge/src/pipeline.rs:664-679 | with an orphaned streaming row, for every n there are passes after which the pointed stream was restarted at least n times on the orphan's behalf |
| CdcRestart.OnePass | crates/atlas-databridge/src/reconcile.rs:170-245 | one pass over such a plan restarts the pointed stream and leaves the orphan streaming, below its own limit |
| CdcRestart.SecondStartOrphansTheFirst | crates/atlas-databridge/src/pipeline.rs:451-471 | starting CDC a second time leaves such an orphan |
| CdcDrain.CdcTable.DrainTick | crates/atlas-databridge/src/reconcile.rs:355-376 | one tick rewrites exactly the streaming rows that lag, each to its drained value |
| CdcDrain.OneTick | crates/atlas-databridge/src/reconcile.rs:355-376 | without overflow a tick leaves six tenths of each lag, rounded down, and adds five thousand events; idle and caught-up rows stay |
| CdcDrain.DrainsInLogTicks | crates/atlas-databridge/src/reconcile.rs:361-363 | a backlog below 2^k in both measures is zero after 2k ticks |
| CdcDrain.DrainConverges | crates/atlas-databridge/src/reconcile.rs:355-376 | any pair of i64 lags, wrapping included, is caught up after 121 ticks and stays so |
| RateLimiter.Process.Allow | crates/atlas-gateway/src/state.rs:228-251 | the answer and the new maps are those of the specification functions |
| RateLimiter.Process.SnapshotCurrentWindow | crates/atlas-gateway/src/state.rs:253-266 | exactly the counts of the current minute |
| RateLimiter.Process.SetGloballyLimited | crates/atlas-gateway/src/state.rs:268-278 | flags of other minutes are dropped and exactly the listed actors are flagged |
| RateLimiter.DenialsAreFair | crates/atlas-gateway/src/state.rs:188-203 | any replicas, interleaving, failed statements, restarts and skewed clocks: a denial means the cluster saw more than rpm requests of the actor in that minute |
| RateLimiter.StoredTotalsAreBounded | crates/atlas-inventory/src/rate_limit.rs:13-50 | in every run the stored total never exceeds the requests made, since counts are overwritten, not added; it is no less either once each replica has reported (`RateLimiter.OverBudgetIsFlagged`) |
| RateLimiter.EveryRowCounts | crates/atlas-inventory/src/rate_limit.rs:38-51 | for every number of replicas, changing one replica's row changes the total by exactly the difference |
| RateLimiter.FlagsExactlyTheOver | crates/atlas-gateway/src/state.rs:286-331 | a sync pass leaves flagged exactly the actors already flagged in the minute and those whose total, cast to 32 bits, is over the budget |
| RateLimiter.OverBudgetIsFlagged | crates/atlas-gateway/src/state.rs:286-331 | for any number of replicas, an actor over the budget across the cluster, below 2^32 requests, is flagged by the next pass that reads the totals once every replica has reported |
| RateLimiter.ReportStoresTheCount | crates/atlas-inventory/src/rate_limit.rs:15-35 | a pass reports exactly the actors of the current minute, and a report replaces the replica's row by the count the process had |
| RateLimiter.PassesEndWithAPrune | crates/atlas-gateway/src/state.rs:286-331 | a pass not cut short by a restart prunes before it sleeps, whatever failed |
| RateLimiter.PruneKeepsFiveMinutes | crates/atlas-inventory/src/rate_limit.rs:54-60 | pruning drops exactly the rows more than five minutes older than the pass |
| RateLimiter.FlagsAreReplaced | crates/atlas-gateway/src/state.rs:268-278 | this minute's flags stay, others go, the listed actors join |
| RateLimiter.ZeroMeansOff | crates/atlas-gateway/src/state.rs:228-233 | with a budget of zero no request is denied in any run |
| RateLimiter.FlaggedStaysDenied | crates/atlas-gateway/src/state.rs:231-278 | a flagged actor is allowed nothing more by that process in that minute |
| RateLimiter.ReplicaBudget | crates/atlas-gateway/src/state.rs:231-251 | a replica allows at most rpm per actor and minute, and rpm more for each restart in it, below 2^32 requests |
| RateLimiter.ClusterBudget | crates/atlas-gateway/src/state.rs:231-251 | the cluster allows at most rpm for each process it had in the minute, below 2^32 requests |
| SingleReplica.UnsyncedAnswers | crates/atlas-gateway/src/state.rs:231-251 | without sync the j-th request of a minute passes exactly when j modulo 2^32 is at most rpm |
| SingleReplica.PlainBudgetIff | crates/atlas-gateway/src/state.rs:231-251 | without sync and restarts the budget of a minute is kept exactly below 2^32 requests |
| SingleReplica.SingleReplicaAnswers | crates/atlas-gateway/src/state.rs:201-203 | on one replica, restarts included, the synced answer equals that of an unsynced limiter started with the process exactly when the actor is not flagged while its own count is within the budget |
| SingleReplica.SingleReplicaUnchanged | crates/atlas-gateway/src/state.rs:201-203 | below 2^32 requests in the minute, none before a restart, the sync changes no answer |
| SingleReplica.WrappedIsOverruled | crates/atlas-gateway/src/state.rs:231-278 | for every budget below 2^32 - 1, a run on one replica to such an actor by a wrapped counter |
| SingleReplica.RestartedIsOverruled | crates/atlas-gateway/src/state.rs:286-331 | the same by a restart, after rpm + 1 requests and with none in the new process |
| NativeStore.FakeApi.CreateVolume | crates/atlas-driver-native/src/fake.rs:67-94 | creates once per id, refuses a taken name |
| NativeStore.FakeApi.DeleteVolume | crates/atlas-driver-native/src/fake.rs:96-103 | removes volume and bytes, reports a missing volume |
| NativeStore.FakeApi.ResizeVolume | crates/atlas-driver-native/src/fake.rs:105-116 | grows only |
| NativeStore.FakeApi.CreateSnapshot | crates/atlas-driver-native/src/fake.rs:118-133 | records size and extents |
| NativeStore.FakeApi.CloneSnapshot | crates/atlas-driver-native/src/fake.rs:135-157 | looks up, creates at the snapshot's size or more, then sets its extents, each under its own lock |
| NativeStore.FakeApi.LookUpSnapshot | crates/atlas-driver-native/src/fake.rs:142-145 | the first section of a clone: size and extents, or missing |
| NativeStore.FakeApi.UpdateExtents | crates/atlas-driver-native/src/fake.rs:153-155 | the last section: nothing when the volume is gone |
| NativeStore.FakeApi.RemoveSnapshot | crates/atlas-driver-native/src/fake.rs:201-207 | removes or reports missing |
| NativeStore.FakeApi.ReadBytes | crates/atlas-driver-native/src/fake.rs:159-178 | bounds check, then the buffer's part and zeros |
| NativeStore.FakeApi.WriteBytes | crates/atlas-driver-native/src/fake.rs:180-199 | bounds check, zero-filled growth, overwrite |
| NativeStore.HistoriesAgree | crates/atlas-driver-native/src/fake.rs:67-207 | every history with admitted sizes, clones interrupted between their sections included: replies equal those of a store that maps offsets to last-written bytes; no panic; unique names; buffers only for live volumes and within their size |
| NativeStore.ReadBytesAt | crates/atlas-driver-native/src/fake.rs:159-178 | an accepted read returns at each position the buffer's byte or zero |
| NativeStore.WrittenBytes | crates/atlas-driver-native/src/fake.rs:193-197 | a write changes exactly the bytes written and zero-fills a gap |
| NativeStore.BoundsCheckIsSound | crates/atlas-driver-native/src/fake.rs:166-176 | the saturating check excludes overflow exactly for sizes below u64::MAX, which the driver's size check guarantees |
| NativeStore.CloneIsItsSections | crates/atlas-driver-native/src/fake.rs:135-157 | a clone with nothing in between is its lookup, creation and extents update, each error ending it |
| NativeStore.RetriesAreHarmless | crates/atlas-driver-native/src/fake.rs:67-199 | a create, write, resize, clone or delete delivered one or more times leaves the store of one delivery |
| NativeHttp.HttpApi.Round | crates/atlas-driver-native/src/http.rs:144-221 | endpoints in cyclic order from a valid index; the verdict, the ambiguous bit, the election outcome and the new preferred endpoint |
| NativeHttp.HttpApi.Call | crates/atlas-driver-native/src/http.rs:115-142 | the result is concluded from the last request in the light of all earlier ones; every earlier round was full and met a 421; an undecided call ends with a full round that met none, or at the deadline |
| NativeHttp.ResultsMean | crates/atlas-driver-native/src/http.rs:159-221 | for every method, sequence of replies and result: all but the last reply were failed sends, 421 or 503, and the last decides, each result exactly for its statuses; 404 is Ok only for a DELETE after a timeout or 503, and not-found otherwise |
| NativeHttp.RoundVisitsEachOnce | crates/atlas-driver-native/src/http.rs:151-157 | no endpoint twice in a round, all of them in an undecided one |
| NativeHttp.RoundGoesAround | crates/atlas-driver-native/src/http.rs:151-157 | a round begins with the preferred endpoint and goes on to the next, after the last to the first |
| NativeHttp.AppliesTwiceIff | crates/atlas-driver-native/src/http.rs:16-18 | two requests of a call can both be carried out exactly when one that can is made with the ambiguous bit set |
| NativeHttp.ElectionRetriesAreSafe | crates/atlas-driver-native/src/http.rs:16-18 | undecided rounds without timeout or 503 can have carried out nothing |
| NativeHttp.MixedRoundIsRetried | crates/atlas-driver-native/src/http.rs:191-197 | a round with a 503 and a 421 is retried and can apply a mutation twice |
| NativeHttp.DeleteMeansAbsent | crates/atlas-driver-native/src/http.rs:199-205 | DELETE: Ok means the object is absent, not-found means it was absent before the call |
| Multipart.FillPart | crates/atlas-driver-rgw/src/lib.rs:215-226 | any pattern of short reads fills the part with the next bytes, short only at the end; fails exactly when the source does |
| Multipart.UploadAllParts | crates/atlas-driver-rgw/src/lib.rs:199-247 | fails exactly when the source breaks or the store refuses a part; on success the parts, total and hashed bytes are those of the source; on failure a prefix was uploaded; the counter overflows from the 65535th part on |
| Multipart.PartsAreTheSource | crates/atlas-driver-rgw/src/lib.rs:213-245 | parts concatenate to the source, all but the last are full, at least one, as many as needed |
| Multipart.NumbersAreSequential | crates/atlas-driver-rgw/src/lib.rs:211-237 | part numbers are 1..n exactly up to 65535 parts |
| Multipart.PutMultipartStreaming | crates/atlas-driver-rgw/src/lib.rs:123-197 | any object made consists of exactly the source's parts, of at least 5 MiB but the last; exactly when success is reported, with size and hash, when the call is dropped, when the object exists, when an abort is sent, and when an upload is left behind |
| Multipart.LeftBehindIff | crates/atlas-driver-rgw/src/lib.rs:123-197 | with a store that carries out aborts, the cases in which an upload is left behind, and no others |
| ObjectCopy.DiffIsTheWantedSubsequence | crates/atlas-databridge/src/object.rs:145-162 | the plan is the wanted source objects, each as often as listed and in the listing's order |
| ObjectCopy.FullPlansEverything | crates/atlas-databridge/src/object.rs:145-162 | a full plan is the whole listing |
| ObjectCopy.IncrementalPlansTheRest | crates/atlas-databridge/src/object.rs:145-162 | an incremental plan has an object exactly when the destination lacks its key or has another size |
| ObjectCopy.LastEntryCounts | crates/atlas-databridge/src/object.rs:145-162 | of several entries for a key the last decides, and only listed keys are there |
| ObjectCopy.Verify | crates/atlas-databridge/src/object.rs:381-404 | passes exactly when the destination was listed and has every planned object at its size, otherwise names the first that it has not |
| ObjectCopy.FullVerifiedMeansNothingToDo | crates/atlas-databridge/src/object.rs:145-162 | a full plan verifies exactly when the incremental plan against the same listing is empty |
| ObjectCopy.IncrementalVerifiedMeansNothingToDo | crates/atlas-databridge/src/object.rs:145-162 | the same for an incremental plan over distinct keys when other keys are untouched |
| ObjectCopy.Run | crates/atlas-databridge/src/object.rs:333-379 | succeeds exactly when every copy does, with their count, bytes and checksums; its verified field and error are those of the final verification; progress shows running and overall totals |
| ObjectCopy.TotalsIgnoreOrder | crates/atlas-databridge/src/object.rs:355-369 | totals do not depend on the completion order |
| Feed.Merge | crates/atlas-inventory/src/events.rs:13-104 | the merged rows are in descending order, their timestamps are the first of the descending sort, and the rows come from the queries |
| Feed.Activity | crates/atlas-inventory/src/events.rs:11-104 | the feed is in descending order and its timestamps are the first of the descending sort of the three whole tables |
| Feed.FeedIsTheNewestOverall | crates/atlas-inventory/src/events.rs:11-104 | they equal the first of the descending sort of all three whole tables, however ties fall |
| Feed.NewestIsSortedPrefix | crates/atlas-inventory/src/events.rs:18-24 | any answer to the limited query is the prefix of the sorted table |
| Feed.LatestIdsAreNewest | crates/atlas-inventory/src/events.rs:45-51 | the audit query by id qualifies when ids and timestamps agree |
| Backup.KeyOrderIsTimeOrder | crates/atlas-gateway/src/startup.rs:854-854 | for every u64 epoch key order is time order, and keys determine time and kind |
| Backup.Prune | crates/atlas-gateway/src/startup.rs:860-869 | removes exactly all but the last `keep` of the listing that the store agrees to delete |
| Backup.KeepsTheLast | crates/atlas-gateway/src/startup.rs:864-869 | min(n, keep) keys stay and none deleted is above one kept |
| Backup.SurvivesIffFewAbove | crates/atlas-gateway/src/startup.rs:864-869 | a key survives exactly when fewer than `keep` listed keys are above it |
| Backup.ForeignKeyEvicts | crates/atlas-gateway/src/startup.rs:860-869 | with one to keep, a foreign key sorting above evicts the only backup, for every prefix and time |
| Backup.DeletesTheOldest | crates/atlas-gateway/src/startup.rs:799-800 | over own keys no deleted backup is newer than a kept one |
| Backup.NewestSurvives | crates/atlas-gateway/src/startup.rs:854-869 | the newest backup survives when at least one is kept |
| Devices.MatchesExactlyThePartitions | crates/atlas-driver-zfs/src/cmd.rs:488-513 | the match accepts the disk's name and its partitions' names and nothing else |
| Devices.AcceptedShape | crates/atlas-common/src/device.rs:15-80 | an accepted name is letters after sd or vd, or digits and n ending in a digit after nvme |
| Devices.AcceptedIff | crates/atlas-common/src/device.rs:15-80 | a path is accepted exactly when it is /dev/sd or /dev/vd with letters other than a, or /dev/nvme with a controller and namespace number other than 0 and 1 |
| Devices.DisksDoNotShareVdevs | crates/atlas-driver-zfs/src/cmd.rs:494-513 | no vdev name, full or bare, matches two accepted disks |
| Devices.FindZpoolMember | crates/atlas-driver-zfs/src/cmd.rs:515-549 | the header governing the first listing line inside a pool's section, none exactly when there is no such line |
| PoolReport.ReportIsReadBack | crates/atlas-driver-zfs/src/cmd.rs:515-549 | in every printed report a line is a hit exactly when it stands in a pool's section and its first word is the disk's path, bare name or alias or a partition of one; the pool is the one whose header is the nearest above |
| PoolReport.ReadsPool | crates/atlas-driver-zfs/src/cmd.rs:523-529 | a printed header is read back as its pool's name |
| PoolReport.ReadsEntry | crates/atlas-driver-zfs/src/cmd.rs:523-532 | any other printed line is no header and its first word is read back |
| Devices.TrimMeaning | crates/atlas-driver-zfs/src/cmd.rs:525-525 | trimming takes off all the space at both ends and nothing else |
| Devices.MatchesAliasIff | crates/atlas-driver-zfs/src/cmd.rs:533-541 | an alias match accepts exactly the alias and its -part names |
| Devices.AliasesClashIff | crates/atlas-driver-zfs/src/cmd.rs:533-541 | two by-id aliases share a vdev name exactly when one is the other or a partition of it |
| Devices.LinesBelongToOneDisk | crates/atlas-driver-zfs/src/cmd.rs:515-549 | no line makes two accepted disks members, by path, bare name or by-id alias |
| Percentile.PercentileUs | crates/atlas-api-types/src/lib.rs:746-759 | the value of the first bucket whose saturating total reaches the target, or of the last bucket |
| Percentile.BucketValue | crates/atlas-api-types/src/lib.rs:736-759 | one microsecond for the first bucket, double for each further, 2^63 from bucket 63 on |
| Percentile.PercentilesAreMonotone | crates/atlas-api-types/src/lib.rs:736-759 | a higher percentile is never a lower value, for every histogram and count, so p50 is at most p99 |
| Percentile.PercentileIsExact | crates/atlas-api-types/src/lib.rs:746-759 | when buckets add up to the count and the product is within the bound, the least bucket whose share reaches the percentile |
| Percentile.ExactIff | crates/atlas-api-types/src/lib.rs:746-759 | for every u64 count and percentile, all such histograms are answered exactly if and only if the product is within the bound |
| Percentile.TooLowBeyond | crates/atlas-api-types/src/lib.rs:746-759 | beyond it, a histogram of two buckets that is not |

## Left out

- JSON, CLI and HTTP plumbing: replies are modelled after parsing, with missing fields optional.
- Forced promotes and resync: they give up the property on purpose.
- The calendar: instants are broken-down times or milliseconds; converting between them is chrono's.
- Plan deletion, object migrations' rows and other plans: the model follows one plan; its rows do not touch another's.
- Overflow of `monitor_interval_secs * 3` in the lease TTL, poisoned locks, and one process's threads straddling a minute inside `allow`.
- Two reconcilers at once in `CdcRestart`: one leader runs it. `DataBridge` allows any number of passes at once.
- True replication lag: only the recorded values are spoken of; the synthesized drain also rewrites real streams.
- The store's commit index, filesystems and filesystem snapshots: counters and maps of the same shape as the volumes.
- Reading the by-id listing of the host: aliases are inputs. Whitespace is ASCII.
- Device refusal reasons, the Ceph health rollup, readiness assessment, MiB rounding and id prefixes: branch-by-branch facts.
- Hashing: the model says which bytes are hashed.
- Feed.Activity: like `Feed.LatestIdsAreNewest`, assumes ids and timestamps agree; the audit query orders by id.
- RateLimiter.ClusterBudget: with the sync on, stated one way and below 2^32 requests per minute; past that the counter starts over.
- Concurrent calls of one HTTP client: they share only the preferred endpoint, which a round reads once.
