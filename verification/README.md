# VES gateway agent: a verified model

This project models the stateful core of the VES gateway agent and proves, in Dafny, what its
parts promise. `dafny verify dfyconfig.toml` checks all of it.

The parts, by module:

- **AgentState, Fsm, LogReadings, Replication** (`ves-agent/ha`). The agent state that a commit log
  replicates, every command on it, what a log says about it, snapshots, and clusters of replicas that
  apply, restart from snapshots, have snapshots installed over their live state and, as leaders, write
  outside the log.
- **FaultManager, FaultRuns, FaultLifecycle, FaultConvergence, PromptCluster, ManagedCluster,
  LostWrites** (`ves-agent/convert`, and the fault part of `ves-agent/ha`). Alerts become numbered
  faults over one of three stores; every answer is told from the history of alerts; a follower that
  sees only the log agrees with a leader that also writes outside it, except exactly where an epoch
  write was refused.
- **TimeGrid, Scheduler, GridCoverage, IntervalChanges, ChangingCoverage, LogBackedScheduler**
  (`ves-agent/scheduler`, the buffering cap of `ves-agent/metrics`). Periodic runs on a grid of
  instants, with failures, retries, changes of interval, and a state that goes through the log in
  whole seconds.
- **Evel, Failover** (`govel`). Posting a batch by halving what is too large, and the retry loop over
  two collectors around it.
- **MeasurementSet, FieldPath** (`ves-agent/metrics/set.go`). The measurement set builder: nested lists
  that stand for a flat map, and the update of a value tree along a path of field names.
- **UuidText, UuidCodec, UuidV1** (`ves-agent/go.uuid`). The text forms of UUIDs and the time-based
  generator, after sections 3, 4.1 and 4.2.1 of RFC 4122.
- **KafkaSequence** (`ves-agent/agent`). The stamping and recording of live events, and the start
  offset of a replay, with a store that may lose writes unnoticed.

Conventions. Where the code updates fields, a class holds them, and each of its methods is proved
to compute a function on values; the theorems are about these functions. Times are integer
nanoseconds since Go's zero time. Everything that the code obtains from outside is an input: clock
readings, results of jobs, of HTTP requests and of log appends, random bytes, the order in which Go
walks a map. Integer widths are written out where an operation can wrap.

Where the code and its comments disagree, the model follows the code:

- `FSM.Restore` says that it discards the previous state; the fault maps are merged into it.
  `RestoreExactness` says exactly when that makes no difference, `DeletedFaultSurvives` what comes
  back where it does.
- The comment on `UnmarshalText` allows hash-like digits in braces; the length switch rejects them
  (`BracedHashLikeRejected`).
- The factory in `CollectMetrics` stamps a configured source name, while the builder looks events up
  by VM id: `InTreeRefinesIff` and `InTreeDistinctIff` say exactly when that does no harm.
- A replay reads the stored offset and the stored sequence in two requests without the lock:
  `ReplayExactness` says exactly when the start offset is right, `ReplayStart` how early it is.
- `SetInterval` keeps the next run on the new grid only while no interval is more than twice as long
  as the time it rounds: `SetIntervalEffect` gives the exact condition.
- A negative limit of missed posts makes `perform` return nil without an attempt (`Failover.Ended`).

## Model

| member | source | states |
|---|---|---|
| Fsm.InMemState.UpdateNextRun | VESPA/ves-agent/ha/state.go:97-100 | sets the next run of a scheduler, created if absent, and keeps its interval and all else |
| Fsm.InMemState.UpdateInterval | VESPA/ves-agent/ha/state.go:110-113 | sets the interval of a scheduler, created if absent, and keeps its next run and all else |
| Fsm.InMemState.GetOrCreateScheduler | VESPA/ves-agent/ha/state.go:68-75 | returns the entry, or a zero one that is added |
| Fsm.InMemState.NextMeasurementIndex | VESPA/ves-agent/ha/state.go:77-81 | returns the counter and increments it, with int64 wrap-around |
| Fsm.InMemState.NextHeartbeatIndex | VESPA/ves-agent/ha/state.go:83-87 | returns the counter and increments it, with int64 wrap-around |
| Fsm.InMemState.NextFaultIndex | VESPA/ves-agent/ha/state.go:123-128 | increments the counter and returns it, with int32 wrap-around |
| Fsm.InMemState.InitAlertInfos | VESPA/ves-agent/ha/state.go:130-134 | infos of the id become sequence 1, epoch 0 |
| Fsm.InMemState.StoreFaultInStorage | VESPA/ves-agent/ha/state.go:145-149 | the name stands for the id |
| Fsm.InMemState.DeleteFaultInStorage | VESPA/ves-agent/ha/state.go:152-159 | drops the name and the infos of the id that it stood for |
| Fsm.InMemState.IncrementFaultSn | VESPA/ves-agent/ha/state.go:170-177 | increments the sequence of a known id, fails without effect on an unknown one |
| Fsm.InMemState.SetFaultStartEpoch | VESPA/ves-agent/ha/state.go:188-199 | sets the epoch, initialising absent infos first |
| Fsm.InMemState.TakeSnapshot | VESPA/ves-agent/ha/state.go:201-225 | the copying loops yield every counter and map of the state |
| Fsm.InMemState.Restore | VESPA/ves-agent/ha/state.go:227-247 | counters and schedulers become the snapshot's, the two fault maps are overridden by it |
| Fsm.CopyOver | VESPA/ves-agent/ha/state.go:238-246 | the copying loop merges a map over another in any order of its keys |
| Fsm.FSM.HandleSchedulerUpdate | VESPA/ves-agent/ha/fsm.go:141-156 | interval then next run, whole seconds; an error if the fields are absent |
| Fsm.FSM.HandleFaultUpdate | VESPA/ves-agent/ha/fsm.go:158-185 | the three updates in order; a failing one keeps what the earlier ones did |
| Fsm.FSM.ProcessCmd | VESPA/ves-agent/ha/fsm.go:122-139 | state and answer of every type of command, unknown types included |
| Fsm.FSM.Apply | VESPA/ves-agent/ha/fsm.go:83-98 | state and answer of a log entry; one that cannot be decoded changes nothing |
| LogReadings.CountersCount | VESPA/ves-agent/ha/fsm.go:122-139 | after every log the three counters are the numbers of their commands in it, wrapped to int64 and int32, whatever lies between |
| LogReadings.SchedulersReadBack | VESPA/ves-agent/ha/state.go:97-113 | after every log each scheduler has the interval and the next run last set for it, and none of another's |
| LogReadings.NamesReadBack | VESPA/ves-agent/ha/state.go:145-159 | after every log a fault name stands for the id last stored with it, unless it was deleted since |
| LogReadings.InfosReadBack | VESPA/ves-agent/ha/fsm.go:158-185 | after every log the infos of a fault are those that the entries for it say: begun at sequence 1 by an epoch, counted up by increments since, with the last epoch, gone with the deletion of its name |
| LogReadings.AnswersReadBack | VESPA/ves-agent/ha/fsm.go:83-139 | in every log each answer is told by the entries before it: the n-th measurement and heartbeat index is n - 1 and the n-th fault index n, counted apart; every error has its cause in the log |
| Replication.RestoreExactness | VESPA/ves-agent/ha/state.go:227-247 | restoring a snapshot of t over s gives t if and only if s holds no fault name and no fault id that t lacks |
| Replication.CompactionPreservesMeaning | VESPA/ves-agent/ha/fsm.go:101-139 | for every log and every cut: snapshot of the prefix plus the suffix gives the state of the whole log and the answer of every command, failed ones included |
| Replication.ReplayConcat | VESPA/ves-agent/ha/fsm.go:83-98 | applying a log is applying its parts in turn, in state and in answers |
| Replication.FaultsOnlyGrow | VESPA/ves-agent/ha/fsm.go:122-185 | without a delete command no fault name and no fault id disappears |
| Replication.LaggingNodeCatchesUp | VESPA/ves-agent/ha/fsm.go:106-120 | a node at p that receives the snapshot of q over its state is in q's state if no fault was deleted in between |
| Replication.DeletedFaultSurvives | VESPA/ves-agent/ha/state.go:238-246 | for every log, a fault held at p and gone at q is back, with the infos of its id, on a node at p that receives the snapshot of q |
| Replication.SurvivingFault | VESPA/ves-agent/ha/state.go:151-159 | a log of two commands to which this happens |
| Replication.AheadStep | VESPA/ves-agent/ha/fsm.go:158-185 | applying the next entry keeps a replica ahead of its log prefix by nothing but initial infos; of a fault whose epoch it writes or which it deletes the two then have the same infos |
| Replication.InvStep | VESPA/ves-agent/ha/fsm.go:83-120 | every step of a cluster (append, apply, snapshot, reset, restart, install, write outside the log) keeps each replica and each stored snapshot in agreement with its log prefix |
| Replication.CountersAndSchedulersAgree | VESPA/ves-agent/ha/fsm.go:83-120 | in every cluster run, whatever is installed when, each replica has the counters and schedulers of the log prefix that it applied |
| Replication.ReplicasAgree | VESPA/ves-agent/ha/raft.go:262-265 | in every cluster run, with leaders that write infos outside the log and snapshots taken meanwhile, whose installs meet no live fault that the snapshot lacks and whose increments follow the infos: each replica has the state of its log prefix and beyond it at most initial infos of bypassed ids; without bypassing exactly the state; replicas at one index differ in nothing else |
| FaultManager.Manager.DoStoreFault | VESPA/ves-agent/convert/store.go:167-202 | a known name gives its id; a new one the next index, stored and initialised; a write that fails ends it in error with what the writes before it did |
| FaultManager.Manager.DoAlertToFault | VESPA/ves-agent/convert/converter.go:56-170 | store, answer and commit for every alert and every fate of the writes: unknown severity, unknown fault and failing writes included |
| FaultManager.Manager.DoCommit | VESPA/ves-agent/convert/converter.go:157-168 | a clear deletes the fault, any other event increments its sequence; fails if the write does or the id is unknown |
| FaultManager.CommitFitsAnswer | VESPA/ves-agent/convert/converter.go:100-169 | for every store, alert and fate of the writes: the deletion of the fault comes exactly with Cleared, the increment of its own id exactly with Stored and AlreadyExist, and no callable commit with InError and NotExist |
| FaultManager.StaticPart | VESPA/ves-agent/convert/converter.go:174-185 | the service up to its first '=', or all of it |
| FaultManager.SharedFaultName | VESPA/ves-agent/convert/converter.go:174-185 | two pairs of id and service can lead to one fault name, for some sources, if and only if what one name starts with is a prefix of what the other starts with |
| FaultManager.SameFaultIff | VESPA/ves-agent/convert/converter.go:174-185 | names tell faults apart by id, source and the service before its '=', for all sources, if and only if the two alerts agree in id and service or their heads do not clash |
| FaultManager.NoSeparatorNoClash | VESPA/ves-agent/convert/converter.go:174-185 | without separators in ids and services only alerts that agree in both clash |
| FaultRuns.NewFault | VESPA/ves-agent/convert/store.go:181-200 | on all three stores a new fault takes the id after the last, with fresh infos |
| FaultRuns.Ops | VESPA/ves-agent/convert/store.go:96-115 | on all three stores the epoch and the sequence of a known id change alike |
| FaultRuns.Deleting | VESPA/ves-agent/convert/store.go:85-88 | on all three stores the name goes; the infos stay only in the manager's own store |
| FaultRuns.HandleView | VESPA/ves-agent/convert/converter.go:90-169 | a store that agrees with the history answers an alert as the history says |
| FaultRuns.HistoryDecides | VESPA/ves-agent/convert/converter.go:90-169 | in every run of at most 2^31 - 1 stored faults, however many alerts: status, id, sequence and start epoch of each answer are those computed from the alerts and commits before it |
| FaultRuns.StoresIndistinguishable | VESPA/ves-agent/convert/store.go:62-115 | the manager's own store, the agent state and the replicated agent state give equal answers in every such run |
| FaultRuns.SnAfterCounts | VESPA/ves-agent/convert/store.go:96-99 | below the int64 limit the sequence is one plus the number of increments |
| FaultLifecycle.RunsAreHistories | VESPA/ves-agent/convert/converter.go:90-169 | the runs are the histories that the other lifecycle results speak of |
| FaultLifecycle.IdsAreCounted | VESPA/ves-agent/convert/store.go:181-194 | the id of every stored fault is its number in the order of storing: 1, 2, 3, ... |
| FaultLifecycle.IdsIncrease | VESPA/ves-agent/convert/store.go:181-194 | no id is given twice |
| FaultLifecycle.ActiveNamesAreInjective | VESPA/ves-agent/convert/store.go:174-194 | names active together have different ids, none of them 0 |
| FaultLifecycle.OneLife | VESPA/ves-agent/convert/converter.go:134-146 | from storing to clearing a fault has one name and one start epoch, and its sequence counts the committed events |
| FaultLifecycle.ClearedForGood | VESPA/ves-agent/convert/converter.go:157-163 | after a committed clear no later event has the id |
| FaultLifecycle.NumberingWraps | VESPA/ves-agent/ha/state.go:123-128 | after any run that stored 2^31 - 1 faults the next new fault has id -2^31, on all three stores |
| FaultLifecycle.Storing | VESPA/ves-agent/convert/store.go:167-202 | there is a run that stores n faults, for every n up to 2^31 - 1 |
| FaultConvergence.BypassExactness | VESPA/ves-agent/ha/state.go:188-199 | the write outside the log is made good by the next logged one if and only if the follower has no infos for the id, or has them at sequence 1 |
| FaultConvergence.InBetween | VESPA/ves-agent/ha/raft.go:256-287 | write by write through a new fault: leader and follower differ only between the unlogged write and the epoch, only in the infos of the new id |
| FaultConvergence.FollowersConverge | VESPA/ves-agent/ha/raft.go:247-294 | in every run of at most 2^31 - 1 stored faults a follower that applies only the log equals the leader after each completed operation, and the log is one for which ReplicasAgree holds |
| ManagedCluster.PlanCareful | VESPA/ves-agent/convert/converter.go:90-169 | the writes of every such run, in and outside the log, are steps of a cluster as ReplicasAgree and AheadByTheLast ask for, and leave its leader in the state of the manager's store |
| PromptCluster.AheadByTheLast | VESPA/ves-agent/ha/raft.go:256-265 | in every cluster run in which a write outside the log is followed by the epoch of its fault: each replica has the state of its log prefix, or that with the initial infos of the one fault numbered last in it, and then the next entry is the epoch that makes it good |
| ManagedCluster.ManagedReplicasAgree | VESPA/ves-agent/ha/raft.go:262-265 | the manager's writes mixed in any order with what the other replicas do, and stopped anywhere, even half-way through an alert: each replica has the state of its log prefix, or is ahead of it by the initial infos of the fault numbered last alone; replicas at one index differ in nothing else |
| ManagedCluster.PlanEndsInSync | VESPA/ves-agent/ha/raft.go:247-294 | taken to its end the run leaves leader and log in step |
| LostWrites.EpochApart | VESPA/ves-agent/ha/raft.go:256-265 | the write outside the log is made good by the epoch write unless that is refused |
| LostWrites.FailuresLoseInfos | VESPA/ves-agent/convert/converter.go:134-142 | in every run of at most 2^31 - 1 indices, with any writes refused or committed unheard and any changes of leader: leader and follower agree on all but the infos of uncleared faults whose epoch was refused under this leader, which only it has, and are equal if and only if there is none; a stored fault has no infos on the leader if and only if its name was committed unheard or its infos were lost at a change of leader, and it was not cleared since |
| LostWrites.BareFaultAnswers | VESPA/ves-agent/ha/state.go:161-177 | an alert for a stored fault without infos is answered with its id but sequence and epoch 0, and its commit fails |
| LostWrites.LostFaultAfterElection | VESPA/ves-agent/ha/state.go:161-177 | so does a new leader for a fault whose epoch was refused under the old one, which had both |
| LostWrites.NothingLost | VESPA/ves-agent/convert/converter.go:134-142 | if no epoch write is refused leader and follower stay equal, whatever else fails; if no name write is committed unheard either, every stored fault keeps its infos |
| TimeGrid.TruncateOnGrid | VESPA/ves-agent/scheduler/scheduler.go:212-212 | truncation gives the last grid instant up to a time |
| TimeGrid.RoundOnGrid | VESPA/ves-agent/scheduler/scheduler.go:145-150 | rounding gives a grid instant at most half an interval away |
| Scheduler.PeriodicScheduler.DoNextRun | VESPA/ves-agent/scheduler/scheduler.go:161-175 | the stored next run, or the rounded clock, stored if the store accepts it |
| Scheduler.PeriodicScheduler.DoStep | VESPA/ves-agent/scheduler/scheduler.go:227-239 | not ready, or the job over the window from the next run to now; remembered only if it succeeded |
| Scheduler.PeriodicScheduler.DoAck | VESPA/ves-agent/scheduler/scheduler.go:208-220 | nothing without a successful run; otherwise the next run moves past it, unless the store refuses |
| Scheduler.PeriodicScheduler.DoSetInterval | VESPA/ves-agent/scheduler/scheduler.go:133-158 | no change for the current interval; otherwise interval and rounded next run are stored together |
| GridCoverage.AckKeepsInv | VESPA/ves-agent/scheduler/scheduler.go:208-220 | an acknowledgement keeps the tiling of the grid and moves the next run strictly past the acknowledged end |
| GridCoverage.StepKeepsInv | VESPA/ves-agent/scheduler/scheduler.go:227-239 | a step, successful or not, keeps it |
| GridCoverage.ExactlyOnce | VESPA/ves-agent/agent/agent.go:452-474 | in every run of steps and acknowledgements, failed or not, each grid instant from the first acknowledged window to the next run lies in exactly one acknowledged window, and none lies in two |
| GridCoverage.ReadyIff | VESPA/ves-agent/scheduler/scheduler.go:178-182 | a step is not ready if and only if the next run that a peek would show is after its first reading; otherwise the job gets the window from the next run to its own clock and the interval in force |
| GridCoverage.Progress | VESPA/ves-agent/scheduler/scheduler.go:208-239 | after every run a due step whose job succeeds and a stored acknowledgement leave every grid instant from the first acknowledged window up to the step's clock in exactly one acknowledged window |
| GridCoverage.CoverageStart | VESPA/ves-agent/scheduler/scheduler.go:161-175 | also from a fresh state: the first acknowledged window starts at the next run that a peek or a step set first, or at the instant of a step whose lazy writes were both refused |
| GridCoverage.StartStays | VESPA/ves-agent/scheduler/scheduler.go:227-239 | a next run that is set stays until acknowledged and is where the first acknowledged window starts |
| GridCoverage.AdjustStartBounds | VESPA/ves-agent/metrics/collector.go:119-125 | the adjusted start is on the grid and not before the start; without a maximum it is the start; with one it is less than that plus interval before the end, and moves only past what is older |
| GridCoverage.CollectedAtMostOnce | VESPA/ves-agent/metrics/collector.go:165-209 | over whole runs no grid instant is collected by two acknowledged windows, and one is skipped only with a positive maximum and older than its window's end minus that |
| IntervalChanges.StoredByChange | VESPA/ves-agent/scheduler/scheduler.go:133-155 | a change that takes effect stores the new interval and a next run on its grid, at most half of it after the clock; that is the zero time, none at all, if and only if the interval is more than twice the time rounded |
| IntervalChanges.SetIntervalEffect | VESPA/ves-agent/scheduler/scheduler.go:133-158 | after every change that takes effect the next run is on the new grid if and only if the interval was not overlong, or the new start on the default grid was refused or falls on it |
| IntervalChanges.NextRunOnCurrentGrid | VESPA/ves-agent/scheduler/scheduler.go:124-175 | from a fresh state, through any steps, acknowledgements and changes, the next run is a multiple of the current interval; after an overlong change, until the next acknowledgement or change, of the default one |
| IntervalChanges.JobsGetLastSet | VESPA/ves-agent/scheduler/scheduler.go:124-158 | in every run each job gets the interval last asked for and stored, one that is not positive standing for the default; a change and an acknowledgement report a failure exactly when the store refuses what they had to write |
| LogBackedScheduler.LogTruncationIsInvisible | VESPA/ves-agent/ha/raft.go:212-235 | with whole-second intervals every run, overlong changes and any clock included, over the log-replicated state shows the windows, answers and next runs of the same run over exact memory |
| LogBackedScheduler.LogKeepsWholeSeconds | VESPA/ves-agent/ha/fsm.go:151-153 | the log keeps a next run if and only if it is a whole second |
| LogBackedScheduler.FractionalIntervalDrifts | VESPA/ves-agent/ha/raft.go:213-217 | for every default interval that is no whole second, two peeks within two intervals of 2025 that show the log's error |
| LogBackedScheduler.FractionalChangeDrifts | VESPA/ves-agent/ha/raft.go:231-235 | for every change to such an interval, a change and a peek within three intervals of 2025 that show it |
| LogBackedScheduler.InvisibleIffWholeSeconds | VESPA/ves-agent/ha/raft.go:212-235 | for every default and every set of intervals: no run with clocks between 2025 and three of the longest intervals later shows a difference between log and exact memory if and only if all of them are whole seconds |
| IntervalChanges.FirstChangeIsNotOverlong | VESPA/ves-agent/scheduler/scheduler.go:133-150 | with a clock past the longest interval, the first change from a fresh state is not overlong |
| IntervalChanges.OverlongIntervalLeavesGrid | VESPA/ves-agent/scheduler/scheduler.go:145-166 | seventeen changes at the clock of 2025, none acknowledged between, that take the next run off the grid |
| ChangingCoverage.ChangeMoves | VESPA/ves-agent/scheduler/scheduler.go:133-155 | a change puts the next run at most half the new interval away from where it was, or from the clock if it was still ahead; it leaves the next run where it was if and only if that is on the new grid and, if still ahead, the nearest instant to the clock |
| ChangingCoverage.WindowsJoin | VESPA/ves-agent/agent/agent.go:452-474 | in every run with changes of interval, overlong ones included: each acknowledged window overlaps the one before by less than half of the intervals rounded to in between, and starts at most half of them after the next run set before or the last clock rounded; without a change exactly at that next run |
| Evel.SplitConserves | VESPA/govel/evel.go:189-209 | what reached the collector is a prefix of the stamped batch, all of it on success, in non-empty requests within the limit, at most one per event; a panic happens only at an event that exceeds the limit alone, the first not received |
| Evel.PostingByHalves | VESPA/govel/evel.go:189-209 | a batch with its empty names and ids filled in by the collector's is refused unsent if invalid, sent as one request if within the limit, and otherwise posted as its first half, rounded down, and then its second; a single event over the limit panics |
| Evel.PostedIffEachFits | VESPA/govel/evel.go:198-207 | over a working connection a batch is posted if and only if each of its events fits alone |
| Evel.UpdateReportingEntityName | VESPA/govel/event.go:82-88 | fills the empty names of the slice and touches nothing else |
| Evel.UpdateReportingEntityID | VESPA/govel/event.go:93-99 | fills the empty ids of the slice and touches nothing else |
| Evel.Collector.DoPost | VESPA/govel/client.go:120-141 | an invalid body fails, a large one is reported unsent, any other meets the fate of its request |
| Evel.Collector.PostBatch | VESPA/govel/evel.go:189-209 | outcome, requests made and stream received are those of the splitting; each event of the slice keeps its body and its non-empty header fields, an empty name becomes the collector's name and an empty id its id |
| Evel.Collector.PostHalves | VESPA/govel/evel.go:199-206 | first half, then second half if the first succeeded; panics on a single event |
| Failover.Schedule | VESPA/govel/cluster.go:210-267 | with limit M >= 1 attempt 0 uses the starting collector and attempt n the starting or the other by the parity of (n - 1) / M, and the loop never gives up |
| Failover.SingleCollector | VESPA/govel/cluster.go:254-267 | with one collector all attempts use it |
| Failover.EndToEndDelivery | VESPA/govel/cluster.go:206-251 | after success the stream of the collector used last ends with the whole batch in order, each earlier attempt added only a prefix of it to its own collector, and nothing else was sent; every event carries its own body, name and id, or where these were empty the first that the collectors tried by then gave |
| Failover.FirstCollectorNames | VESPA/govel/evel.go:194-195 | an empty name or id takes that of the collector tried first, if it has one, and keeps it through later attempts and switches |
| Failover.LimitZero | VESPA/govel/cluster.go:217-251 | with a limit of zero one failed attempt leaves the cluster at the other collector, if there is one, which has received nothing |
| Failover.PrefixContribution | VESPA/govel/cluster.go:218-249 | every attempt, failed or not, sends a prefix of the batch as filled in by then, all of it if it succeeds |
| Failover.Cluster.SwitchCollector | VESPA/govel/cluster.go:254-267 | the other collector if there is one |
| Failover.Cluster.Iterate | VESPA/govel/cluster.go:218-249 | one attempt; on failure the counter goes on, or is reset with a switch at the limit |
| Failover.Cluster.PostBatch | VESPA/govel/cluster.go:206-251 | returns only at the first attempt that does not fail, in the world that the attempts made; after one failure and a switch if the limit is 0; at once if it is negative; otherwise still runs after any number of attempts, in the world that their failures made |
| Failover.RunsPastFailures | VESPA/govel/cluster.go:210-251 | the loop has gone past failed attempts only |
| MeasurementSet.JSONObjectKeys | VESPA/ves-agent/metrics/set.go:51-58 | lists each pair once |
| MeasurementSet.MatchJSONObjectKeys | VESPA/ves-agent/metrics/set.go:62-72 | same number, and every listed pair is in the key set |
| MeasurementSet.MatchIffSame | VESPA/ves-agent/metrics/set.go:51-72 | a key set matches the list of another if and only if they are equal |
| MeasurementSet.MicrosTruncate | VESPA/ves-agent/metrics/set.go:133-135 | events are told apart by the whole microseconds of the timestamp, cut off toward the Unix epoch |
| MeasurementSet.CallFailsIff | VESPA/ves-agent/metrics/set.go:183-190 | a call fails, changing nothing, if and only if one of its names is empty, or it has no event yet and the factory fails |
| MeasurementSet.Search | VESPA/ves-agent/metrics/set.go:192-208 | the linear search finds the first fitting entry |
| MeasurementSet.Builder.Find | VESPA/ves-agent/metrics/set.go:133-147 | the first event of the source and microsecond, or a created one at the end |
| MeasurementSet.Builder.SetAdditionalObject | VESPA/ves-agent/metrics/set.go:183-219 | the nested update and its failures, by three searches |
| MeasurementSet.BuilderRefinesFlatMap | VESPA/ves-agent/metrics/set.go:133-219 | after any calls: one event per source and microsecond, one object per name, one instance per key set, and exactly the last values set; calls fail as on the flat map |
| MeasurementSet.OneEventPerCall | VESPA/ves-agent/metrics/collector.go:171-202 | if no call is for the configured source name, each call served makes its own event with its single value |
| MeasurementSet.InTreeRefinesIff | VESPA/ves-agent/metrics/collector.go:171-202 | with the in-tree factory the set stands for the flat map if and only if every call served is for the configured source name |
| MeasurementSet.InTreeDistinctIff | VESPA/ves-agent/metrics/collector.go:171-202 | and has one event per source and microsecond if and only if every call for another name is the first of its microsecond |
| FieldPath.SliceSearch | VESPA/ves-agent/metrics/set.go:285-302 | the first entry that no key contradicts in a field that it names; that entry has the keys' values in all string fields that they name |
| FieldPath.SetByType | VESPA/ves-agent/metrics/set.go:229-281 | whatever the outcome the type is kept; success only if the path leads to a float in the type, failure only if not, panic only if some slice on the path has entries that are no structs or a key that names a field that is no string |
| FieldPath.PanicsIffUnfit | VESPA/ves-agent/metrics/set.go:306-323 | some value of the type makes a set panic if and only if the keys do not fit along the path |
| FieldPath.SetIffResolves | VESPA/ves-agent/metrics/set.go:229-281 | with fitting keys a set succeeds if the path leads to a float in the type and fails if not, whatever the value |
| FieldPath.GetAfterSet | VESPA/ves-agent/metrics/set.go:229-323 | reading the same path with the same keys gives the value set, through any nesting and with any keys |
| FieldPath.SetEntersSelected | VESPA/ves-agent/metrics/set.go:262-323 | in every slice on its way a set enters an entry that has the keys' values in all string fields that they name: the first that does not contradict them, or a new one if all do |
| FieldPath.SetKeepsOthers | VESPA/ves-agent/metrics/set.go:262-323 | a set with one key set does not change what is read along the path with another that differs in a string field that both name, in some slice on the way |
| FieldPath.PlaceholderKeys | VESPA/ves-agent/metrics/set.go:291-299 | a key that names a field that is no string selects an entry only with the text that reflection prints for its type |
| FieldPath.NoStructsPanic | VESPA/ves-agent/metrics/set.go:262-323 | a slice whose entries are no structs panics, and has grown by a zero entry exactly if it was empty and there are no keys |
| FieldPath.SetFrame | VESPA/ves-agent/metrics/set.go:229-323 | every existing value that is not on the way to the target is unchanged, whatever the outcome; on the way nil pointers are set and a slice gains one entry at most, and only if none was selected; at the target is the value |
| FieldPath.SetAddsBlanks | VESPA/ves-agent/metrics/set.go:229-323 | all that a set adds beside the way to the target is zero or the text of a key |
| FieldPath.NewEntryFits | VESPA/ves-agent/metrics/set.go:306-323 | an appended entry has the slice's type and is selected by its keys |
| FieldPath.SetLaws | VESPA/ves-agent/metrics/set.go:160-180 | rejected calls change nothing; with fitting keys any other call stores if the path leads to a float, and empties and invalidates the builder if not; a stored value reads back, all other events are unchanged and at most one is new |
| UuidText.AcceptedTexts | VESPA/ves-agent/go.uuid/codec.go:95-110 | accepts exactly hash-like, canonical, braced canonical, URN hash-like and URN canonical texts of 32 hex digits of either case |
| UuidText.ShapesAreParsed | VESPA/ves-agent/go.uuid/codec.go:95-189 | each shape parses to the bytes of its digits |
| UuidText.ParseString | VESPA/ves-agent/go.uuid/uuid.go:116-130 | parsing a printed UUID gives it back |
| UuidText.StringOfParsed | VESPA/ves-agent/go.uuid/uuid.go:116-130 | printing a parsed text gives the canonical form of its digits with every capital A to F in lower case |
| UuidText.PrintedDigits | VESPA/ves-agent/go.uuid/uuid.go:116-130 | each byte is printed as its two digits out of 0123456789abcdef, high one first, with dashes at 8, 13, 18 and 23 |
| UuidText.DigitsByPlace | VESPA/ves-agent/go.uuid/codec.go:126-129 | each of the sixteen digits stands for its place, in lower and in upper case |
| UuidText.OnlyDigits | VESPA/ves-agent/go.uuid/codec.go:126-129 | no other character is a digit |
| UuidText.BracedHashLikeRejected | VESPA/ves-agent/go.uuid/codec.go:95-110 | hash-like digits in braces are rejected |
| UuidCodec.HexDecodeInto | VESPA/ves-agent/go.uuid/codec.go:126-129 | succeeds if and only if all are hex digits; writes the bytes of the pairs before the first bad one and nothing else |
| UuidCodec.DecodeCanonicalInto | VESPA/ves-agent/go.uuid/codec.go:114-135 | the loop over the groups decodes what the dashed text writes; a failure leaves the bytes before the first bad pair written |
| UuidCodec.DecodePlainInto | VESPA/ves-agent/go.uuid/codec.go:180-189 | hash-like or canonical by length; the array after success and after failure |
| UuidCodec.UnmarshalText | VESPA/ves-agent/go.uuid/codec.go:95-110 | the decoders in place accept and write what Parse says; the array after a failure holds the bytes before the first bad pair, or is unchanged if the shape is wrong |
| UuidCodec.ToString | VESPA/ves-agent/go.uuid/uuid.go:116-130 | the filled buffer is the canonical text |
| UuidV1.StampsReadBack | VESPA/ves-agent/go.uuid/uuid.go:89-151 | version and variant read back what was set, and every other bit is kept |
| UuidV1.PackedParts | VESPA/ves-agent/go.uuid/generator.go:123-135 | a 60-bit time, 14 bits of sequence and the node survive the stamping |
| UuidV1.NodeChoice | VESPA/ves-agent/go.uuid/generator.go:221-241 | the node is the hardware address, or random bytes with only the multicast bit set; it is chosen once, and after a failed read later calls go on with what was read |
| UuidV1.AtFollowsCalls | VESPA/ves-agent/go.uuid/generator.go:116-138 | the generators that the results on runs speak of are a new one and what each call makes of the one before |
| UuidV1.ClockRuns | VESPA/ves-agent/go.uuid/generator.go:193-218 | the sequence counts the calls that found the clock not advanced; without one the time goes up |
| UuidV1.StallsByReadings | VESPA/ves-agent/go.uuid/generator.go:209-215 | a call finds the clock stalled if and only if it reads no later time than the call before |
| UuidV1.EpochCounts | VESPA/ves-agent/go.uuid/generator.go:245-247 | the time counts tenths of microseconds since 15 October 1582 |
| UuidV1.UuidTells | VESPA/ves-agent/go.uuid/generator.go:116-138 | every UUID of a run tells the time that its call read, the first two random bytes plus the stalls so far in 14 bits, and the node |
| UuidV1.EqualUuids | VESPA/ves-agent/go.uuid/generator.go:116-138 | two UUIDs of a run are equal if and only if their clock readings are, and the stalls between them are a multiple of 2^14 |
| UuidV1.UniqueUuids | VESPA/ves-agent/go.uuid/generator.go:116-138 | a run with fewer than 2^14 stalls, under any clock, makes no UUID twice |
| UuidV1.FewStallsInAll | VESPA/ves-agent/go.uuid/generator.go:209-215 | it is enough to count the stalls of the whole run |
| UuidV1.MadeIsV1 | VESPA/ves-agent/go.uuid/generator.go:134-135 | every UUID made has version 1 and the RFC 4122 variant |
| UuidV1.RFC4122Generator.GetClockSequence | VESPA/ves-agent/go.uuid/generator.go:193-218 | one draw for the sequence, then time and sequence of the call; a failed draw fails once |
| UuidV1.RFC4122Generator.GetHardwareAddr | VESPA/ves-agent/go.uuid/generator.go:221-241 | the node, chosen at the first call |
| UuidV1.RFC4122Generator.MakeV1 | VESPA/ves-agent/go.uuid/generator.go:116-138 | generator and UUID after a call, failures included |
| KafkaSequence.AccountsStep | VESPA/ves-agent/agent/agent.go:1395-1472 | every step under the lock keeps the four numbers of each collector in their relation to its posts |
| KafkaSequence.StampsAreConsecutive | VESPA/ves-agent/agent/agent.go:1395-1472 | in every interleaving, whatever writes to the store are lost: a collector's stamps are consecutive, memory has the last stamp and offset whenever the lock is free, and the store those of the last post whose write was kept |
| KafkaSequence.StoreFollowsMemory | VESPA/ves-agent/agent/agent.go:1463-1469 | if no write is lost, memory and store agree on the last stamp and offset whenever the lock is free |
| KafkaSequence.TwoReads | VESPA/ves-agent/agent/agent.go:820-821 | what the two reads of a replay give at two moments of a run: the offset of the last post located by then, the number of posts sequenced by then |
| KafkaSequence.ReplayStart | VESPA/ves-agent/agent/agent.go:820-823 | with consecutive offsets the start offset is the event's own, minus the posts sequenced at the second read, plus those located at the first |
| KafkaSequence.ReplayExactness | VESPA/ves-agent/agent/agent.go:818-826 | a replay finds every stamped event if and only if the collector's offsets were consecutive and the stored sequence and offset that it read are of one post (if no offset was stored, the one from before the run must lead up to the first post); lost writes included |
| KafkaSequence.ReplayAcrossPosts | VESPA/ves-agent/agent/agent.go:820-823 | with no write lost and the lock free at both reads the replay starts early by the number of posts between them |
| KafkaSequence.OnePost | VESPA/ves-agent/agent/agent.go:1543-1551 | the steps of one post together, with any fates of its two store writes |
| KafkaSequence.Consumer.PostEvent | VESPA/ves-agent/agent/agent.go:1625-1633 | the stamp, and the four maps after a post, with any fates of its two store writes |

## Left out

- Raft itself (election, commitment, storage): the log is a list that grows; replicas apply it in order.
- Failing log appends in FaultRuns and FaultLifecycle: there every append succeeds. LostWrites lets them fail, and so does the scheduler model.
- JSON, YAML, HTTP, TLS, Kafka, ZooKeeper and NATS: inputs, or not modelled; a snapshot is read back as it was written.
- A delete command without its fields: the code dereferences nil; logs are assumed to carry them.
- The stores behind the fault manager are values in a field of its object, and the closures that it returns are values that name the operation.
- The event that AlertToFault builds: only status, id, sequence and stored start epoch are modelled.
- Concurrent callers of a collector cluster, and an id that maps to another cluster: one caller, its own id.
- Failover.Cluster.PostBatch: looks at a given number of attempts, since with a limit of at least one the loop need not end.
- Interval commands in collector answers (processCommands) and the waiting between attempts.
- Saturation of `Time.Sub` and the range of `time.Duration` beyond int64 intervals.
- FieldPath.SetField: works on values, not through reflect references; 32-bit floats, embedded structs, unexported fields and recursive types are left out.
- FieldPath.Set: the field list is taken as already split at its dots.
- MeasurementSet.BuilderRefinesFlatMap: of an event only source, time and additional objects are modelled.
- MeasurementSet.InTreeRefinesIff: the panic of the factory on a VM id without an underscore is not modelled.
- UUID versions 2 to 5, the database adapter, and the locks of the generator.
- KafkaSequence.TwoReads: the two reads succeed; a read that fails would count as 0.
- KafkaSequence.StampsAreConsecutive: events in VES format only, with unbounded sequence numbers; posts in RCP format count without recording an offset.
- The end of a replay, pausing, and the rest of the consumer loops.
- Metric rules, templates and Prometheus queries; the manager, simulator and configuration programs.
