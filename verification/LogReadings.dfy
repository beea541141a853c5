/** What a log says, read off its entries alone: how often each counter was asked for, what was last
    set for a scheduler, what a fault name stands for and what became of a fault's infos. The state
    after a log, and the answer to every entry, are what the log says. */
module LogReadings {
  import opened Prelude
  import opened AgentState
  import opened Replication
  import TimeGrid

  /******* Counters *******/

  predicate IsType(e: LogEntry, ty: int) { e.Command? && e.cmd.ty == ty }

  /** Number of commands of a type. */
  function Count(log: seq<LogEntry>, ty: int): nat {
    if log == [] then 0 else Count(log[..|log| - 1], ty) + if IsType(log[|log| - 1], ty) then 1 else 0
  }

  /** The signed number of which n is the value modulo m, for even m. */
  function Signed(n: nat, m: nat): int
    requires m > 0
  {
    if n % m < m / 2 then n % m else n % m - m
  }

  /** The int64 and the int32 that a count wraps around to. */
  function Wrap64(n: nat): int64 { Signed(n, 0x1_0000_0000_0000_0000) }

  function Wrap32(n: nat): int32 { Signed(n, 0x1_0000_0000) }

  lemma NextModulo(n: nat, m: nat)
    requires m > 1
    ensures (n + 1) % m == if n % m == m - 1 then 0 else n % m + 1
  {
    var q, r := n / m, n % m;
    assert n + 1 == m * q + (r + 1);
    if r == m - 1 {
      assert m * (q + 1) + 0 == m * q + m;
      TimeGrid.DivModUnique(m, q + 1, 0);
    } else {
      TimeGrid.DivModUnique(m, q, r + 1);
    }
  }

  lemma WrapStep(n: nat)
    ensures Inc64(Wrap64(n)) == Wrap64(n + 1) && Inc32(Wrap32(n)) == Wrap32(n + 1)
  {
    NextModulo(n, 0x1_0000_0000_0000_0000);
    NextModulo(n, 0x1_0000_0000);
  }

  lemma SmallCounts(n: nat)
    ensures n <= INT64_MAX ==> Wrap64(n) == n
    ensures n <= INT32_MAX ==> Wrap32(n) == n
  {}

  /** The three counters hold how often each was asked for, whatever else lies between. */
  lemma {:induction false} CountersCount(log: seq<LogEntry>)
    requires WellFormedLog(log)
    ensures var s := Replay(FRESH, log);
            && s.measIdx == Wrap64(Count(log, INCREMENT_MEAS_IDX))
            && s.hbIdx == Wrap64(Count(log, INCREMENT_HEARTBEAT_IDX))
            && s.faultIdx == Wrap32(Count(log, INCREMENT_FAULT_IDX))
  {
    if log != [] {
      var init, e := log[..|log| - 1], log[|log| - 1];
      CountersCount(init);
      WrapStep(Count(init, INCREMENT_MEAS_IDX));
      WrapStep(Count(init, INCREMENT_HEARTBEAT_IDX));
      WrapStep(Count(init, INCREMENT_FAULT_IDX));
      CountersStep(Replay(FRESH, init), e);
    }
  }

  /** An entry moves at most the counter of its type. */
  lemma CountersStep(s: State, e: LogEntry)
    requires WellFormedEntry(e)
    ensures var t := ApplyEntry(s, e).0;
            && (t.measIdx == if IsType(e, INCREMENT_MEAS_IDX) then Inc64(s.measIdx) else s.measIdx)
            && (t.hbIdx == if IsType(e, INCREMENT_HEARTBEAT_IDX) then Inc64(s.hbIdx) else s.hbIdx)
            && (t.faultIdx == if IsType(e, INCREMENT_FAULT_IDX) then Inc32(s.faultIdx) else s.faultIdx)
  {}

  /******* Schedulers *******/

  /** The fields that an entry sets for a scheduler. */
  function SetsFor(e: LogEntry, name: string): Option<SchedulerFields> {
    if IsType(e, UPDATE_SCHEDULER) && e.cmd.updateScheduler.Some? && e.cmd.updateScheduler.value.name == name
    then e.cmd.updateScheduler else None
  }

  /** The interval last set; 0 if none was. */
  function IntervalIn(log: seq<LogEntry>, name: string): int64 {
    if log == [] then 0 else
    var f := SetsFor(log[|log| - 1], name);
    if f.Some? && f.value.interval.Some? then f.value.interval.value else IntervalIn(log[..|log| - 1], name)
  }

  /** Days from the first of January of year 1 to that of 1970. */
  const DAYS_TO_1970 := 719_162

  /** The next run last set, in Unix seconds; the zero time if none was. */
  function NextIn(log: seq<LogEntry>, name: string): Time {
    if log == [] then 0 else
    var f := SetsFor(log[|log| - 1], name);
    if f.Some? && f.value.next.Some? then (DAYS_TO_1970 * 86_400 + f.value.next.value) * 1_000_000_000
    else NextIn(log[..|log| - 1], name)
  }

  lemma SchedulersStep(s: State, e: LogEntry, name: string)
    requires WellFormedEntry(e)
    ensures var f, was := SetsFor(e, name), s.Scheduler(name);
            ApplyEntry(s, e).0.Scheduler(name) ==
            SchedulerEntry(
              if f.Some? && f.value.interval.Some? then f.value.interval.value else was.interval,
              if f.Some? && f.value.next.Some? then (DAYS_TO_1970 * 86_400 + f.value.next.value) * 1_000_000_000
              else was.next)
  {}

  /** Each scheduler has the interval and the next run last set for it, and no other's. */
  lemma {:induction false} SchedulersReadBack(log: seq<LogEntry>, name: string)
    requires WellFormedLog(log)
    ensures Replay(FRESH, log).Scheduler(name) == SchedulerEntry(IntervalIn(log, name), NextIn(log, name))
  {
    if log != [] {
      SchedulersReadBack(log[..|log| - 1], name);
      SchedulersStep(Replay(FRESH, log[..|log| - 1]), log[|log| - 1], name);
    }
  }

  /******* Faults *******/

  /** The fault fields of an entry that is for some fault. */
  function FaultOf(e: LogEntry): Option<FaultFields> {
    if IsType(e, UPDATE_FAULT) && e.cmd.updateFault.Some? && e.cmd.updateFault.value.faultId.Some?
    then e.cmd.updateFault else None
  }

  function DeletedName(e: LogEntry): Option<string> { if IsType(e, DELETE_FAULT) then e.cmd.deleteFault else None }

  /** The id that a name was last stored with, unless it was deleted since. */
  function BoundIn(log: seq<LogEntry>, name: string): Option<int32> {
    if log == [] then None else
    var e := log[|log| - 1];
    if DeletedName(e) == Some(name) then None
    else if FaultOf(e).Some? && name != "" && FaultOf(e).value.faultName == name then FaultOf(e).value.faultId
    else BoundIn(log[..|log| - 1], name)
  }

  /** What one entry makes of the infos of a fault. */
  function InfosAfter(e: LogEntry, was: Option<AlertInfos>, deleted: bool, id: int32): Option<AlertInfos> {
    if deleted then None
    else if FaultOf(e).None? || FaultOf(e).value.faultId != Some(id) then was
    else
      var f := FaultOf(e).value;
      if was.Some? then
        Some(AlertInfos(if f.sequenceNumber.Some? then Inc64(was.value.sequence) else was.value.sequence,
                        if f.startEpoch.Some? then f.startEpoch.value else was.value.startEpoch))
      else if f.sequenceNumber.None? && f.startEpoch.Some? then Some(AlertInfos(1, f.startEpoch.value))
      else None
  }

  /** The infos of a fault: begun at sequence 1 by its first epoch, one further at each increment
      since, with the last epoch; none before, and none once a name that stood for it is deleted. */
  function InfosIn(log: seq<LogEntry>, id: int32): Option<AlertInfos> {
    if log == [] then None else
    var init, e := log[..|log| - 1], log[|log| - 1];
    var deleted := DeletedName(e).Some? && BoundIn(init, DeletedName(e).value) == Some(id);
    InfosAfter(e, InfosIn(init, id), deleted, id)
  }

  function Bound(s: State, name: string): Option<int32> {
    if name in s.storage then Some(s.storage[name]) else None
  }

  lemma NamesStep(s: State, e: LogEntry, name: string)
    requires WellFormedEntry(e)
    ensures Bound(ApplyEntry(s, e).0, name) ==
            if DeletedName(e) == Some(name) then None
            else if FaultOf(e).Some? && name != "" && FaultOf(e).value.faultName == name then FaultOf(e).value.faultId
            else Bound(s, name)
  {
    if FaultOf(e).Some? {
      FieldsOnNames(s, FaultOf(e).value, name);
    } else if !IsType(e, DELETE_FAULT) {
      OthersKeepFaults(s, e);
    }
  }

  lemma FieldsOnNames(s: State, f: FaultFields, name: string)
    requires f.faultId.Some?
    ensures Bound(ApplyFaultFields(s, f).0, name) ==
            if name != "" && f.faultName == name then f.faultId else Bound(s, name)
  {}

  /** Entries that are for no fault keep the two fault maps. */
  lemma OthersKeepFaults(s: State, e: LogEntry)
    requires WellFormedEntry(e) && FaultOf(e).None? && !IsType(e, DELETE_FAULT)
    ensures var t := ApplyEntry(s, e).0; t.storage == s.storage && t.alertInfos == s.alertInfos
  {}

  /** A name stands for the id that it was last stored with, unless it was deleted since. */
  lemma {:induction false} NamesReadBack(log: seq<LogEntry>, name: string)
    requires WellFormedLog(log)
    ensures Bound(Replay(FRESH, log), name) == BoundIn(log, name)
  {
    if log != [] {
      NamesReadBack(log[..|log| - 1], name);
      NamesStep(Replay(FRESH, log[..|log| - 1]), log[|log| - 1], name);
    }
  }

  lemma InfosStep(s: State, e: LogEntry, id: int32)
    requires WellFormedEntry(e)
    ensures InfosOf(ApplyEntry(s, e).0, id) ==
            InfosAfter(e, InfosOf(s, id), DeletedName(e).Some? && Bound(s, DeletedName(e).value) == Some(id), id)
  {
    if FaultOf(e).Some? {
      FieldsOnInfos(s, e, id);
    } else if !IsType(e, DELETE_FAULT) {
      OthersKeepFaults(s, e);
    }
  }

  lemma FieldsOnInfos(s: State, e: LogEntry, id: int32)
    requires FaultOf(e).Some?
    ensures InfosOf(ApplyFaultFields(s, FaultOf(e).value).0, id) == InfosAfter(e, InfosOf(s, id), false, id)
  {}

  /** A fault has the infos that the log says. */
  lemma {:induction false} InfosReadBack(log: seq<LogEntry>, id: int32)
    requires WellFormedLog(log)
    ensures InfosOf(Replay(FRESH, log), id) == InfosIn(log, id)
  {
    if log != [] {
      var init, e := log[..|log| - 1], log[|log| - 1];
      InfosReadBack(init, id);
      if DeletedName(e).Some? {
        NamesReadBack(init, DeletedName(e).value);
      }
      InfosStep(Replay(FRESH, init), e, id);
    }
  }

  /******* Answers *******/

  /** The answer to an entry, by what its index would be and whether the fault it is for has infos. */
  function Answer(e: LogEntry, measurement: int64, heartbeat: int64, fault: int32, hasInfos: bool): Response {
    if e.Undecodable? then Error(CannotDecode)
    else if e.cmd.ty == INCREMENT_MEAS_IDX then Index64(measurement)
    else if e.cmd.ty == INCREMENT_HEARTBEAT_IDX then Index64(heartbeat)
    else if e.cmd.ty == INCREMENT_FAULT_IDX then Index32(fault)
    else if e.cmd.ty == UPDATE_SCHEDULER then if e.cmd.updateScheduler.Some? then Done else Error(FieldsAbsent)
    else if e.cmd.ty == UPDATE_FAULT then
      if e.cmd.updateFault.None? then Error(FieldsAbsent)
      else if FaultOf(e).Some? && FaultOf(e).value.sequenceNumber.Some? && !hasInfos then Error(NoSuchFault)
      else Done
    else if e.cmd.ty == DELETE_FAULT then Done
    else Error(UnknownCommand)
  }

  /** The answer to entry i, from the entries before it. */
  function AnswerIn(log: seq<LogEntry>, i: nat): Response
    requires i < |log|
  {
    var e, before := log[i], log[..i];
    Answer(e, Wrap64(Count(before, INCREMENT_MEAS_IDX)), Wrap64(Count(before, INCREMENT_HEARTBEAT_IDX)),
           Wrap32(Count(before, INCREMENT_FAULT_IDX) + 1),
           FaultOf(e).Some? && InfosIn(before, FaultOf(e).value.faultId.value).Some?)
  }

  lemma AnswerStep(s: State, e: LogEntry)
    requires WellFormedEntry(e)
    ensures ApplyEntry(s, e).1 ==
            Answer(e, s.measIdx, s.hbIdx, Inc32(s.faultIdx),
                   FaultOf(e).Some? && InfosOf(s, FaultOf(e).value.faultId.value).Some?)
  {}

  lemma {:induction false} ResponseAt(s: State, log: seq<LogEntry>, i: nat)
    requires WellFormedLog(log) && i < |log|
    ensures |Responses(s, log)| == |log|
    ensures Responses(s, log)[i] == ApplyEntry(Replay(s, log[..i]), log[i]).1
  {
    var n := |log| - 1;
    if n > 0 {
      ResponseAt(s, log[..n], if i < n then i else 0);
    }
    if i < n {
      assert log[..n][..i] == log[..i];
    }
  }

  /** For every log: each answer is the one that the entries before it determine. The n-th index asked
      for is n - 1 for measurements and heartbeats, n for faults, each counted apart. */
  lemma AnswersReadBack(log: seq<LogEntry>, i: nat)
    requires WellFormedLog(log) && i < |log|
    ensures |Responses(FRESH, log)| == |log| && Responses(FRESH, log)[i] == AnswerIn(log, i)
  {
    var e, before := log[i], log[..i];
    ResponseAt(FRESH, log, i);
    AnswerStep(Replay(FRESH, before), e);
    CountersCount(before);
    WrapStep(Count(before, INCREMENT_FAULT_IDX));
    if FaultOf(e).Some? {
      InfosReadBack(before, FaultOf(e).value.faultId.value);
    }
  }
}
