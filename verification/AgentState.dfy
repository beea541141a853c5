/** The agent state that is replicated through the commit log (VESPA/ves-agent/ha):
    its value, every update of it, the command that the log carries, and snapshots.
    Times are nanoseconds since the first instant of year 1, Go's zero time. */
module AgentState {
  import opened Prelude

  type Time = int

  const SECOND: int64 := 1_000_000_000

  /** Seconds from Go's zero time to the Unix epoch. */
  const UNIX_TO_INTERNAL: int := 62_135_596_800

  /** `time.Unix(sec, 0)` */
  function FromUnix(sec: int): Time { (sec + UNIX_TO_INTERNAL) * SECOND }

  /** `t.Unix()`: whole seconds, rounded down. */
  function ToUnix(t: Time): int { t / SECOND - UNIX_TO_INTERNAL }

  datatype AlertInfos = AlertInfos(sequence: int64, startEpoch: int64)

  datatype SchedulerEntry = SchedulerEntry(interval: int64, next: Time)

  const NO_SCHEDULER := SchedulerEntry(0, 0)

  datatype State = State(
    measIdx: int64,
    hbIdx: int64,
    schedulers: map<string, SchedulerEntry>,
    faultIdx: int32,
    alertInfos: map<int32, AlertInfos>,
    storage: map<string, int32>)
  {
    function Scheduler(name: string): SchedulerEntry {
      if name in schedulers then schedulers[name] else NO_SCHEDULER
    }

    function SetNextRun(name: string, next: Time): State {
      this.(schedulers := schedulers[name := Scheduler(name).(next := next)])
    }

    function SetInterval(name: string, interval: int64): State {
      this.(schedulers := schedulers[name := Scheduler(name).(interval := interval)])
    }

    function FaultInStorage(name: string): int32 {
      if name in storage then storage[name] else 0
    }

    function StoreFault(name: string, id: int32): State {
      this.(storage := storage[name := id])
    }

    /** Drops the name, and the infos of the id it stood for. */
    function DeleteFault(name: string): State {
      this.(alertInfos := if name in storage then alertInfos - {storage[name]} else alertInfos,
            storage := storage - {name})
    }

    function InitInfos(id: int32): State {
      this.(alertInfos := alertInfos[id := AlertInfos(1, 0)])
    }

    function FaultSn(id: int32): int64 {
      if id in alertInfos then alertInfos[id].sequence else 0
    }

    function FaultStartEpoch(id: int32): int64 {
      if id in alertInfos then alertInfos[id].startEpoch else 0
    }

    function IncrementSn(id: int32): Option<State> {
      if id in alertInfos
      then Some(this.(alertInfos := alertInfos[id := alertInfos[id].(sequence := Inc64(alertInfos[id].sequence))]))
      else None
    }

    /** Creates the infos first when they are absent. */
    function SetStartEpoch(id: int32, epoch: int64): State {
      var s := if id in alertInfos then this else InitInfos(id);
      s.(alertInfos := s.alertInfos[id := s.alertInfos[id].(startEpoch := epoch)])
    }
  }

  const FRESH := State(0, 0, map[], 0, map[], map[])

  /******* Commands of the log *******/

  const INCREMENT_ALARM_IDX := 0
  const INCREMENT_MEAS_IDX := 1
  const INCREMENT_HEARTBEAT_IDX := 2
  const UPDATE_SCHEDULER := 3
  const INCREMENT_FAULT_IDX := 4
  const UPDATE_FAULT := 5
  const DELETE_FAULT := 6

  datatype SchedulerFields = SchedulerFields(name: string, interval: Option<int64>, next: Option<int>)

  datatype FaultFields = FaultFields(
    faultId: Option<int32>, faultName: string, sequenceNumber: Option<int64>, startEpoch: Option<int64>)

  datatype StateCmd = StateCmd(
    ty: int, updateScheduler: Option<SchedulerFields>, updateFault: Option<FaultFields>, deleteFault: Option<string>)

  /** `processCmd` dereferences the fields of a DeleteFault command unchecked. */
  predicate WellFormed(cmd: StateCmd) {
    cmd.ty == DELETE_FAULT ==> cmd.deleteFault.Some?
  }

  datatype LogEntry = Undecodable | Command(cmd: StateCmd)

  predicate WellFormedEntry(e: LogEntry) { e.Command? ==> WellFormed(e.cmd) }

  predicate WellFormedLog(log: seq<LogEntry>) { forall e <- log :: WellFormedEntry(e) }

  datatype Failure = UnknownCommand | FieldsAbsent | NoSuchFault | CannotDecode

  datatype Response = Index64(i64: int64) | Index32(i32: int32) | Done | Error(failure: Failure)

  function ApplySchedulerFields(s: State, f: SchedulerFields): State {
    var s1 := if f.interval.Some? then s.SetInterval(f.name, f.interval.value) else s;
    if f.next.Some? then s1.SetNextRun(f.name, FromUnix(f.next.value)) else s1
  }

  /** The three updates run in order; a failing one stops, and keeps what the earlier ones did. */
  function ApplyFaultFields(s: State, f: FaultFields): (State, Response) {
    if f.faultId.None? then (s, Done) else
    var id := f.faultId.value;
    var s1 := if f.faultName != "" then s.StoreFault(f.faultName, id) else s;
    if f.sequenceNumber.Some? && id !in s1.alertInfos then (s1, Error(NoSuchFault)) else
    var s2 := if f.sequenceNumber.Some? then s1.IncrementSn(id).value else s1;
    (if f.startEpoch.Some? then s2.SetStartEpoch(id, f.startEpoch.value) else s2, Done)
  }

  function Process(s: State, cmd: StateCmd): (State, Response)
    requires WellFormed(cmd)
  {
    if cmd.ty == INCREMENT_MEAS_IDX then
      (s.(measIdx := Inc64(s.measIdx)), Index64(s.measIdx))
    else if cmd.ty == INCREMENT_HEARTBEAT_IDX then
      (s.(hbIdx := Inc64(s.hbIdx)), Index64(s.hbIdx))
    else if cmd.ty == UPDATE_SCHEDULER then
      match cmd.updateScheduler
      case None => (s, Error(FieldsAbsent))
      case Some(f) => (ApplySchedulerFields(s, f), Done)
    else if cmd.ty == INCREMENT_FAULT_IDX then
      (s.(faultIdx := Inc32(s.faultIdx)), Index32(Inc32(s.faultIdx)))
    else if cmd.ty == UPDATE_FAULT then
      match cmd.updateFault
      case None => (s, Error(FieldsAbsent))
      case Some(f) => ApplyFaultFields(s, f)
    else if cmd.ty == DELETE_FAULT then
      (s.DeleteFault(cmd.deleteFault.value), Done)
    else
      (s, Error(UnknownCommand))
  }

  function ApplyEntry(s: State, e: LogEntry): (State, Response)
    requires WellFormedEntry(e)
  {
    match e
    case Undecodable => (s, Error(CannotDecode))
    case Command(cmd) => Process(s, cmd)
  }

  /******* Snapshots *******/

  datatype Snapshot = Snapshot(
    measIdx: int64,
    hbIdx: int64,
    schedulers: map<string, SchedulerEntry>,
    faultIdx: int32,
    alertInfos: map<int32, AlertInfos>,
    storageFault: map<string, int32>)

  function TakeSnapshot(s: State): Snapshot {
    Snapshot(s.measIdx, s.hbIdx, s.schedulers, s.faultIdx, s.alertInfos, s.storage)
  }

  /** Counters and schedulers are replaced; the two fault maps are merged into the old ones. */
  function RestoreOver(s: State, snap: Snapshot): State {
    State(snap.measIdx, snap.hbIdx, snap.schedulers, snap.faultIdx,
          s.alertInfos + snap.alertInfos, s.storage + snap.storageFault)
  }
}
