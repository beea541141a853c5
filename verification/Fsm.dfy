/** The mutable form of the replicated state: `inMemState` and the FSM that feeds log
    entries to it. Each method is proved to compute the matching function of AgentState. */
module Fsm {
  import opened Prelude
  import opened AgentState

  class InMemState {
    var measIdx: int64
    var hbIdx: int64
    var schedulers: map<string, SchedulerEntry>
    var faultIdx: int32
    var alertInfos: map<int32, AlertInfos>
    var storage: map<string, int32>

    ghost function View(): State
      reads this
    {
      State(measIdx, hbIdx, schedulers, faultIdx, alertInfos, storage)
    }

    constructor ()
      ensures View() == FRESH
    {
      measIdx, hbIdx, faultIdx := 0, 0, 0;
      schedulers, alertInfos, storage := map[], map[], map[];
    }

    method GetOrCreateScheduler(name: string) returns (entry: SchedulerEntry)
      modifies this`schedulers
      ensures entry == old(View()).Scheduler(name)
      ensures View() == old(View()).(schedulers := old(schedulers)[name := entry])
    {
      if name !in schedulers {
        schedulers := schedulers[name := SchedulerEntry(0, 0)];
      }
      entry := schedulers[name];
    }

    method UpdateNextRun(name: string, next: Time)
      modifies this`schedulers
      ensures View() == old(View()).SetNextRun(name, next)
    {
      var entry := GetOrCreateScheduler(name);
      schedulers := schedulers[name := entry.(next := next)];
    }

    method UpdateInterval(name: string, interval: int64)
      modifies this`schedulers
      ensures View() == old(View()).SetInterval(name, interval)
    {
      var entry := GetOrCreateScheduler(name);
      schedulers := schedulers[name := entry.(interval := interval)];
    }

    method NextMeasurementIndex() returns (idx: int64)
      modifies this`measIdx
      ensures idx == old(measIdx) && measIdx == Inc64(idx)
    {
      idx := measIdx;
      measIdx := Inc64(measIdx);
    }

    method NextHeartbeatIndex() returns (idx: int64)
      modifies this`hbIdx
      ensures idx == old(hbIdx) && hbIdx == Inc64(idx)
    {
      idx := hbIdx;
      hbIdx := Inc64(hbIdx);
    }

    method NextFaultIndex() returns (idx: int32)
      modifies this`faultIdx
      ensures idx == faultIdx == Inc32(old(faultIdx))
    {
      faultIdx := Inc32(faultIdx);
      idx := faultIdx;
    }

    method InitAlertInfos(id: int32)
      modifies this`alertInfos
      ensures View() == old(View()).InitInfos(id)
    {
      alertInfos := alertInfos[id := AlertInfos(1, 0)];
    }

    method StoreFaultInStorage(name: string, id: int32)
      modifies this`storage
      ensures View() == old(View()).StoreFault(name, id)
    {
      storage := storage[name := id];
    }

    method DeleteFaultInStorage(name: string)
      modifies this`storage, this`alertInfos
      ensures View() == old(View()).DeleteFault(name)
    {
      if name in storage {
        alertInfos := alertInfos - {storage[name]};
      }
      storage := storage - {name};
    }

    method IncrementFaultSn(id: int32) returns (ok: bool)
      modifies this`alertInfos
      ensures ok == (id in old(alertInfos))
      ensures View() == if ok then old(View()).IncrementSn(id).value else old(View())
    {
      ok := id in alertInfos;
      if ok {
        var infos := alertInfos[id];
        alertInfos := alertInfos[id := infos.(sequence := Inc64(infos.sequence))];
      }
    }

    method SetFaultStartEpoch(id: int32, epoch: int64)
      modifies this`alertInfos
      ensures View() == old(View()).SetStartEpoch(id, epoch)
    {
      if id !in alertInfos {
        InitAlertInfos(id);
      }
      alertInfos := alertInfos[id := alertInfos[id].(startEpoch := epoch)];
    }

    method TakeSnapshot() returns (snap: Snapshot)
      ensures snap == AgentState.TakeSnapshot(View())
    {
      var sched := CopyOver(map[], schedulers);
      var infos := CopyOver(map[], alertInfos);
      var names := CopyOver(map[], storage);
      snap := Snapshot(measIdx, hbIdx, sched, faultIdx, infos, names);
    }

    method Restore(snap: Snapshot)
      modifies this
      ensures View() == RestoreOver(old(View()), snap)
    {
      hbIdx, measIdx, faultIdx := snap.hbIdx, snap.measIdx, snap.faultIdx;
      schedulers := CopyOver(map[], snap.schedulers);
      alertInfos := CopyOver(alertInfos, snap.alertInfos);
      storage := CopyOver(storage, snap.storageFault);
    }
  }

  /** `for k, v := range from { into[k] = v }`, in whatever order the range takes. */
  method CopyOver<K, V>(into: map<K, V>, from: map<K, V>) returns (r: map<K, V>)
    ensures r == into + from
  {
    r := into;
    var todo := from.Keys;
    while todo != {}
      invariant todo <= from.Keys
      invariant r == into + (from - todo)
    {
      var k :| k in todo;
      r := r[k := from[k]];
      todo := todo - {k};
    }
    assert from - todo == from;
  }

  class FSM {
    const state: InMemState

    constructor (state: InMemState)
      ensures this.state == state
    {
      this.state := state;
    }

    method HandleSchedulerUpdate(fields: Option<SchedulerFields>) returns (r: Response)
      modifies state
      ensures (state.View(), r) == match fields
                                   case None => (old(state.View()), Error(FieldsAbsent))
                                   case Some(f) => (ApplySchedulerFields(old(state.View()), f), Done)
    {
      if fields.None? {
        return Error(FieldsAbsent);
      }
      var f := fields.value;
      if f.interval.Some? {
        state.UpdateInterval(f.name, f.interval.value);
      }
      if f.next.Some? {
        state.UpdateNextRun(f.name, FromUnix(f.next.value));
      }
      r := Done;
    }

    method HandleFaultUpdate(fields: Option<FaultFields>) returns (r: Response)
      modifies state
      ensures (state.View(), r) == match fields
                                   case None => (old(state.View()), Error(FieldsAbsent))
                                   case Some(f) => ApplyFaultFields(old(state.View()), f)
    {
      if fields.None? {
        return Error(FieldsAbsent);
      }
      var f := fields.value;
      if f.faultId.Some? {
        if f.faultName != "" {
          state.StoreFaultInStorage(f.faultName, f.faultId.value);
        }
        if f.sequenceNumber.Some? {
          var ok := state.IncrementFaultSn(f.faultId.value);
          if !ok {
            return Error(NoSuchFault);
          }
        }
        if f.startEpoch.Some? {
          state.SetFaultStartEpoch(f.faultId.value, f.startEpoch.value);
        }
      }
      r := Done;
    }

    method ProcessCmd(cmd: StateCmd) returns (r: Response)
      requires WellFormed(cmd)
      modifies state
      ensures (state.View(), r) == Process(old(state.View()), cmd)
    {
      if cmd.ty == INCREMENT_MEAS_IDX {
        var i := state.NextMeasurementIndex();
        r := Index64(i);
      } else if cmd.ty == INCREMENT_HEARTBEAT_IDX {
        var i := state.NextHeartbeatIndex();
        r := Index64(i);
      } else if cmd.ty == UPDATE_SCHEDULER {
        r := HandleSchedulerUpdate(cmd.updateScheduler);
      } else if cmd.ty == INCREMENT_FAULT_IDX {
        var i := state.NextFaultIndex();
        r := Index32(i);
      } else if cmd.ty == UPDATE_FAULT {
        r := HandleFaultUpdate(cmd.updateFault);
      } else if cmd.ty == DELETE_FAULT {
        state.DeleteFaultInStorage(cmd.deleteFault.value);
        r := Done;
      } else {
        r := Error(UnknownCommand);
      }
    }

    method Apply(e: LogEntry) returns (r: Response)
      requires WellFormedEntry(e)
      modifies state
      ensures (state.View(), r) == ApplyEntry(old(state.View()), e)
    {
      match e
      case Undecodable => r := Error(CannotDecode);
      case Command(cmd) => r := ProcessCmd(cmd);
    }
  }
}
