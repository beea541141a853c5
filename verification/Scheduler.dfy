/** The periodic scheduler (VESPA/ves-agent/scheduler). Every reading of the clock, every job
    result and every answer of the state store is an input. */
module Scheduler {
  import opened Prelude
  import AgentState
  import opened TimeGrid

  type Time = AgentState.Time

  /** The scheduler's state store: its own memory, or the replicated agent state, which is
      written through log commands that carry whole seconds. */
  datatype Backing =
    | Exact(next: Time, interval: int64)
    | Logged(name: string, agent: AgentState.State)
  {
    function NextRun(): Time {
      match this
      case Exact(n, _) => n
      case Logged(name, agent) => agent.Scheduler(name).next
    }

    function Interval(): int64 {
      match this
      case Exact(_, i) => i
      case Logged(name, agent) => agent.Scheduler(name).interval
    }

    function Append(f: AgentState.SchedulerFields): Backing
      requires Logged?
    {
      this.(agent := AgentState.Process(agent, AgentState.StateCmd(AgentState.UPDATE_SCHEDULER, Some(f), None, None)).0)
    }

    function UpdateNextRun(t: Time): Backing {
      match this
      case Exact(_, i) => Exact(t, i)
      case Logged(name, _) => Append(AgentState.SchedulerFields(name, None, Some(AgentState.ToUnix(t))))
    }

    function UpdateScheduler(i: int64, t: Time): Backing {
      match this
      case Exact(_, _) => Exact(t, i)
      case Logged(name, _) => Append(AgentState.SchedulerFields(name, Some(i), Some(AgentState.ToUnix(t))))
    }
  }

  datatype Sched = Sched(defaultInterval: int64, lastTime: Option<Time>, state: Backing)

  function GetInterval(s: Sched): int64 {
    if s.state.Interval() > 0 then s.state.Interval() else s.defaultInterval
  }

  /** `now` and `ok` are read only when the next run has yet to be initialised. */
  function NextRun(s: Sched, now: Time, ok: bool): (Sched, Time) {
    var next := s.state.NextRun();
    if next != 0 then (s, next) else
    var first := Round(now, s.defaultInterval);
    (if ok then s.(state := s.state.UpdateNextRun(first)) else s, first)
  }

  /** Clock readings in program order, and whether each lazy write was stored. */
  datatype StepInput = StepInput(t0: Time, t1: Time, t2: Time, t3: Time, ok1: bool, ok3: bool, jobOk: bool)

  datatype Outcome =
    | NotReady
    | JobFailed(from: Time, to: Time, interval: int64)
    | Ran(from: Time, to: Time, interval: int64)

  function Step(s: Sched, x: StepInput): (Sched, Outcome) {
    var (s1, next) := NextRun(s.(lastTime := None), x.t1, x.ok1);
    if next > x.t0 then (s1, NotReady) else
    var (s2, from) := NextRun(s1, x.t3, x.ok3);
    if !x.jobOk then (s2, JobFailed(from, x.t2, GetInterval(s2)))
    else (s2.(lastTime := Some(x.t2)), Ran(from, x.t2, GetInterval(s2)))
  }

  /** The log lines around the update read the next run, and so may initialise it. */
  datatype AckInput = AckInput(t0: Time, t1: Time, ok0: bool, okUpdate: bool, ok1: bool)

  function Ack(s: Sched, x: AckInput): (Sched, bool) {
    if s.lastTime.None? then (s, true) else
    var next := Truncate(s.lastTime.value, GetInterval(s)) + GetInterval(s);
    var s1 := NextRun(s, x.t0, x.ok0).0;
    if !x.okUpdate then (s1, false) else
    var s2 := s1.(state := s1.state.UpdateNextRun(next), lastTime := None);
    (NextRun(s2, x.t1, x.ok1).0, true)
  }

  datatype SetInput = SetInput(t0: Time, t1: Time, t2: Time, t3: Time, ok0: bool, okUpdate: bool, ok3: bool)

  function NewInterval(s: Sched, interval: int64): int64 {
    if interval <= 0 then s.defaultInterval else interval
  }

  /** The time that SetInterval rounds to the new interval. */
  function Anchor(s: Sched, x: SetInput): Time {
    var next := NextRun(s, x.t0, x.ok0).1;
    if next > x.t1 then x.t2 else next
  }

  function SetInterval(s: Sched, interval: int64, x: SetInput): (Sched, bool) {
    if interval == GetInterval(s) then (s, true) else
    var s1 := NextRun(s, x.t0, x.ok0).0;
    if !x.okUpdate then (s1, false) else
    var chosen := NewInterval(s, interval);
    var s2 := s1.(state := s1.state.UpdateScheduler(chosen, Round(Anchor(s, x), chosen)));
    (NextRun(s2, x.t3, x.ok3).0, true)
  }

  /** The scheduler as an object. */
  class PeriodicScheduler {
    const defaultInterval: int64
    var lastTime: Option<Time>
    var state: Backing

    ghost function View(): Sched
      reads this
    {
      Sched(defaultInterval, lastTime, state)
    }

    constructor (defaultInterval: int64, state: Backing)
      ensures View() == Sched(defaultInterval, None, state)
    {
      this.defaultInterval, this.lastTime, this.state := defaultInterval, None, state;
    }

    function CurrentInterval(): int64
      reads this
    {
      GetInterval(Sched(defaultInterval, lastTime, state))
    }

    method DoNextRun(now: Time, ok: bool) returns (next: Time)
      modifies this`state
      ensures (View(), next) == NextRun(old(View()), now, ok)
    {
      next := state.NextRun();
      if next == 0 {
        next := Round(now, defaultInterval);
        if ok {
          state := state.UpdateNextRun(next);
        }
      }
    }

    method DoStep(x: StepInput) returns (r: Outcome)
      modifies this
      ensures (View(), r) == Step(old(View()), x)
    {
      lastTime := None;
      var next := DoNextRun(x.t1, x.ok1);
      if next > x.t0 {
        return NotReady;
      }
      var now := x.t2;
      var from := DoNextRun(x.t3, x.ok3);
      var interval := CurrentInterval();
      if !x.jobOk {
        return JobFailed(from, now, interval);
      }
      lastTime := Some(now);
      r := Ran(from, now, interval);
    }

    method DoAck(x: AckInput) returns (ok: bool)
      modifies this
      ensures (View(), ok) == Ack(old(View()), x)
    {
      if lastTime.None? {
        return true;
      }
      var next := Truncate(lastTime.value, CurrentInterval()) + CurrentInterval();
      var _ := DoNextRun(x.t0, x.ok0);
      if !x.okUpdate {
        return false;
      }
      state := state.UpdateNextRun(next);
      lastTime := None;
      var _ := DoNextRun(x.t1, x.ok1);
      ok := true;
    }

    method DoSetInterval(interval: int64, x: SetInput) returns (ok: bool)
      modifies this`state
      ensures (View(), ok) == SetInterval(old(View()), interval, x)
    {
      if interval == CurrentInterval() {
        return true;
      }
      var newInterval := interval;
      if interval <= 0 {
        newInterval := defaultInterval;
      }
      var next := DoNextRun(x.t0, x.ok0);
      if next > x.t1 {
        next := Round(x.t2, newInterval);
      } else {
        next := Round(next, newInterval);
      }
      if !x.okUpdate {
        return false;
      }
      state := state.UpdateScheduler(newInterval, next);
      var _ := DoNextRun(x.t3, x.ok3);
      ok := true;
    }
  }
}
