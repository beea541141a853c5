/** A scheduler whose state goes through the log, in whole seconds, beside one with exact memory:
    they cannot be told apart exactly when all intervals are whole seconds. */
module LogBackedScheduler {
  import opened Prelude
  import AgentState
  import opened TimeGrid
  import opened Scheduler
  import opened IntervalChanges

  predicate Alike(e: Sched, l: Sched) {
    && e.defaultInterval == l.defaultInterval && e.lastTime == l.lastTime
    && e.state.Exact? && l.state.Logged?
    && e.state.NextRun() == l.state.NextRun() && e.state.Interval() == l.state.Interval()
  }

  /** Intervals are positive and whole seconds, and so is every next run that they make. */
  predicate Whole(l: Sched) {
    && l.defaultInterval > 0 && WholeSeconds(l.defaultInterval)
    && GetInterval(l) > 0 && WholeSeconds(GetInterval(l))
  }

  lemma StoresAlike(e: Sched, l: Sched, t: Time, i: int64)
    requires Alike(e, l) && WholeSeconds(t)
    ensures Alike(e.(state := e.state.UpdateNextRun(t)), l.(state := l.state.UpdateNextRun(t)))
    ensures Alike(e.(state := e.state.UpdateScheduler(i, t)), l.(state := l.state.UpdateScheduler(i, t)))
    ensures l.state.UpdateNextRun(t).Interval() == l.state.Interval() && l.state.UpdateScheduler(i, t).Interval() == i
  {
    Storing(l.state, t, i);
  }

  lemma RoundWhole(t: Time, d: int64)
    requires d > 0 && WholeSeconds(d)
    ensures WholeSeconds(Round(t, d)) && WholeSeconds(FirstAfter(t, d))
  {
    RoundOnGrid(t, d);
    TruncateOnGrid(t, d);
    CoarserGrid(Round(t, d), d, AgentState.SECOND);
    CoarserGrid(FirstAfter(t, d), d, AgentState.SECOND);
  }

  lemma PeekAlike(e: Sched, l: Sched, now: Time, ok: bool)
    requires Alike(e, l) && Whole(l)
    ensures var ((e1, m), (l1, n)) := (NextRun(e, now, ok), NextRun(l, now, ok));
            && Alike(e1, l1) && m == n && Whole(l1)
            && l1.lastTime == l.lastTime && GetInterval(l1) == GetInterval(l) && l1.defaultInterval == l.defaultInterval
  {
    if l.state.NextRun() == 0 {
      RoundWhole(now, l.defaultInterval);
      StoresAlike(e, l, Round(now, l.defaultInterval), 0);
    }
  }

  lemma StepAlike(e: Sched, l: Sched, x: StepInput)
    requires Alike(e, l) && Whole(l)
    ensures Alike(Step(e, x).0, Step(l, x).0) && Step(e, x).1 == Step(l, x).1 && Whole(Step(l, x).0)
  {
    var e0, l0 := e.(lastTime := None), l.(lastTime := None);
    PeekAlike(e0, l0, x.t1, x.ok1);
    PeekAlike(NextRun(e0, x.t1, x.ok1).0, NextRun(l0, x.t1, x.ok1).0, x.t3, x.ok3);
  }

  lemma AckAlike(e: Sched, l: Sched, x: AckInput)
    requires Alike(e, l) && Whole(l)
    ensures Alike(Ack(e, x).0, Ack(l, x).0) && Ack(e, x).1 == Ack(l, x).1 && Whole(Ack(l, x).0)
  {
    if l.lastTime.Some? {
      var d := GetInterval(l);
      var next := FirstAfter(l.lastTime.value, d);
      RoundWhole(l.lastTime.value, d);
      PeekAlike(e, l, x.t0, x.ok0);
      AckStoresAlike(NextRun(e, x.t0, x.ok0).0, NextRun(l, x.t0, x.ok0).0, next, x);
    }
  }

  lemma AckStoresAlike(e: Sched, l: Sched, next: Time, x: AckInput)
    requires Alike(e, l) && Whole(l) && WholeSeconds(next)
    ensures var e1, l1 := e.(state := e.state.UpdateNextRun(next), lastTime := None),
                          l.(state := l.state.UpdateNextRun(next), lastTime := None);
            Alike(NextRun(e1, x.t1, x.ok1).0, NextRun(l1, x.t1, x.ok1).0) && Whole(NextRun(l1, x.t1, x.ok1).0)
  {
    StoresAlike(e, l, next, 0);
    PeekAlike(e.(state := e.state.UpdateNextRun(next), lastTime := None),
              l.(state := l.state.UpdateNextRun(next), lastTime := None), x.t1, x.ok1);
  }

  lemma SetAlike(e: Sched, l: Sched, i: int64, x: SetInput)
    requires Alike(e, l) && Whole(l) && WholeInterval(i)
    ensures Alike(SetInterval(e, i, x).0, SetInterval(l, i, x).0) && SetInterval(e, i, x).1 == SetInterval(l, i, x).1
    ensures Whole(SetInterval(l, i, x).0)
  {
    PeekAlike(e, l, x.t0, x.ok0);
    assert Anchor(e, x) == Anchor(l, x) && NewInterval(e, i) == NewInterval(l, i);
    var d := NewInterval(l, i);
    var t := Round(Anchor(l, x), d);
    RoundWhole(Anchor(l, x), d);
    var e1, l1 := NextRun(e, x.t0, x.ok0).0, NextRun(l, x.t0, x.ok0).0;
    StoresAlike(e1, l1, t, d);
    PeekAlike(e1.(state := e1.state.UpdateScheduler(d, t)), l1.(state := l1.state.UpdateScheduler(d, t)), x.t3, x.ok3);
  }

  lemma {:induction false} RunsAlike(e: Sched, l: Sched, ops: seq<Op>)
    requires Alike(e, l) && Whole(l) && WholeSecondOps(ops)
    ensures Shown(e, ops) == Shown(l, ops)
    ensures Alike(After(e, ops), After(l, ops))
    decreases |ops|
  {
    if ops != [] {
      var op := ops[0];
      assert op in ops;
      match op {
        case PeekOp(now, ok) => PeekAlike(e, l, now, ok);
        case StepOp(x) => StepAlike(e, l, x);
        case AckOp(x) => AckAlike(e, l, x);
        case SetOp(i, x) => SetAlike(e, l, i, x);
      }
      RunsAlike(Next(e, op).0, Next(l, op).0, ops[1..]);
    }
  }

  /** With whole-second intervals, every run over the replicated state shows what the same run
      over exact memory shows, whatever the clock reads: windows, answers, next runs. */
  lemma LogTruncationIsInvisible(d: int64, name: string, ops: seq<Op>)
    requires d > 0 && WholeSeconds(d) && WholeSecondOps(ops)
    ensures Shown(FreshExact(d), ops) == Shown(FreshLogged(d, name), ops)
    ensures Alike(After(FreshExact(d), ops), After(FreshLogged(d, name), ops))
  {
    RunsAlike(FreshExact(d), FreshLogged(d, name), ops);
  }

  /******* Fractions of a second *******/

  /** The log keeps a next run exactly when it is a whole second. */
  lemma LogKeepsWholeSeconds(name: string, agent: AgentState.State, t: Time)
    ensures Logged(name, agent).UpdateNextRun(t).NextRun() == t <==> WholeSeconds(t)
  {}

  /** Of two neighbouring grid instants of a fractional interval one is no whole second. */
  lemma NearInstant(i: int64, after: Time) returns (t: Time)
    requires i > 0 && !WholeSeconds(i)
    ensures after <= t < after + 2 * i && OnGrid(t, i) && !WholeSeconds(t)
  {
    TruncateOnGrid(after - 1, i);
    t := FirstAfter(after - 1, i);
    if WholeSeconds(t) {
      TruncateOnGrid(t, i);
      SumOfWhole(t, i);
      t := FirstAfter(t, i);
    }
  }

  lemma SumOfWhole(t: Time, i: int64)
    requires i > 0 && WholeSeconds(t) && !WholeSeconds(i) && OnGrid(t, i)
    ensures !WholeSeconds(FirstAfter(t, i))
  {
    DivModUnique(AgentState.SECOND, t / AgentState.SECOND + i / AgentState.SECOND, i % AgentState.SECOND);
  }

  /** What the log makes of a time. */
  lemma LoggedTime(l: Backing, t: Time, i: int64)
    requires l.Logged?
    ensures l.UpdateNextRun(t).NextRun() == t - t % AgentState.SECOND
    ensures l.UpdateScheduler(i, t).NextRun() == t - t % AgentState.SECOND
  {}

  /** Two peeks at a fractional grid instant: the first shows it, from memory and through the log;
      the second shows it from memory, and through the log a time that is too early. */
  lemma FractionalIntervalDrifts(d: int64, name: string) returns (t: Time)
    requires d > 0 && !WholeSeconds(d)
    ensures NEW_YEAR <= t < NEW_YEAR + 2 * d && !WholeSeconds(t)
    ensures var peeks := [PeekOp(t, true), PeekOp(t, true)];
            && Shown(FreshExact(d), peeks) == [At(t), At(t)]
            && Shown(FreshLogged(d, name), peeks) == [At(t), At(t - t % AgentState.SECOND)]
  {
    t := NearInstant(d, NEW_YEAR);
    RoundIff(t, d, t);
    var peek := PeekOp(t, true);
    LoggedTime(FreshLogged(d, name).state, t, 0);
    ShownTwo(FreshExact(d), peek, peek);
    ShownTwo(FreshLogged(d, name), peek, peek);
  }

  lemma ShownTwo(s: Sched, a: Op, b: Op)
    ensures Shown(s, [a, b]) == [Next(s, a).1, Next(Next(s, a).0, b).1]
  {
    assert [a, b][1..] == [b] && [b][1..] == [];
    assert Shown(Next(s, a).0, [b]) == [Next(Next(s, a).0, b).1] + Shown(Next(Next(s, a).0, b).0, []);
  }

  /** Changing from a whole-second interval to a fractional one shows as well. */
  lemma FractionalChangeDrifts(d: int64, name: string, i: int64) returns (x: SetInput, t: Time)
    requires d > 0 && WholeSeconds(d) && i > 0 && !WholeSeconds(i)
    ensures NEW_YEAR <= x.t0 && Ordered(SetOp(i, x)) && x.t3 == t < NEW_YEAR + d + 2 * i && !WholeSeconds(t)
    ensures var ops := [SetOp(i, x), PeekOp(t, true)];
            && Shown(FreshExact(d), ops) == [Answer(true), At(t)]
            && Shown(FreshLogged(d, name), ops) == [Answer(true), At(t - t % AgentState.SECOND)]
  {
    var next := FirstAfter(NEW_YEAR, d);
    TruncateOnGrid(NEW_YEAR, d);
    t := NearInstant(i, next);
    x := SetInput(next - 1, next - 1, t, t, true, true, true);
    RoundIff(next - 1, d, next);
    RoundIff(t, i, t);
    var change, peek := SetOp(i, x), PeekOp(t, true);
    LoggedTime(NextRun(FreshLogged(d, name), next - 1, true).0.state, t, i);
    ChangeThenPeek(FreshExact(d), i, x, t);
    ChangeThenPeek(FreshLogged(d, name), i, x, t);
    ShownTwo(FreshExact(d), change, peek);
    ShownTwo(FreshLogged(d, name), change, peek);
  }

  /** A change whose next run lies ahead rounds the clock; a peek then shows what was stored. */
  lemma ChangeThenPeek(s: Sched, i: int64, x: SetInput, t: Time)
    requires TakesEffect(s, i, x) && i > 0 && x.t1 < NextRun(s, x.t0, x.ok0).1 && Round(x.t2, i) == t
    requires NextRun(s, x.t0, x.ok0).0.state.UpdateScheduler(i, t).NextRun() != 0
    ensures var (s1, shown) := Next(s, SetOp(i, x));
            && shown == Answer(true)
            && Next(s1, PeekOp(t, true)).1 == At(NextRun(s, x.t0, x.ok0).0.state.UpdateScheduler(i, t).NextRun())
  {}

  /** Ordered readings from 2025 on, for as long as three of the longest intervals, and intervals
      out of a given set. */
  predicate Uses(ops: seq<Op>, intervals: set<int64>) {
    && (forall op <- ops :: Ordered(op) && NEW_YEAR <= FirstReading(op) && LastReading(op) <= NEW_YEAR + 3 * INT64_MAX)
    && (forall op <- ops :: op.SetOp? ==> op.interval in intervals)
  }

  /** No run with the given default and the given intervals shows a difference between the log and
      exact memory, exactly when all of them are whole seconds. */
  lemma InvisibleIffWholeSeconds(d: int64, name: string, intervals: set<int64>)
    requires d > 0
    ensures (forall ops | Uses(ops, intervals) :: Shown(FreshExact(d), ops) == Shown(FreshLogged(d, name), ops))
            <==> WholeSeconds(d) && forall i <- intervals :: WholeInterval(i)
  {
    if !WholeSeconds(d) {
      var t := FractionalIntervalDrifts(d, name);
      assert Uses([PeekOp(t, true), PeekOp(t, true)], intervals);
    } else if i :| i in intervals && !WholeInterval(i) {
      var x, t := FractionalChangeDrifts(d, name, i);
      assert Uses([SetOp(i, x), PeekOp(t, true)], intervals);
    } else {
      forall ops | Uses(ops, intervals) ensures Shown(FreshExact(d), ops) == Shown(FreshLogged(d, name), ops) {
        LogTruncationIsInvisible(d, name, ops);
      }
    }
  }
}
