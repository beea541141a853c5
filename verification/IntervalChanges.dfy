/** Runs in which the interval changes: where the next run then is. */
module IntervalChanges {
  import opened Prelude
  import AgentState
  import opened TimeGrid
  import opened Scheduler

  datatype Op =
    | StepOp(step: StepInput)
    | AckOp(ack: AckInput)
    | PeekOp(now: Time, ok: bool)
    | SetOp(interval: int64, change: SetInput)

  /** What a caller sees of an operation. */
  datatype Seen = Window(outcome: Outcome) | Answer(ok: bool) | At(next: Time)

  function Next(s: Sched, op: Op): (Sched, Seen) {
    match op
    case StepOp(x) => var (s1, o) := Step(s, x); (s1, Window(o))
    case AckOp(x) => var (s1, ok) := Ack(s, x); (s1, Answer(ok))
    case PeekOp(now, ok) => var (s1, n) := NextRun(s, now, ok); (s1, At(n))
    case SetOp(i, x) => var (s1, ok) := SetInterval(s, i, x); (s1, Answer(ok))
  }

  /** Readings do not go back within an operation and are past the zero time. */
  predicate Ordered(op: Op) {
    match op
    case StepOp(x) => 0 <= x.t0 <= x.t1 <= x.t2 <= x.t3
    case AckOp(x) => 0 <= x.t0 <= x.t1
    case PeekOp(now, _) => 0 <= now
    case SetOp(_, x) => 0 <= x.t0 <= x.t1 <= x.t2 <= x.t3
  }

  function FirstReading(op: Op): Time {
    match op
    case StepOp(x) => x.t0
    case AckOp(x) => x.t0
    case PeekOp(now, _) => now
    case SetOp(_, x) => x.t0
  }

  function LastReading(op: Op): Time {
    match op
    case StepOp(x) => x.t3
    case AckOp(x) => x.t1
    case PeekOp(now, _) => now
    case SetOp(_, x) => x.t3
  }

  predicate TakesEffect(s: Sched, i: int64, x: SetInput) { i != GetInterval(s) && x.okUpdate }

  /** The new interval is more than twice as long as the time that it is asked to round. */
  predicate Overlong(s: Sched, i: int64, x: SetInput) { 2 * Anchor(s, x) < NewInterval(s, i) }

  /** Whether the next run has lost the current grid: an overlong change makes it start anew on
      the default grid, until an acknowledgement or the next change puts it right. */
  predicate Strays(s: Sched, op: Op, astray: bool) {
    match op
    case SetOp(i, x) => if TakesEffect(s, i, x) then Overlong(s, i, x) else astray
    case AckOp(x) => astray && !(s.lastTime.Some? && x.okUpdate)
    case StepOp(_) => astray
    case PeekOp(_, _) => astray
  }

  predicate Astray(s: Sched, ops: seq<Op>, astray: bool)
    decreases |ops|
  {
    if ops == [] then astray else Astray(Next(s, ops[0]).0, ops[1..], Strays(s, ops[0], astray))
  }

  function After(s: Sched, ops: seq<Op>): Sched
    decreases |ops|
  {
    if ops == [] then s else After(Next(s, ops[0]).0, ops[1..])
  }

  function Shown(s: Sched, ops: seq<Op>): seq<Seen>
    decreases |ops|
  {
    if ops == [] then [] else [Next(s, ops[0]).1] + Shown(Next(s, ops[0]).0, ops[1..])
  }

  predicate WholeSeconds(i: int) { i % AgentState.SECOND == 0 }

  /** An interval that is not positive stands for the default one. */
  predicate WholeInterval(i: int64) { i > 0 ==> WholeSeconds(i) }

  /** All intervals of the run are whole seconds. */
  predicate WholeSecondOps(ops: seq<Op>) {
    forall op <- ops :: op.SetOp? ==> WholeInterval(op.interval)
  }

  /** The next run is on the current grid, and while it is unset the current interval is the
      default; or it has gone astray on the default grid. */
  ghost predicate Inv(s: Sched, astray: bool) {
    && s.defaultInterval > 0 && GetInterval(s) > 0
    && OnGrid(s.state.NextRun(), if astray then s.defaultInterval else GetInterval(s))
    && 0 <= s.state.NextRun()
    && (!astray && s.state.NextRun() == 0 ==> GetInterval(s) == s.defaultInterval)
    && (s.lastTime.Some? ==> 0 <= s.lastTime.value)
    && (s.state.Logged? ==> WholeSeconds(GetInterval(s)) && WholeSeconds(s.defaultInterval))
  }

  lemma Storing(b: Backing, t: Time, i: int64)
    requires b.Logged? ==> WholeSeconds(t)
    ensures b.UpdateNextRun(t).NextRun() == t && b.UpdateNextRun(t).Interval() == b.Interval()
    ensures b.UpdateScheduler(i, t).NextRun() == t && b.UpdateScheduler(i, t).Interval() == i
    ensures b.UpdateNextRun(t).Logged? == b.UpdateScheduler(i, t).Logged? == b.Logged?
  {}

  /** Grid instants of a whole-second grid are whole seconds. */
  lemma WholeGrid(b: Backing, t: Time, d: int64)
    requires d > 0 && OnGrid(t, d) && (b.Logged? ==> WholeSeconds(d))
    ensures b.Logged? ==> WholeSeconds(t)
  {
    if b.Logged? {
      CoarserGrid(t, d, AgentState.SECOND);
    }
  }

  /** Rounding gives the zero time exactly for times less than half a step away from it. */
  lemma RoundNotNegative(t: Time, d: int64)
    requires d > 0 && 0 <= t
    ensures 0 <= Round(t, d) && (Round(t, d) == 0 <==> 2 * t < d)
  {
    RoundOnGrid(t, d);
    if 2 * t < d {
      DivModUnique(d, 0, t);
    } else if Round(t, d) < 0 {
      GridGap(Round(t, d), 0, d);
    }
  }

  lemma PeekInv(s: Sched, now: Time, ok: bool, astray: bool)
    requires Inv(s, astray) && 0 <= now
    ensures var (s1, n) := NextRun(s, now, ok);
            && Inv(s1, astray) && 0 <= n && s1.lastTime == s.lastTime && s1.defaultInterval == s.defaultInterval
            && GetInterval(s1) == GetInterval(s) && s1.state.Logged? == s.state.Logged?
  {
    if s.state.NextRun() == 0 {
      var d := s.defaultInterval;
      RoundOnGrid(now, d);
      RoundNotNegative(now, d);
      WholeGrid(s.state, Round(now, d), d);
      Storing(s.state, Round(now, d), d);
    }
  }

  /** An acknowledgement that is stored puts the next run on the current grid. */
  lemma StoredByAck(s: Sched, x: AckInput, astray: bool)
    requires Inv(s, astray) && 0 <= x.t0 && s.lastTime.Some? && x.okUpdate
    ensures var s1 := NextRun(s, x.t0, x.ok0).0;
            var next := FirstAfter(s.lastTime.value, GetInterval(s));
            && Inv(s1.(state := s1.state.UpdateNextRun(next), lastTime := None), false)
            && s1.state.UpdateNextRun(next).Logged? == s.state.Logged?
  {
    var d := GetInterval(s);
    PeekInv(s, x.t0, x.ok0, astray);
    var s1 := NextRun(s, x.t0, x.ok0).0;
    var next := FirstAfter(s.lastTime.value, d);
    TruncateOnGrid(s.lastTime.value, d);
    WholeGrid(s1.state, next, d);
    Storing(s1.state, next, d);
  }

  lemma AckInv(s: Sched, x: AckInput, astray: bool)
    requires Inv(s, astray) && 0 <= x.t0 <= x.t1
    ensures Inv(Ack(s, x).0, Strays(s, AckOp(x), astray)) && Ack(s, x).0.state.Logged? == s.state.Logged?
  {
    if s.lastTime.Some? && x.okUpdate {
      StoredByAck(s, x, astray);
      var s1, next := NextRun(s, x.t0, x.ok0).0, FirstAfter(s.lastTime.value, GetInterval(s));
      PeekInv(s1.(state := s1.state.UpdateNextRun(next), lastTime := None), x.t1, x.ok1, false);
    } else if s.lastTime.Some? {
      PeekInv(s, x.t0, x.ok0, astray);
    }
  }

  /** What a change of interval that takes effect stores before the next run is read again: the
      new interval, and a next run on its grid, at most half of it after the clock. The next run
      is the zero time, which means none, exactly when the interval is overlong. */
  lemma StoredByChange(s: Sched, i: int64, x: SetInput, astray: bool)
    requires Inv(s, astray) && Ordered(SetOp(i, x)) && TakesEffect(s, i, x) && (s.state.Logged? ==> WholeInterval(i))
    ensures var d, t := NewInterval(s, i), Round(Anchor(s, x), NewInterval(s, i));
            var b := NextRun(s, x.t0, x.ok0).0.state.UpdateScheduler(d, t);
            && d > 0 && b.Interval() == d && b.NextRun() == t && b.Logged? == s.state.Logged?
            && OnGrid(t, d) && 0 <= t && 2 * (t - x.t2) <= d
            && (t == 0 <==> Overlong(s, i, x))
  {
    var d, a := NewInterval(s, i), Anchor(s, x);
    PeekInv(s, x.t0, x.ok0, astray);
    var s1 := NextRun(s, x.t0, x.ok0).0;
    RoundOnGrid(a, d);
    RoundNotNegative(a, d);
    WholeGrid(s1.state, Round(a, d), d);
    Storing(s1.state, Round(a, d), d);
  }

  /** A change of interval that takes effect sets the interval. Unless the interval is overlong
      it leaves the next run on the new grid, at most half the new interval after the clock. With
      an overlong one the next run starts anew on the default grid, or is left unset; so it is on
      the new grid exactly if that instant happens to be. */
  lemma SetIntervalEffect(s: Sched, i: int64, x: SetInput, astray: bool)
    requires Inv(s, astray) && Ordered(SetOp(i, x)) && TakesEffect(s, i, x)
    requires s.state.Logged? ==> WholeInterval(i)
    ensures var s1, d := SetInterval(s, i, x).0, NewInterval(s, i);
            && Inv(s1, Overlong(s, i, x))
            && GetInterval(s1) == d > 0 && s1.state.Logged? == s.state.Logged?
            && (!Overlong(s, i, x) ==> OnGrid(s1.state.NextRun(), d) && 2 * (s1.state.NextRun() - x.t2) <= d)
            && (Overlong(s, i, x) ==>
                  s1.state.NextRun() == if x.ok3 then Round(x.t3, s.defaultInterval) else 0)
            && (OnGrid(s1.state.NextRun(), d) <==>
                  !Overlong(s, i, x) || !x.ok3 || OnGrid(Round(x.t3, s.defaultInterval), d))
  {
    StoredByChange(s, i, x, astray);
    PeekInv(s, x.t0, x.ok0, astray);
    var d := NewInterval(s, i);
    var s0 := NextRun(s, x.t0, x.ok0).0;
    var s1 := s0.(state := s0.state.UpdateScheduler(d, Round(Anchor(s, x), d)));
    assert Inv(s1, Overlong(s, i, x));
    PeekInv(s1, x.t3, x.ok3, Overlong(s, i, x));
    if Overlong(s, i, x) {
      RoundOnGrid(x.t3, s.defaultInterval);
      WholeGrid(s1.state, Round(x.t3, s.defaultInterval), s.defaultInterval);
      Storing(s1.state, Round(x.t3, s.defaultInterval), d);
    }
  }

  lemma StepInv(s: Sched, x: StepInput, astray: bool)
    requires Inv(s, astray) && 0 <= x.t0 <= x.t1 <= x.t2 <= x.t3
    ensures Inv(Step(s, x).0, astray) && Step(s, x).0.state.Logged? == s.state.Logged?
  {
    var s0 := s.(lastTime := None);
    PeekInv(s0, x.t1, x.ok1, astray);
    PeekInv(NextRun(s0, x.t1, x.ok1).0, x.t3, x.ok3, astray);
  }

  lemma NextInv(s: Sched, op: Op, astray: bool)
    requires Inv(s, astray) && Ordered(op) && (s.state.Logged? && op.SetOp? ==> WholeInterval(op.interval))
    ensures Inv(Next(s, op).0, Strays(s, op, astray)) && Next(s, op).0.state.Logged? == s.state.Logged?
  {
    match op {
      case PeekOp(now, ok) => PeekInv(s, now, ok, astray);
      case StepOp(x) => StepInv(s, x, astray);
      case AckOp(x) => AckInv(s, x, astray);
      case SetOp(i, x) =>
        PeekInv(s, x.t0, x.ok0, astray);
        if TakesEffect(s, i, x) {
          SetIntervalEffect(s, i, x, astray);
        }
    }
  }

  lemma {:induction false} RunInv(s: Sched, ops: seq<Op>, astray: bool)
    requires Inv(s, astray) && (forall op <- ops :: Ordered(op)) && (s.state.Logged? ==> WholeSecondOps(ops))
    ensures Inv(After(s, ops), Astray(s, ops, astray))
    decreases |ops|
  {
    if ops != [] {
      assert ops[0] in ops;
      NextInv(s, ops[0], astray);
      RunInv(Next(s, ops[0]).0, ops[1..], Strays(s, ops[0], astray));
    }
  }

  function FreshExact(d: int64): Sched { Sched(d, None, Exact(0, 0)) }

  function FreshLogged(d: int64, name: string): Sched { Sched(d, None, Logged(name, AgentState.FRESH)) }

  /** From a fresh state, through any steps, acknowledgements and changes of interval, the next
      run is a multiple of the current interval; only after an overlong change, and until the
      next acknowledgement or change, it is a multiple of the default one instead. */
  lemma NextRunOnCurrentGrid(d: int64, ops: seq<Op>)
    requires d > 0 && forall op <- ops :: Ordered(op)
    ensures var s := After(FreshExact(d), ops);
            && GetInterval(s) > 0
            && OnGrid(s.state.NextRun(), if Astray(FreshExact(d), ops, false) then d else GetInterval(s))
  {
    RunInv(FreshExact(d), ops, false);
    DefaultStays(FreshExact(d), ops);
  }

  /******* The interval in force *******/

  /** The interval last asked for and stored; one that is not positive stands for the default. */
  function LastSet(ops: seq<Op>, d: int64): int64 {
    if ops == [] then d else
    var op := ops[|ops| - 1];
    if op.SetOp? && op.change.okUpdate then if op.interval > 0 then op.interval else d
    else LastSet(ops[..|ops| - 1], d)
  }

  lemma OneSet(s: Sched, op: Op)
    requires s.defaultInterval > 0 && GetInterval(s) > 0
    ensures var (s1, shown) := Next(s, op);
            && s1.defaultInterval == s.defaultInterval
            && (GetInterval(s1) ==
                  if op.SetOp? && op.change.okUpdate then if op.interval > 0 then op.interval else s.defaultInterval
                  else GetInterval(s))
            && (op.SetOp? ==> shown == Answer(op.interval == GetInterval(s) || op.change.okUpdate))
            && (op.AckOp? ==> shown == Answer(s.lastTime.None? || op.ack.okUpdate))
            && (op.StepOp? && shown.outcome != NotReady ==> shown.outcome.interval == GetInterval(s))
  {}

  /** In every run each job gets the interval last asked for and stored, and a change or an
      acknowledgement answers that it failed exactly when it had to store something and could not. */
  lemma {:induction false} JobsGetLastSet(d: int64, ops: seq<Op>, op: Op)
    requires d > 0
    ensures var s := After(FreshExact(d), ops);
            && GetInterval(s) == LastSet(ops, d) > 0 && s.defaultInterval == d
            && (op.StepOp? && Next(s, op).1.outcome != NotReady ==> Next(s, op).1.outcome.interval == LastSet(ops, d))
            && (op.SetOp? ==> Next(s, op).1 == Answer(op.interval == LastSet(ops, d) || op.change.okUpdate))
            && (op.AckOp? ==> Next(s, op).1 == Answer(s.lastTime.None? || op.ack.okUpdate))
  {
    if ops != [] {
      var n := |ops| - 1;
      JobsGetLastSet(d, ops[..n], ops[n]);
      OneSet(After(FreshExact(d), ops[..n]), ops[n]);
      AfterSnoc(FreshExact(d), ops[..n], ops[n]);
      assert ops == ops[..n] + [ops[n]];
    }
    OneSet(After(FreshExact(d), ops), op);
  }

  lemma {:induction false} DefaultStays(s: Sched, ops: seq<Op>)
    ensures After(s, ops).defaultInterval == s.defaultInterval
    decreases |ops|
  {
    if ops != [] {
      DefaultStays(Next(s, ops[0]).0, ops[1..]);
    }
  }

  /******* Overlong intervals *******/

  /** A first change from a fresh state is never overlong once the clock has passed the longest
      interval there is, 292 years after the zero time. */
  lemma FirstChangeIsNotOverlong(d: int64, i: int64, x: SetInput)
    requires d > 0 && INT64_MAX <= x.t0 <= x.t1 <= x.t2
    ensures !Overlong(FreshExact(d), i, x)
  {
    RoundOnGrid(x.t0, d);
  }

  /** Later ones can be, under any clock: while no run is acknowledged each change rounds the last
      next run, and not the clock. */
  function Rounded(t: Time, ds: seq<int64>): Time
    decreases |ds|
  {
    if ds == [] then t else Rounded(Round(t, ds[0]), ds[1..])
  }

  function Changes(now: Time, ds: seq<int64>): seq<Op> {
    seq(|ds|, k requires 0 <= k < |ds| => SetOp(ds[k], SetInput(now, now, now, now, true, true, true)))
  }

  /** Positive intervals, no two equal in a row, that round t to times from the first instant to now. */
  predicate Lowering(t: Time, interval: int64, ds: seq<int64>, now: Time)
    decreases |ds|
  {
    ds == [] || (0 < ds[0] != interval && 0 < Round(t, ds[0]) <= now && Lowering(Round(t, ds[0]), ds[0], ds[1..], now))
  }

  lemma {:induction false} ChangesRound(s: Sched, ds: seq<int64>, now: Time)
    requires s.state.Exact? && 0 < s.state.next <= now && Lowering(s.state.next, GetInterval(s), ds, now)
    ensures After(s, Changes(now, ds)) ==
            if ds == [] then s else s.(state := Exact(Rounded(s.state.next, ds), ds[|ds| - 1]))
    decreases |ds|
  {
    if ds != [] {
      assert Changes(now, ds)[1..] == Changes(now, ds[1..]);
      ChangesRound(Next(s, Changes(now, ds)[0]).0, ds[1..], now);
    }
  }

  /** The first instant of 2025. */
  const NEW_YEAR: Time := 63_871_286_400 * AgentState.SECOND

  /** The year 111, in which the changes below end. */
  const YEAR_111: int64 := 3_499_000_000_000_000_000

  /** The n changes take the next run from t down to the year 111. */
  ghost predicate WayDown(t: Time, interval: int64, ds: seq<int64>, n: nat) {
    && |ds| == n > 0 && ds[n - 1] == YEAR_111
    && Lowering(t, interval, ds, NEW_YEAR) && Rounded(t, ds) == YEAR_111
  }

  /** One more change in front, which rounds t to q intervals. */
  lemma Lower(t: Time, interval: int64, d: int64, q: nat, ds: seq<int64>, n: nat)
    requires 0 < d != interval && 0 < q * d <= NEW_YEAR && -d <= 2 * (t - q * d) < d
    requires WayDown(q * d, d, ds, n)
    ensures WayDown(t, interval, [d] + ds, n + 1)
  {
    Multiple(d, q);
    RoundIff(t, d, q * d);
    assert ([d] + ds)[1..] == ds;
  }

  lemma FromYear462() returns (ds: seq<int64>)
    ensures WayDown(14_590_000_000_000_000_000, 7_295_000_000_000_000_000, ds, 4)
  {
    Multiple(YEAR_111, 1);
    RoundIff(5_232_000_000_000_000_000, YEAR_111, YEAR_111);
    ds := [YEAR_111];
    Lower(7_822_000_000_000_000_000, 7_822_000_000_000_000_000, 5_232_000_000_000_000_000, 1, ds, 1);
    ds := [5_232_000_000_000_000_000] + ds;
    Lower(11_694_000_000_000_000_000, 5_847_000_000_000_000_000, 7_822_000_000_000_000_000, 1, ds, 2);
    ds := [7_822_000_000_000_000_000] + ds;
    Lower(14_590_000_000_000_000_000, 7_295_000_000_000_000_000, 5_847_000_000_000_000_000, 2, ds, 3);
    ds := [5_847_000_000_000_000_000] + ds;
  }

  lemma FromYear977() returns (ds: seq<int64>)
    ensures WayDown(30_820_000_000_000_000_000, 7_705_000_000_000_000_000, ds, 8)
  {
    ds := FromYear462();
    Lower(18_202_000_000_000_000_000, 9_101_000_000_000_000_000, 7_295_000_000_000_000_000, 2, ds, 4);
    ds := [7_295_000_000_000_000_000] + ds;
    Lower(22_707_000_000_000_000_000, 7_569_000_000_000_000_000, 9_101_000_000_000_000_000, 2, ds, 5);
    ds := [9_101_000_000_000_000_000] + ds;
    Lower(26_454_000_000_000_000_000, 8_818_000_000_000_000_000, 7_569_000_000_000_000_000, 3, ds, 6);
    ds := [7_569_000_000_000_000_000] + ds;
    Lower(30_820_000_000_000_000_000, 7_705_000_000_000_000_000, 8_818_000_000_000_000_000, 3, ds, 7);
    ds := [8_818_000_000_000_000_000] + ds;
  }

  lemma FromYear1490() returns (ds: seq<int64>)
    ensures WayDown(47_016_000_000_000_000_000, 7_836_000_000_000_000_000, ds, 12)
  {
    ds := FromYear977();
    Lower(34_636_000_000_000_000_000, 8_659_000_000_000_000_000, 7_705_000_000_000_000_000, 4, ds, 8);
    ds := [7_705_000_000_000_000_000] + ds;
    Lower(38_925_000_000_000_000_000, 7_785_000_000_000_000_000, 8_659_000_000_000_000_000, 4, ds, 9);
    ds := [8_659_000_000_000_000_000] + ds;
    Lower(42_780_000_000_000_000_000, 8_556_000_000_000_000_000, 7_785_000_000_000_000_000, 5, ds, 10);
    ds := [7_785_000_000_000_000_000] + ds;
    Lower(47_016_000_000_000_000_000, 7_836_000_000_000_000_000, 8_556_000_000_000_000_000, 5, ds, 11);
    ds := [8_556_000_000_000_000_000] + ds;
  }

  /** Sixteen intervals of 111 to 292 years that take the next run from 2025 down to the year 111. */
  lemma LongWayDown() returns (ds: seq<int64>)
    ensures WayDown(NEW_YEAR, 10 * AgentState.SECOND, ds, 16)
  {
    ds := FromYear1490();
    Lower(50_898_000_000_000_000_000, 8_483_000_000_000_000_000, 7_836_000_000_000_000_000, 6, ds, 12);
    ds := [7_836_000_000_000_000_000] + ds;
    Lower(55_098_000_000_000_000_000, 9_183_000_000_000_000_000, 8_483_000_000_000_000_000, 6, ds, 13);
    ds := [8_483_000_000_000_000_000] + ds;
    Lower(59_647_000_000_000_000_000, 8_521_000_000_000_000_000, 9_183_000_000_000_000_000, 6, ds, 14);
    ds := [9_183_000_000_000_000_000] + ds;
    Lower(NEW_YEAR, 10 * AgentState.SECOND, 8_521_000_000_000_000_000, 7, ds, 15);
    ds := [8_521_000_000_000_000_000] + ds;
  }

  /** So with the clock at 2025, from a fresh scheduler, sixteen changes make a seventeenth
      overlong, and that one takes the next run off the current grid. */
  lemma OverlongIntervalLeavesGrid() returns (ops: seq<Op>)
    ensures forall op <- ops :: Ordered(op) && (op.SetOp? ==> op.change.t0 == NEW_YEAR)
    ensures var s := After(FreshExact(10 * AgentState.SECOND), ops);
            && GetInterval(s) == 9_223_372_036_000_000_000
            && s.state.NextRun() == NEW_YEAR && !OnGrid(NEW_YEAR, GetInterval(s))
  {
    var ds := LongWayDown();
    var peek := PeekOp(NEW_YEAR, true);
    var last := SetOp(9_223_372_036_000_000_000, SetInput(NEW_YEAR, NEW_YEAR, NEW_YEAR, NEW_YEAR, true, true, true));
    ops := [peek] + (Changes(NEW_YEAR, ds) + [last]);
    var s1 := Next(FreshExact(10 * AgentState.SECOND), peek).0;
    assert s1 == Sched(10 * AgentState.SECOND, None, Exact(NEW_YEAR, 0));
    ChangesRound(s1, ds, NEW_YEAR);
    var s2 := After(s1, Changes(NEW_YEAR, ds));
    assert s2 == Sched(10 * AgentState.SECOND, None, Exact(3_499_000_000_000_000_000, 3_499_000_000_000_000_000));
    AfterSnoc(s1, Changes(NEW_YEAR, ds), last);
    assert ops[1..] == Changes(NEW_YEAR, ds) + [last];
  }

  lemma {:induction false} AfterSnoc(s: Sched, ops: seq<Op>, op: Op)
    ensures After(s, ops + [op]) == Next(After(s, ops), op).0
    decreases |ops|
  {
    if ops != [] {
      assert (ops + [op])[1..] == ops[1..] + [op];
      AfterSnoc(Next(s, ops[0]).0, ops[1..], op);
    }
  }
}
