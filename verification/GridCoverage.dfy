/** Exactly-once coverage of the grid: whatever fails and is retried, the acknowledged windows
    of a scheduler with a fixed interval tile the grid from the first one on. */
module GridCoverage {
  import opened Prelude
  import AgentState
  import opened TimeGrid
  import opened Scheduler

  datatype Window = Window(from: Time, to: Time)

  datatype Op = StepOp(step: StepInput) | AckOp(ack: AckInput) | PeekOp(now: Time, ok: bool)

  /** The scheduler with its last unacknowledged run and all acknowledged ones. */
  datatype Run = Run(s: Sched, pending: Option<Window>, acked: seq<Window>)

  function Next(r: Run, op: Op): Run {
    match op
    case PeekOp(now, ok) => r.(s := NextRun(r.s, now, ok).0)
    case StepOp(x) =>
      var (s, o) := Step(r.s, x);
      Run(s, if o.Ran? then Some(Window(o.from, o.to)) else None, r.acked)
    case AckOp(x) =>
      var (s, ok) := Ack(r.s, x);
      if ok && r.pending.Some? then Run(s, None, r.acked + [r.pending.value]) else r.(s := s)
  }

  function After(r: Run, ops: seq<Op>): Run
    decreases |ops|
  {
    if ops == [] then r else After(Next(r, ops[0]), ops[1..])
  }

  /** The clock shows no time before the zero time, and does not go back during a step. */
  predicate ClockOk(op: Op) {
    match op
    case PeekOp(now, _) => 0 <= now
    case StepOp(x) => 0 <= x.t0 <= x.t1 <= x.t2 <= x.t3
    case AckOp(x) => 0 <= x.t0 <= x.t1
  }

  /** A positive interval that stays; whole seconds if the state goes through the log. */
  predicate Fixed(s: Sched, interval: int64) {
    && interval > 0 && GetInterval(s) == interval
    && (s.state.NextRun() == 0 ==> s.defaultInterval == interval)
    && OnGrid(s.state.NextRun(), interval)
    && (s.state.Exact? || OnGrid(interval, AgentState.SECOND))
  }

  /** Each window starts at the first grid instant after its predecessor's end. */
  ghost predicate Tiles(w: seq<Window>, d: int)
    requires d > 0
  {
    && (forall k | 0 <= k < |w| :: OnGrid(w[k].from, d))
    && (forall k | 0 < k < |w| :: w[k].from == FirstAfter(w[k - 1].to, d) && w[k].from <= w[k].to)
  }

  ghost predicate Inv(r: Run, d: int64) {
    && Fixed(r.s, d)
    && Tiles(r.acked, d)
    && (r.s.lastTime == if r.pending.Some? then Some(r.pending.value.to) else None)
    && (r.pending.Some? ==> OnGrid(r.pending.value.from, d) && 0 <= r.pending.value.to)
    && (r.acked != [] ==>
          && 0 < r.s.state.NextRun() == FirstAfter(r.acked[|r.acked| - 1].to, d)
          && (r.pending.Some? ==> r.pending.value.from == r.s.state.NextRun() <= r.pending.value.to))
  }

  /** Storing a grid instant stores it unchanged, also through the log. */
  lemma StoredExactly(b: Backing, t: Time, d: int64)
    requires d > 0 && OnGrid(t, d) && (b.Exact? || OnGrid(d, AgentState.SECOND))
    ensures b.UpdateNextRun(t).NextRun() == t
    ensures b.UpdateNextRun(t).Interval() == b.Interval()
    ensures b.UpdateNextRun(t).Exact? == b.Exact?
  {
    if b.Logged? {
      CoarserGrid(t, d, AgentState.SECOND);
    }
  }

  lemma PeekKeepsFixed(s: Sched, now: Time, ok: bool, d: int64)
    requires Fixed(s, d)
    ensures var (s1, next) := NextRun(s, now, ok);
            && Fixed(s1, d) && OnGrid(next, d)
            && s1.lastTime == s.lastTime && s1.defaultInterval == s.defaultInterval
            && s1.state.Exact? == s.state.Exact?
            && (s.state.NextRun() != 0 ==> s1 == s && next == s.state.NextRun())
  {
    if s.state.NextRun() == 0 {
      RoundOnGrid(now, d);
      StoredExactly(s.state, Round(now, d), d);
    }
  }

  lemma StepKeepsInv(r: Run, x: StepInput, d: int64)
    requires Inv(r, d) && ClockOk(StepOp(x))
    ensures Inv(Next(r, StepOp(x)), d)
  {
    var s0 := r.s.(lastTime := None);
    PeekKeepsFixed(s0, x.t1, x.ok1, d);
    var (s1, next) := NextRun(s0, x.t1, x.ok1);
    if next <= x.t0 {
      PeekKeepsFixed(s1, x.t3, x.ok3, d);
    }
  }

  lemma AckKeepsInv(r: Run, x: AckInput, d: int64)
    requires Inv(r, d) && ClockOk(AckOp(x))
    ensures Inv(Next(r, AckOp(x)), d)
    ensures var (s, ok) := Ack(r.s, x);
            ok && r.pending.Some? ==> r.pending.value.to < s.state.NextRun()
  {
    if r.pending.Some? {
      var w := r.pending.value;
      PeekKeepsFixed(r.s, x.t0, x.ok0, d);
      var s1 := NextRun(r.s, x.t0, x.ok0).0;
      if x.okUpdate {
        TruncateOnGrid(w.to, d);
        GridBefore(0, w.to, d);
        StoredExactly(s1.state, FirstAfter(w.to, d), d);
      }
    }
  }

  lemma NextKeepsInv(r: Run, op: Op, d: int64)
    requires Inv(r, d) && ClockOk(op)
    ensures Inv(Next(r, op), d)
  {
    match op {
      case PeekOp(now, ok) => PeekKeepsFixed(r.s, now, ok, d);
      case StepOp(x) => StepKeepsInv(r, x, d);
      case AckOp(x) => AckKeepsInv(r, x, d);
    }
  }

  lemma {:induction false} RunKeepsInv(r: Run, ops: seq<Op>, d: int64)
    requires Inv(r, d) && forall op <- ops :: ClockOk(op)
    ensures Inv(After(r, ops), d)
    decreases |ops|
  {
    if ops != [] {
      NextKeepsInv(r, ops[0], d);
      RunKeepsInv(Next(r, ops[0]), ops[1..], d);
    }
  }

  lemma {:induction false} WindowsOrdered(w: seq<Window>, d: int, k: nat, m: nat)
    requires d > 0 && Tiles(w, d) && k < m < |w|
    ensures w[k].to < w[m].from
    decreases m
  {
    TruncateOnGrid(w[m - 1].to, d);
    if k < m - 1 {
      WindowsOrdered(w, d, k, m - 1);
    }
  }

  lemma {:induction false} WindowOf(w: seq<Window>, d: int, g: int) returns (k: nat)
    requires d > 0 && w != [] && Tiles(w, d) && OnGrid(g, d)
    requires w[0].from <= g < FirstAfter(w[|w| - 1].to, d)
    ensures k < |w| && w[k].from <= g <= w[k].to
  {
    var n := |w| - 1;
    GridBefore(g, w[n].to, d);
    if w[n].from <= g {
      k := n;
    } else {
      k := WindowOf(w[..n], d, g);
    }
  }

  ghost predicate Covers(w: Window, g: int) { w.from <= g <= w.to }

  /** In every run of steps, failed or not, and acknowledgements, stored or not: each grid
      instant between the start of the first acknowledged window and the next run lies in
      exactly one acknowledged window; no grid instant lies in two; the next run lies past all. */
  lemma ExactlyOnce(s: Sched, d: int64, ops: seq<Op>, g: int)
    requires Fixed(s, d) && s.lastTime.None? && (forall op <- ops :: ClockOk(op)) && OnGrid(g, d)
    ensures var r := After(Run(s, None, []), ops);
            && (forall k, m | 0 <= k < |r.acked| && 0 <= m < |r.acked| ::
                  Covers(r.acked[k], g) && Covers(r.acked[m], g) ==> k == m)
            && (r.acked != [] && r.acked[0].from <= g < r.s.state.NextRun() ==>
                  exists k | 0 <= k < |r.acked| :: Covers(r.acked[k], g))
            && (forall k | 0 <= k < |r.acked| :: Covers(r.acked[k], g) ==> g < r.s.state.NextRun())
  {
    var r := After(Run(s, None, []), ops);
    RunKeepsInv(Run(s, None, []), ops, d);
    forall k, m | 0 <= k < m < |r.acked| ensures r.acked[k].to < r.acked[m].from {
      WindowsOrdered(r.acked, d, k, m);
    }
    if r.acked != [] {
      TruncateOnGrid(r.acked[|r.acked| - 1].to, d);
      if r.acked[0].from <= g < r.s.state.NextRun() {
        var k := WindowOf(r.acked, d, g);
        assert Covers(r.acked[k], g);
      }
    }
  }

  /******* Progress *******/

  /** A step answers that it is not ready exactly when the next run that a peek would show is still
      ahead of its first reading; otherwise the job gets the window from the next run to the third
      reading and the interval in force, and only its failure keeps the run from being remembered. */
  lemma ReadyIff(s: Sched, x: StepInput)
    ensures var (s1, o) := Step(s, x);
            && (o == NotReady <==> x.t0 < NextRun(s, x.t1, x.ok1).1)
            && (o != NotReady ==>
                  && o.Ran? == x.jobOk
                  && o.to == x.t2
                  && o.from == NextRun(NextRun(s, x.t1, x.ok1).0, x.t3, x.ok3).1
                  && o.interval == if s.state.Interval() > 0 then s.state.Interval() else s.defaultInterval)
            && s1.lastTime == if o.Ran? then Some(x.t2) else None
  {
    var s0 := s.(lastTime := None);
    assert NextRun(s0, x.t1, x.ok1).1 == NextRun(s, x.t1, x.ok1).1;
    assert NextRun(s0, x.t1, x.ok1).0.state == NextRun(s, x.t1, x.ok1).0.state;
    IntervalKept(s, x.t1, x.ok1);
    IntervalKept(NextRun(s0, x.t1, x.ok1).0, x.t3, x.ok3);
  }

  lemma IntervalKept(s: Sched, now: Time, ok: bool)
    ensures NextRun(s, now, ok).0.state.Interval() == s.state.Interval()
  {}

  /** What a due step whose job succeeds and a stored acknowledgement add. */
  lemma DueStepIsAcked(r: Run, x: StepInput, a: AckInput)
    requires NextRun(r.s, x.t1, x.ok1).1 <= x.t0 && x.jobOk && a.okUpdate
    ensures var e := Next(Next(r, StepOp(x)), AckOp(a));
            |e.acked| == |r.acked| + 1 && e.acked[..|r.acked|] == r.acked && e.acked[|r.acked|].to == x.t2
  {
    ReadyIff(r.s, x);
    var n := Next(r, StepOp(x));
    assert n.pending.Some? && n.pending.value.to == x.t2 && n.acked == r.acked;
    assert Ack(n.s, a).1;
  }

  /** The grid instant lies in exactly one of the windows. */
  ghost predicate CoveredOnce(w: seq<Window>, g: int) {
    exists k | 0 <= k < |w| :: Covers(w[k], g) && forall m | 0 <= m < |w| && m != k :: !Covers(w[m], g)
  }

  lemma TilesCoverOnce(w: seq<Window>, d: int, g: int)
    requires d > 0 && w != [] && Tiles(w, d) && OnGrid(g, d) && w[0].from <= g <= w[|w| - 1].to
    ensures CoveredOnce(w, g)
  {
    GridBefore(g, w[|w| - 1].to, d);
    var k := WindowOf(w, d, g);
    forall m | 0 <= m < |w| && m != k ensures !Covers(w[m], g) {
      if m < k {
        WindowsOrdered(w, d, m, k);
      } else {
        WindowsOrdered(w, d, k, m);
      }
    }
  }

  /** The scheduler gets on: after any run, a due step whose job succeeds, followed by an
      acknowledgement that is stored, leaves every grid instant from the first acknowledged window up
      to the step's own clock in exactly one acknowledged window. */
  lemma Progress(s: Sched, d: int64, ops: seq<Op>, x: StepInput, a: AckInput, g: int)
    requires Fixed(s, d) && s.lastTime.None? && (forall op <- ops :: ClockOk(op)) && OnGrid(g, d)
    requires ClockOk(StepOp(x)) && ClockOk(AckOp(a)) && x.jobOk && a.okUpdate
    requires NextRun(After(Run(s, None, []), ops).s, x.t1, x.ok1).1 <= x.t0
    ensures var r := After(Run(s, None, []), ops + [StepOp(x), AckOp(a)]);
            && r.acked != [] && r.acked[|r.acked| - 1].to == x.t2
            && (r.acked[0].from <= g <= x.t2 ==> CoveredOnce(r.acked, g))
  {
    var r := After(Run(s, None, []), ops);
    RunKeepsInv(Run(s, None, []), ops, d);
    DueStepIsAcked(r, x, a);
    AfterTwo(Run(s, None, []), ops, StepOp(x), AckOp(a));
    NextKeepsInv(r, StepOp(x), d);
    NextKeepsInv(Next(r, StepOp(x)), AckOp(a), d);
    var e := Next(Next(r, StepOp(x)), AckOp(a));
    if e.acked[0].from <= g <= x.t2 {
      TilesCoverOnce(e.acked, d, g);
    }
  }

  lemma {:induction false} AfterTwo(r: Run, ops: seq<Op>, a: Op, b: Op)
    ensures After(r, ops + [a, b]) == Next(Next(After(r, ops), a), b)
    decreases |ops|
  {
    if ops == [] {
      assert ops + [a, b] == [a, b] && [a, b][1..] == [b] && [b][1..] == [];
      assert After(Next(r, a), [b]) == After(Next(Next(r, a), b), []);
    } else {
      assert (ops + [a, b])[0] == ops[0] && (ops + [a, b])[1..] == ops[1..] + [a, b];
      AfterTwo(Next(r, ops[0]), ops[1..], a, b);
    }
  }

  /******* Where the coverage starts *******/

  /** An initialised next run is where the coverage starts, and stays until acknowledged. */
  lemma {:induction false} StartStays(r: Run, ops: seq<Op>)
    requires r.acked == [] && r.s.state.NextRun() != 0
    requires r.pending.Some? ==> r.pending.value.from == r.s.state.NextRun()
    requires r.s.lastTime.Some? ==> r.pending.Some?
    ensures var e := After(r, ops);
            if e.acked == [] then e.s.state.NextRun() == r.s.state.NextRun()
            else e.acked[0].from == r.s.state.NextRun()
    decreases |ops|
  {
    if ops != [] {
      var n := Next(r, ops[0]);
      if n.acked == [] {
        StartStays(n, ops[1..]);
      } else {
        FirstStays(n, ops[1..]);
      }
    }
  }

  lemma {:induction false} FirstStays(r: Run, ops: seq<Op>)
    requires r.acked != []
    ensures After(r, ops).acked != [] && After(r, ops).acked[0] == r.acked[0]
    decreases |ops|
  {
    if ops != [] {
      FirstStays(Next(r, ops[0]), ops[1..]);
    }
  }

  /** The clock is past the first half interval, so that no time is rounded to the zero time. */
  predicate PastHalf(op: Op, d: int64) {
    match op
    case PeekOp(now, _) => d <= 2 * now
    case StepOp(x) => d <= 2 * x.t1 && x.t1 <= x.t3
    case AckOp(x) => d <= 2 * x.t0
  }

  /** The next run that is set first. */
  function FirstRun(r: Run, ops: seq<Op>): Time
    decreases |ops|
  {
    if ops == [] || r.s.state.NextRun() != 0 then r.s.state.NextRun() else FirstRun(Next(r, ops[0]), ops[1..])
  }

  /** The grid instants that a step would start from if the store refuses both its lazy writes. */
  function Unstored(ops: seq<Op>, d: int64): set<Time> {
    set op <- ops | op.StepOp? && !op.step.ok1 && !op.step.ok3 :: Round(op.step.t3, d)
  }

  /** The unacknowledged window starts at the next run, or at an instant that was not stored. */
  ghost predicate StartsWell(r: Run, odd: set<Time>) {
    && r.acked == [] && (r.s.lastTime.Some? ==> r.pending.Some?)
    && (r.pending.Some? ==> r.pending.value.from == r.s.state.NextRun() != 0 || r.pending.value.from in odd)
  }

  lemma SetLazily(s: Sched, now: Time, ok: bool, d: int64)
    requires Fixed(s, d) && d <= 2 * now
    ensures var (s1, next) := NextRun(s, now, ok);
            && (s.state.NextRun() == 0 ==> next == Round(now, d) != 0 && s1.state.NextRun() == if ok then next else 0)
            && (s.state.NextRun() != 0 ==> s1 == s)
  {
    if s.state.NextRun() == 0 {
      RoundOnGrid(now, d);
      StoredExactly(s.state, Round(now, d), d);
    }
  }

  lemma StepStartsWell(r: Run, x: StepInput, d: int64, odd: set<Time>)
    requires Fixed(r.s, d) && PastHalf(StepOp(x), d) && StartsWell(r, odd)
    ensures var n := Next(r, StepOp(x));
            && Fixed(n.s, d) && (r.s.state.NextRun() != 0 ==> n.s.state.NextRun() == r.s.state.NextRun())
            && StartsWell(n, odd + Unstored([StepOp(x)], d))
  {
    var s0 := r.s.(lastTime := None);
    PeekKeepsFixed(s0, x.t1, x.ok1, d);
    SetLazily(s0, x.t1, x.ok1, d);
    var s1 := NextRun(s0, x.t1, x.ok1).0;
    PeekKeepsFixed(s1, x.t3, x.ok3, d);
    SetLazily(s1, x.t3, x.ok3, d);
    assert !x.ok1 && !x.ok3 ==> Round(x.t3, d) in Unstored([StepOp(x)], d) by { assert StepOp(x) in [StepOp(x)]; }
  }

  lemma OtherStartsWell(r: Run, op: Op, d: int64, odd: set<Time>)
    requires Fixed(r.s, d) && PastHalf(op, d) && StartsWell(r, odd) && !op.StepOp? && Next(r, op).acked == []
    ensures var n := Next(r, op);
            && Fixed(n.s, d) && (r.s.state.NextRun() != 0 ==> n.s.state.NextRun() == r.s.state.NextRun())
            && StartsWell(n, odd)
  {
    match op {
      case PeekOp(now, ok) => PeekKeepsFixed(r.s, now, ok, d);
      case AckOp(x) => PeekKeepsFixed(r.s, x.t0, x.ok0, d);
    }
  }

  lemma {:induction false} StartFrom(r: Run, ops: seq<Op>, d: int64, odd: set<Time>)
    requires Fixed(r.s, d) && StartsWell(r, odd) && forall op <- ops :: PastHalf(op, d)
    ensures var e := After(r, ops);
            if e.acked == [] then e.s.state.NextRun() == FirstRun(r, ops)
            else e.acked[0].from == FirstRun(r, ops) || e.acked[0].from in odd + Unstored(ops, d)
    decreases |ops|
  {
    if ops != [] {
      var n, rest := Next(r, ops[0]), ops[1..];
      assert ops[0] in ops;
      assert Unstored([ops[0]], d) <= Unstored(ops, d) && Unstored(rest, d) <= Unstored(ops, d);
      if n.acked != [] {
        FirstStays(n, rest);
        AckedFrom(r, ops, d, odd);
      } else if ops[0].StepOp? {
        StepStartsWell(r, ops[0].step, d, odd);
        StartFrom(n, rest, d, odd + Unstored([ops[0]], d));
      } else {
        OtherStartsWell(r, ops[0], d, odd);
        StartFrom(n, rest, d, odd);
      }
    }
  }

  lemma AckedFrom(r: Run, ops: seq<Op>, d: int64, odd: set<Time>)
    requires StartsWell(r, odd) && ops != [] && Next(r, ops[0]).acked != []
    ensures var from := Next(r, ops[0]).acked[0].from; from in odd || from == FirstRun(r, ops)
  {}

  /** Also from a state with no next run yet: the first acknowledged window starts at the next run
      that was set first, by a peek or a step, or at an instant that a step would have set had the
      store not refused it. */
  lemma CoverageStart(s: Sched, d: int64, ops: seq<Op>)
    requires Fixed(s, d) && s.lastTime.None? && forall op <- ops :: PastHalf(op, d)
    ensures var r := Run(s, None, []);
            var e := After(r, ops);
            if e.acked == [] then e.s.state.NextRun() == FirstRun(r, ops)
            else e.acked[0].from == FirstRun(r, ops) || e.acked[0].from in Unstored(ops, d)
  {
    StartFrom(Run(s, None, []), ops, d, {});
  }

  /******* The buffering cap of the metrics collector *******/

  /** `adjustCollectionStartTime`; max is the collector's maximum buffering duration. */
  function AdjustStart(start: Time, end: Time, interval: int64, max: int64): Time {
    if max > 0 && end - start > max then Truncate(end - max, interval) else start
  }

  /** Without a maximum the start is kept; with one it is moved, along the grid and never back, just
      so far that less than the maximum and an interval are left, and only past what is too old. */
  lemma AdjustStartBounds(start: Time, end: Time, d: int64, max: int64)
    requires d > 0 && OnGrid(start, d)
    ensures OnGrid(AdjustStart(start, end, d, max), d)
    ensures start <= AdjustStart(start, end, d, max)
    ensures max <= 0 ==> AdjustStart(start, end, d, max) == start
    ensures max > 0 ==> end - AdjustStart(start, end, d, max) < max + d
    ensures start < AdjustStart(start, end, d, max) ==> AdjustStart(start, end, d, max) <= end - max
  {
    TruncateOnGrid(end - max, d);
    GridBefore(start, end - max, d);
    if end - start > max && Truncate(end - max, d) < start {
      GridGap(Truncate(end - max, d), start, d);
    }
  }

  /** The range query of a window asks for this instant. */
  ghost predicate Collects(w: Window, d: int64, max: int64, g: int) {
    AdjustStart(w.from, w.to, d, max) <= g <= w.to
  }

  /** Over whole runs no grid instant is collected by two acknowledged windows, and one that is
      passed over is older than the window that spans it allows. */
  lemma CollectedAtMostOnce(s: Sched, d: int64, max: int64, ops: seq<Op>, g: int)
    requires Fixed(s, d) && s.lastTime.None? && (forall op <- ops :: ClockOk(op)) && OnGrid(g, d)
    ensures var r := After(Run(s, None, []), ops);
            && (forall k, m | 0 <= k < |r.acked| && 0 <= m < |r.acked| ::
                  Collects(r.acked[k], d, max, g) && Collects(r.acked[m], d, max, g) ==> k == m)
            && (r.acked != [] && r.acked[0].from <= g < r.s.state.NextRun() ==>
                  exists k | 0 <= k < |r.acked| ::
                    Covers(r.acked[k], g) && (Collects(r.acked[k], d, max, g) || (max > 0 && g < r.acked[k].to - max)))
  {
    var r := After(Run(s, None, []), ops);
    RunKeepsInv(Run(s, None, []), ops, d);
    ExactlyOnce(s, d, ops, g);
    forall k | 0 <= k < |r.acked|
      ensures Collects(r.acked[k], d, max, g) ==> Covers(r.acked[k], g)
      ensures Covers(r.acked[k], g) ==> Collects(r.acked[k], d, max, g) || (max > 0 && g < r.acked[k].to - max)
    {
      AdjustStartBounds(r.acked[k].from, r.acked[k].to, d, max);
    }
  }
}
