/** Coverage across changes of the interval: how far the windows of a scheduler can overlap or leave
    a gap when the interval changes between them. */
module ChangingCoverage {
  import opened Prelude
  import opened TimeGrid
  import opened Scheduler
  import opened IntervalChanges

  /** A window; the next run that the acknowledgement before it set; the sum of the intervals that
      were rounded to in between, and the last clock that was rounded; the interval in force when it
      was acknowledged. */
  datatype Win = Win(from: Time, to: Time, base: Time, weight: int, setAt: Time, period: int64)

  /** A scheduler with its clock, its unacknowledged window and its acknowledged ones, and what has
      been changed since the last acknowledgement. */
  datatype Track = Track(
    s: Sched, clock: Time, pending: Option<Win>, acked: seq<Win>, base: Time, weight: int, setAt: Time, astray: bool)

  /** The unacknowledged window, acknowledged under interval d. */
  function Acked(k: Track, d: int64): Track
    requires k.pending.Some?
  {
    var w := k.pending.value.(period := d);
    k.(pending := None, acked := k.acked + [w], base := FirstAfter(w.to, d), weight := 0, setAt := 0)
  }

  /** The clock that a next run set during the operation goes back to: one of the operation's if
      there was no next run before it. */
  function SetAt(k: Track, op: Op): Time {
    if k.s.state.NextRun() == 0 then LastReading(op) else k.setAt
  }

  /** The interval that a change rounds to: the new one, or the default if the new one is overlong
      and the next run starts anew. */
  function RoundedTo(s: Sched, i: int64, x: SetInput): int64 {
    if Overlong(s, i, x) then s.defaultInterval else NewInterval(s, i)
  }

  function Follow(k: Track, op: Op): Track {
    var s := Next(k.s, op).0;
    var k1 := k.(s := s, clock := LastReading(op), setAt := SetAt(k, op), astray := Strays(k.s, op, k.astray));
    match op
    case PeekOp(_, _) => k1
    case StepOp(x) =>
      var o := Step(k.s, x).1;
      if o.Ran? then k1.(pending := Some(Win(o.from, o.to, k.base, k.weight, SetAt(k, op), o.interval)))
      else k1.(pending := None)
    case AckOp(x) =>
      if k.pending.Some? && x.okUpdate
      then Acked(k, GetInterval(k.s)).(s := s, clock := LastReading(op), astray := Strays(k.s, op, k.astray))
      else k1
    case SetOp(i, x) =>
      if !TakesEffect(k.s, i, x) then k1
      else k1.(weight := k.weight + RoundedTo(k.s, i, x), setAt := if Overlong(k.s, i, x) then x.t3 else x.t2)
  }

  function After(k: Track, ops: seq<Op>): Track
    decreases |ops|
  {
    if ops == [] then k else After(Follow(k, ops[0]), ops[1..])
  }

  function Fresh(s: Sched): Track { Track(s, 0, None, [], 0, 0, 0, false) }

  /** The clock does not go back, within an operation or from one to the next. */
  predicate Rising(clock: Time, ops: seq<Op>)
    decreases |ops|
  {
    ops == [] || (Ordered(ops[0]) && clock <= FirstReading(ops[0]) && Rising(LastReading(ops[0]), ops[1..]))
  }

  function Max(a: int, b: int): int { if a < b then b else a }

  /** A run that starts at `from` after a window that ended at `to`: it overlaps it by less than half
      the intervals rounded to, and starts at most half of them after the next run that was set or
      the last clock that was rounded; without a change it starts at that next run. */
  predicate Bounded(from: Time, to: Time, base: Time, weight: int, setAt: Time) {
    && 2 * (to - from) < weight
    && 2 * (from - Max(base, setAt)) <= weight
    && (weight == 0 ==> from == base)
  }

  /** The same of a next run that may be unset; then the default interval has been counted. */
  predicate Fits(next: Time, to: Time, base: Time, weight: int, setAt: Time, d: int64) {
    if next == 0 then 0 < d <= weight else Bounded(next, to, base, weight, setAt)
  }

  /** How a window goes on from the one acknowledged before it. */
  predicate Joins(v: Win, w: Win) {
    v.period > 0 && w.base == FirstAfter(v.to, v.period) && Bounded(w.from, v.to, w.base, w.weight, w.setAt)
  }

  /** The windows and the changes fit a scheduler with this default interval, this next run and this
      unacknowledged end. */
  ghost predicate Linked(k: Track, d: int64, next: Time, lastTime: Option<Time>) {
    && 0 <= k.clock && 0 <= k.weight && 0 <= k.setAt <= k.clock
    && (lastTime == if k.pending.Some? then Some(k.pending.value.to) else None)
    && (k.pending.Some? ==> 0 <= k.pending.value.to <= k.clock)
    && (k.acked != [] ==>
          var w := k.acked[|k.acked| - 1];
          && 0 <= w.to <= k.clock && w.period > 0 && k.base == FirstAfter(w.to, w.period)
          && Fits(next, w.to, k.base, k.weight, k.setAt, d)
          && (k.pending.Some? ==> Joins(w, k.pending.value)))
    && (forall j | 0 < j < |k.acked| :: Joins(k.acked[j - 1], k.acked[j]))
  }

  ghost predicate Inv(k: Track) {
    IntervalChanges.Inv(k.s, k.astray) && Linked(k, k.s.defaultInterval, k.s.state.NextRun(), k.s.lastTime)
  }

  /** The next run after a change, by where it was before. */
  lemma ChangeMoves(s: Sched, i: int64, x: SetInput, astray: bool)
    requires IntervalChanges.Inv(s, astray) && Ordered(SetOp(i, x)) && TakesEffect(s, i, x)
    requires (s.state.Logged? ==> WholeInterval(i)) && !Overlong(s, i, x)
    ensures var n, d := NextRun(s, x.t0, x.ok0).1, NewInterval(s, i);
            var m := SetInterval(s, i, x).0.state.NextRun();
            && m != 0 && m == Round(if n > x.t1 then x.t2 else n, d)
            && -d < 2 * (m - if n > x.t1 then x.t2 else n) <= d
            && (m == n <==> OnGrid(n, d) && (n > x.t1 ==> -d <= 2 * (x.t2 - n) < d))
  {
    StoredByChange(s, i, x, astray);
    var n, d := NextRun(s, x.t0, x.ok0).1, NewInterval(s, i);
    RoundOnGrid(Anchor(s, x), d);
    RoundIff(Anchor(s, x), d, n);
  }

  /******* Next runs that are read, set lazily or rounded *******/

  /** Reading the next run sets it if there is none, near the clock, unless the store refuses. */
  lemma PeekShape(s: Sched, now: Time, ok: bool, astray: bool)
    requires IntervalChanges.Inv(s, astray) && 0 <= now
    ensures var (s1, n) := NextRun(s, now, ok);
            && s1.lastTime == s.lastTime && s1.defaultInterval == s.defaultInterval
            && IntervalChanges.Inv(s1, astray)
            && (s.state.NextRun() != 0 ==> s1 == s && n == s.state.NextRun())
            && (s.state.NextRun() == 0 ==> Near(n, now, s.defaultInterval) && s1.state.NextRun() in {0, n})
  {
    PeekInv(s, now, ok, astray);
    if s.state.NextRun() == 0 {
      var d := s.defaultInterval;
      RoundOnGrid(now, d);
      WholeGrid(s.state, Round(now, d), d);
      Storing(s.state, Round(now, d), d);
    }
  }

  predicate Near(n: Time, t: Time, d: int) { -d < 2 * (n - t) <= d }

  /** What an operation makes of the next run n: it keeps it if there is one; if there is none it
      leaves it unset or sets it near one of its clocks. */
  predicate Keeps(n: Time, m: Time, first: Time, last: Time, d: int64) {
    if n != 0 then m == n else m == 0 || Near(m, first, d) || Near(m, last, d)
  }

  lemma KeepsFits(n: Time, m: Time, first: Time, last: Time, d: int64, to: Time, base: Time, weight: int, setAt: Time)
    requires Fits(n, to, base, weight, setAt, d) && Keeps(n, m, first, last, d) && to <= first <= last
    ensures Fits(m, to, base, weight, if n == 0 then last else setAt, d)
  {}

  /** A change keeps the bounds, with the interval rounded to added. */
  lemma ChangeBounded(n: Time, m: Time, to: Time, base: Time, weight: int, setAt: Time, d: int, t1: Time, t2: Time)
    requires Bounded(n, to, base, weight, setAt) && to <= t1 <= t2 && setAt <= t2 && d > 0 && weight >= 0
    requires -d < 2 * (m - if n > t1 then t2 else n) <= d
    ensures Bounded(m, to, base, weight + d, t2)
  {}

  /******* One operation *******/

  /** The clock may go on, and the next run be kept. */
  lemma LinkedKept(k: Track, j: Track, d: int64, n: Time, m: Time, lastTime: Option<Time>, first: Time)
    requires Linked(k, d, n, lastTime) && k.clock <= first <= j.clock && Keeps(n, m, first, j.clock, d)
    requires j == k.(s := j.s, clock := j.clock, astray := j.astray, setAt := if n == 0 then j.clock else k.setAt)
    ensures Linked(j, d, m, lastTime)
  {
    if k.acked != [] {
      KeepsFits(n, m, first, j.clock, d, k.acked[|k.acked| - 1].to, k.base, k.weight, k.setAt);
    }
  }

  lemma PeekKeepsInv(k: Track, now: Time, ok: bool)
    requires Inv(k) && k.clock <= now
    ensures Inv(Follow(k, PeekOp(now, ok)))
  {
    PeekShape(k.s, now, ok, k.astray);
    var j := Follow(k, PeekOp(now, ok));
    LinkedKept(k, j, k.s.defaultInterval, k.s.state.NextRun(), j.s.state.NextRun(), k.s.lastTime, now);
  }

  /** What a step does to next run and unacknowledged end, and where its window starts. */
  lemma StepShape(s: Sched, x: StepInput, astray: bool)
    requires IntervalChanges.Inv(s, astray) && Ordered(StepOp(x))
    ensures var (s1, o) := Step(s, x);
            && (s1.lastTime == if o.Ran? then Some(o.to) else None)
            && s1.defaultInterval == s.defaultInterval
            && Keeps(s.state.NextRun(), s1.state.NextRun(), x.t1, x.t3, s.defaultInterval)
            && (o.Ran? ==> o.to == x.t2 && StartsAt(s.state.NextRun(), o.from, x, s.defaultInterval))
  {
    var s0 := s.(lastTime := None);
    PeekShape(s0, x.t1, x.ok1, astray);
    PeekShape(NextRun(s0, x.t1, x.ok1).0, x.t3, x.ok3, astray);
  }

  predicate StartsAt(n: Time, from: Time, x: StepInput, d: int64) {
    if n != 0 then from == n else Near(from, x.t1, d) || Near(from, x.t3, d)
  }

  lemma StepKeepsInv(k: Track, x: StepInput)
    requires Inv(k) && Ordered(StepOp(x)) && k.clock <= x.t0
    ensures Inv(Follow(k, StepOp(x)))
  {
    StepInv(k.s, x, k.astray);
    StepShape(k.s, x, k.astray);
    var n, m, d := k.s.state.NextRun(), Step(k.s, x).0.state.NextRun(), k.s.defaultInterval;
    var j := Follow(k, StepOp(x));
    LinkedKept(k.(pending := None), j.(pending := None), d, n, m, None, x.t1);
    if j.pending.Some? {
      LinkedPending(j.(pending := None), j.pending.value, d, n, m, k.setAt, x);
    }
  }

  /** A new window goes on from the last acknowledged one. */
  lemma LinkedPending(k: Track, w: Win, d: int64, n: Time, m: Time, setAt: Time, x: StepInput)
    requires Linked(k, d, m, None) && k.pending.None? && 0 <= w.to <= k.clock && StartsAt(n, w.from, x, d)
    requires w.base == k.base && w.weight == k.weight && w.setAt == k.setAt == (if n == 0 then x.t3 else setAt)
    requires x.t1 <= x.t3 && (n != 0 ==> m == n)
    requires k.acked != [] ==> k.acked[|k.acked| - 1].to <= x.t1 && (n == 0 ==> 0 < d <= k.weight)
    ensures Linked(k.(pending := Some(w)), d, m, Some(w.to))
  {}

  lemma AckKeepsInv(k: Track, x: AckInput)
    requires Inv(k) && Ordered(AckOp(x)) && k.clock <= x.t0
    ensures Inv(Follow(k, AckOp(x)))
  {
    AckInv(k.s, x, k.astray);
    var j := Follow(k, AckOp(x));
    if k.pending.Some? && x.okUpdate {
      AckStores(k.s, x, k.astray);
      LinkedAck(k, k.s.defaultInterval, k.s.state.NextRun(), k.s.lastTime, GetInterval(k.s), j);
    } else {
      PeekShape(k.s, x.t0, x.ok0, k.astray);
      LinkedKept(k, j, k.s.defaultInterval, k.s.state.NextRun(), j.s.state.NextRun(), k.s.lastTime, x.t0);
    }
  }

  lemma LinkedAck(k: Track, d: int64, n: Time, lastTime: Option<Time>, period: int64, j: Track)
    requires Linked(k, d, n, lastTime) && k.pending.Some? && period > 0 && k.clock <= j.clock
    requires j == Acked(k, period).(s := j.s, clock := j.clock, astray := j.astray)
    ensures Linked(j, d, FirstAfter(k.pending.value.to, period), None)
  {
    TruncateOnGrid(k.pending.value.to, period);
    forall i | 0 < i < |j.acked| ensures Joins(j.acked[i - 1], j.acked[i]) {
      assert i < |k.acked| ==> Joins(k.acked[i - 1], k.acked[i]);
    }
  }

  /** A stored acknowledgement sets the next run. */
  lemma AckStores(s: Sched, x: AckInput, astray: bool)
    requires IntervalChanges.Inv(s, astray) && 0 <= x.t0 && s.lastTime.Some? && x.okUpdate
    ensures Ack(s, x).0.state.NextRun() == FirstAfter(s.lastTime.value, GetInterval(s)) > 0
    ensures Ack(s, x).0.lastTime.None?
  {
    var d := GetInterval(s);
    PeekInv(s, x.t0, x.ok0, astray);
    var s1 := NextRun(s, x.t0, x.ok0).0;
    TruncateOnGrid(s.lastTime.value, d);
    WholeGrid(s1.state, FirstAfter(s.lastTime.value, d), d);
    Storing(s1.state, FirstAfter(s.lastTime.value, d), d);
  }

  /******* Changes *******/

  /** What a change that takes effect does: it rounds the next run that is read first, or the clock
      if that is still ahead; with an overlong interval the clock is rounded to the default one. */
  lemma ChangeShape(s: Sched, i: int64, x: SetInput, astray: bool)
    requires IntervalChanges.Inv(s, astray) && Ordered(SetOp(i, x)) && (s.state.Logged? ==> WholeInterval(i))
    ensures SetInterval(s, i, x).0.lastTime == s.lastTime
    ensures SetInterval(s, i, x).0.defaultInterval == s.defaultInterval
    ensures TakesEffect(s, i, x) ==>
            var n, m, d := NextRun(s, x.t0, x.ok0).1, SetInterval(s, i, x).0.state.NextRun(), RoundedTo(s, i, x);
            && d > 0
            && if Overlong(s, i, x) then m == 0 || Near(m, x.t3, d)
               else m != 0 && Near(m, if n > x.t1 then x.t2 else n, d)
  {
    if TakesEffect(s, i, x) {
      SetIntervalEffect(s, i, x, astray);
      if Overlong(s, i, x) {
        RoundOnGrid(x.t3, s.defaultInterval);
      } else {
        ChangeMoves(s, i, x, astray);
      }
    }
  }

  lemma ChangeFits(n0: Time, n: Time, m: Time, d: int64, e: int64, x: SetInput, overlong: bool,
                   to: Time, base: Time, weight: int, setAt: Time)
    requires Fits(n0, to, base, weight, setAt, d) && to <= x.t0 <= x.t1 <= x.t2 <= x.t3 && setAt <= x.t0
    requires e > 0 && weight >= 0 && (overlong ==> e == d)
    requires if n0 != 0 then n == n0 else Near(n, x.t0, d)
    requires if overlong then m == 0 || Near(m, x.t3, e) else m != 0 && Near(m, if n > x.t1 then x.t2 else n, e)
    ensures Fits(m, to, base, weight + e, if overlong then x.t3 else x.t2, d)
  {
    if !overlong {
      ChangeBounded(n, m, to, base, weight, if n0 == 0 then x.t0 else setAt, e, x.t1, x.t2);
    }
  }

  lemma LinkedChange(k: Track, j: Track, n0: Time, n: Time, m: Time, d: int64, e: int64, x: SetInput, overlong: bool,
                     lastTime: Option<Time>)
    requires Linked(k, d, n0, lastTime) && k.clock <= x.t0 <= x.t1 <= x.t2 <= x.t3
    requires j == k.(s := j.s, clock := x.t3, astray := j.astray, weight := k.weight + e,
                     setAt := if overlong then x.t3 else x.t2)
    requires e > 0 && (overlong ==> e == d)
    requires if n0 != 0 then n == n0 else Near(n, x.t0, d)
    requires if overlong then m == 0 || Near(m, x.t3, e) else m != 0 && Near(m, if n > x.t1 then x.t2 else n, e)
    ensures Linked(j, d, m, lastTime)
  {
    if k.acked != [] {
      ChangeFits(n0, n, m, d, e, x, overlong, k.acked[|k.acked| - 1].to, k.base, k.weight, k.setAt);
    }
  }

  lemma EffectiveKeepsLinked(k: Track, i: int64, x: SetInput)
    requires Inv(k) && Ordered(SetOp(i, x)) && k.clock <= x.t0 && (k.s.state.Logged? ==> WholeInterval(i))
    ensures TakesEffect(k.s, i, x) ==>
            var j := Follow(k, SetOp(i, x)); Linked(j, k.s.defaultInterval, j.s.state.NextRun(), k.s.lastTime)
  {
    if TakesEffect(k.s, i, x) {
      ChangeShape(k.s, i, x, k.astray);
      PeekShape(k.s, x.t0, x.ok0, k.astray);
      var j := Follow(k, SetOp(i, x));
      LinkedChange(k, j, k.s.state.NextRun(), NextRun(k.s, x.t0, x.ok0).1, j.s.state.NextRun(), k.s.defaultInterval,
                   RoundedTo(k.s, i, x), x, Overlong(k.s, i, x), k.s.lastTime);
    }
  }

  lemma IdleKeepsLinked(k: Track, i: int64, x: SetInput)
    requires Inv(k) && Ordered(SetOp(i, x)) && k.clock <= x.t0
    ensures !TakesEffect(k.s, i, x) ==>
            var j := Follow(k, SetOp(i, x)); Linked(j, k.s.defaultInterval, j.s.state.NextRun(), k.s.lastTime)
  {
    if !TakesEffect(k.s, i, x) {
      PeekShape(k.s, x.t0, x.ok0, k.astray);
      var j := Follow(k, SetOp(i, x));
      LinkedKept(k, j, k.s.defaultInterval, k.s.state.NextRun(), j.s.state.NextRun(), k.s.lastTime, x.t0);
    }
  }

  lemma SetKeepsInv(k: Track, i: int64, x: SetInput)
    requires Inv(k) && Ordered(SetOp(i, x)) && k.clock <= x.t0 && (k.s.state.Logged? ==> WholeInterval(i))
    ensures Inv(Follow(k, SetOp(i, x)))
  {
    NextInv(k.s, SetOp(i, x), k.astray);
    ChangeShape(k.s, i, x, k.astray);
    EffectiveKeepsLinked(k, i, x);
    IdleKeepsLinked(k, i, x);
  }

  lemma FollowKeepsInv(k: Track, op: Op)
    requires Inv(k) && Ordered(op) && k.clock <= FirstReading(op)
    requires k.s.state.Logged? && op.SetOp? ==> WholeInterval(op.interval)
    ensures Inv(Follow(k, op)) && Follow(k, op).clock == LastReading(op)
    ensures Follow(k, op).s.state.Logged? == k.s.state.Logged?
  {
    NextInv(k.s, op, k.astray);
    match op {
      case PeekOp(now, ok) => PeekKeepsInv(k, now, ok);
      case StepOp(x) => StepKeepsInv(k, x);
      case AckOp(x) => AckKeepsInv(k, x);
      case SetOp(i, x) => SetKeepsInv(k, i, x);
    }
  }

  lemma {:induction false} RunKeepsInv(k: Track, ops: seq<Op>)
    requires Inv(k) && Rising(k.clock, ops) && (k.s.state.Logged? ==> WholeSecondOps(ops))
    ensures Inv(After(k, ops))
    decreases |ops|
  {
    if ops != [] {
      assert ops[0] in ops;
      FollowKeepsInv(k, ops[0]);
      RunKeepsInv(Follow(k, ops[0]), ops[1..]);
    }
  }

  lemma FreshInv(s: Sched)
    requires IntervalChanges.Inv(s, false) && s.lastTime.None?
    ensures Inv(Fresh(s))
  {}

  lemma JoinedAt(k: Track, j: nat)
    requires Inv(k) && 0 < j < |k.acked|
    ensures Joins(k.acked[j - 1], k.acked[j])
  {}

  /** In every run under a clock that does not go back, with any failures, retries and changes of
      interval, overlong ones included: each acknowledged window overlaps the one before it by less
      than half of the intervals rounded to in between, and starts at most half of them after the
      next run that the acknowledgement set, or after the last clock that was rounded; where nothing
      was changed it starts exactly at that next run. */
  lemma WindowsJoin(s: Sched, ops: seq<Op>, j: nat)
    requires IntervalChanges.Inv(s, false) && s.lastTime.None? && Rising(0, ops)
    requires s.state.Logged? ==> WholeSecondOps(ops)
    requires 0 < j < |After(Fresh(s), ops).acked|
    ensures Joins(After(Fresh(s), ops).acked[j - 1], After(Fresh(s), ops).acked[j])
  {
    FreshInv(s);
    RunKeepsInv(Fresh(s), ops);
    JoinedAt(After(Fresh(s), ops), j);
  }
}
