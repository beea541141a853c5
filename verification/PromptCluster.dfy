/** Cluster runs in which every write outside the log is followed, in the log, by the epoch of the
    same fault: then a replica can be ahead of its log prefix only by the fault numbered last. */
module PromptCluster {
  import opened Prelude
  import opened AgentState
  import opened Replication

  /** The entry writes the epoch of fault `id` and nothing else. */
  predicate IsEpochOf(e: LogEntry, id: int32) {
    && e.Command? && e.cmd.ty == UPDATE_FAULT && e.cmd.updateFault.Some?
    && var f := e.cmd.updateFault.value;
       f.faultId == Some(id) && f.faultName == "" && f.sequenceNumber.None? && f.startEpoch.Some?
  }

  /** A leader at the end of the log writes the infos of the fault numbered last, which has none, and
      owes its epoch: the next entry is that one. Installs lose no live fault. */
  ghost predicate Prompt(c: Replicas, step: Step, owed: Option<int32>)
    requires WellFormedLog(c.log) && Enabled(c, step)
  {
    match step
    case Append(e) => owed.Some? ==> IsEpochOf(e, owed.value)
    case Install(_, _) => Careful(c, step)
    case Bypass(n, id) =>
      var t := Replay(FRESH, c.log);
      owed.None? && c.nodes[n].applied == |c.log| && id == t.faultIdx && id !in t.alertInfos
    case _ => true
  }

  function Owed(step: Step, owed: Option<int32>): Option<int32> {
    match step
    case Append(_) => None
    case Bypass(_, id) => Some(id)
    case _ => owed
  }

  ghost predicate PromptRun(c: Replicas, steps: seq<Step>, owed: Option<int32>)
    requires WellFormedLog(c.log) && IsRun(c, steps)
    decreases |steps|
  {
    steps == [] || (Prompt(c, steps[0], owed) && PromptRun(Next(c, steps[0]), steps[1..], Owed(steps[0], owed)))
  }

  function OwedAfter(steps: seq<Step>, owed: Option<int32>): Option<int32>
    decreases |steps|
  {
    if steps == [] then owed else OwedAfter(steps[1..], Owed(steps[0], owed))
  }

  lemma {:induction false} PromptOn(c: Replicas, p: seq<Step>, q: seq<Step>, owed: Option<int32>)
    requires WellFormedLog(c.log) && IsRun(c, p) && IsRun(After(c, p), q) && IsRun(c, p + q)
    requires PromptRun(c, p, owed) && PromptRun(After(c, p), q, OwedAfter(p, owed))
    ensures PromptRun(c, p + q, owed)
    decreases |p|
  {
    if p == [] {
      assert p + q == q;
    } else {
      assert (p + q)[0] == p[0] && (p + q)[1..] == p[1..] + q;
      PromptOn(Next(c, p[0]), p[1..], q, Owed(p[0], owed));
    }
  }

  lemma {:induction false} OwedOn(p: seq<Step>, q: seq<Step>, owed: Option<int32>)
    ensures OwedAfter(p + q, owed) == OwedAfter(q, OwedAfter(p, owed))
    decreases |p|
  {
    if p == [] {
      assert p + q == q;
    } else {
      assert (p + q)[0] == p[0] && (p + q)[1..] == p[1..] + q;
      OwedOn(p[1..], q, Owed(p[0], owed));
    }
  }

  /******* What such runs keep *******/

  /** s is t, or t with the initial infos of its last fault, which t has none for. */
  predicate LastOnly(s: State, t: State) {
    s == t || (t.faultIdx !in t.alertInfos && s == t.InitInfos(t.faultIdx))
  }

  /** A replica at index k is in the state of its prefix, or ahead by its last fault; then the next
      entry is the epoch of that fault, or it is owed. */
  ghost predicate Near(log: seq<LogEntry>, k: nat, s: State, owed: Option<int32>)
    requires WellFormedLog(log)
  {
    && k <= |log| && LastOnly(s, At(log, k))
    && (s != At(log, k) ==>
          if k < |log| then IsEpochOf(log[k], At(log, k).faultIdx) else owed == Some(At(log, k).faultIdx))
  }

  ghost predicate PromptInv(c: Replicas, owed: Option<int32>)
    requires WellFormedLog(c.log)
  {
    && (forall n | 0 <= n < |c.nodes| :: Near(c.log, c.nodes[n].applied, c.nodes[n].state, owed))
    && (forall s | 0 <= s < |c.snaps| :: Near(c.log, c.snaps[s].index, RestoreOver(FRESH, c.snaps[s].snap), owed))
  }

  lemma EpochMakesGood(t: State, e: LogEntry, id: int32)
    requires IsEpochOf(e, id) && id !in t.alertInfos
    ensures ApplyEntry(t.InitInfos(id), e).0 == ApplyEntry(t, e).0
  {}

  lemma NearAppend(log: seq<LogEntry>, e: LogEntry, k: nat, s: State, owed: Option<int32>)
    requires WellFormedLog(log) && WellFormedEntry(e) && Near(log, k, s, owed)
    requires owed.Some? ==> IsEpochOf(e, owed.value)
    ensures WellFormedLog(log + [e]) && Near(log + [e], k, s, None)
  {
    assert (log + [e])[..k] == log[..k];
  }

  lemma NearApply(log: seq<LogEntry>, k: nat, s: State, owed: Option<int32>)
    requires WellFormedLog(log) && Near(log, k, s, owed) && k < |log|
    ensures Near(log, k + 1, ApplyEntry(s, log[k]).0, owed)
  {
    ReplaySnoc(FRESH, log[..k], log[k]);
    assert log[..k + 1] == log[..k] + [log[k]];
    if s != At(log, k) {
      EpochMakesGood(At(log, k), log[k], At(log, k).faultIdx);
    }
  }

  lemma PromptAppend(c: Replicas, e: LogEntry, owed: Option<int32>)
    requires WellFormedLog(c.log) && Enabled(c, Append(e)) && Prompt(c, Append(e), owed) && PromptInv(c, owed)
    ensures PromptInv(Next(c, Append(e)), None)
  {
    forall n | 0 <= n < |c.nodes| ensures Near(c.log + [e], c.nodes[n].applied, c.nodes[n].state, None) {
      NearAppend(c.log, e, c.nodes[n].applied, c.nodes[n].state, owed);
    }
    forall s | 0 <= s < |c.snaps|
      ensures Near(c.log + [e], c.snaps[s].index, RestoreOver(FRESH, c.snaps[s].snap), None)
    {
      NearAppend(c.log, e, c.snaps[s].index, RestoreOver(FRESH, c.snaps[s].snap), owed);
    }
  }

  lemma PromptBypass(c: Replicas, n: nat, id: int32)
    requires WellFormedLog(c.log) && Enabled(c, Bypass(n, id)) && Prompt(c, Bypass(n, id), None) && PromptInv(c, None)
    ensures PromptInv(Next(c, Bypass(n, id)), Some(id))
  {
    assert c.log[..|c.log|] == c.log;
    assert Near(c.log, c.nodes[n].applied, c.nodes[n].state, None);
  }

  lemma PromptStep(c: Replicas, step: Step, owed: Option<int32>)
    requires WellFormedLog(c.log) && Enabled(c, step) && Prompt(c, step, owed) && PromptInv(c, owed)
    ensures PromptInv(Next(c, step), Owed(step, owed))
  {
    match step {
      case Append(e) => PromptAppend(c, e, owed);
      case ApplyNext(n) => NearApply(c.log, c.nodes[n].applied, c.nodes[n].state, owed);
      case Snap(n) => RestoreFresh(c.nodes[n].state);
      case Reset(n) =>
      case Restart(n, s) =>
      case Install(n, s) => CoveredRestore(c.nodes[n].state, c.snaps[s].snap);
      case Bypass(n, id) => PromptBypass(c, n, id);
    }
  }

  lemma {:induction false} PromptKeeps(c: Replicas, steps: seq<Step>, owed: Option<int32>)
    requires WellFormedLog(c.log) && IsRun(c, steps) && PromptRun(c, steps, owed) && PromptInv(c, owed)
    ensures PromptInv(After(c, steps), OwedAfter(steps, owed))
    decreases |steps|
  {
    if steps != [] {
      PromptStep(c, steps[0], owed);
      PromptKeeps(Next(c, steps[0]), steps[1..], Owed(steps[0], owed));
    }
  }

  /** In every prompt run each replica holds the state of the log prefix that it has applied, or that
      with the initial infos of the one fault numbered last in it; in that case the next entry of the
      log, if there is one, is the epoch that makes it good. */
  lemma AheadByTheLast(c: Replicas, steps: seq<Step>, n: nat)
    requires Initial(c) && IsRun(c, steps) && PromptRun(c, steps, None) && n < |After(c, steps).nodes|
    ensures var d := After(c, steps);
            var k, s := d.nodes[n].applied, d.nodes[n].state;
            && k <= |d.log| && LastOnly(s, At(d.log, k))
            && (k < |d.log| && s != At(d.log, k) ==> IsEpochOf(d.log[k], At(d.log, k).faultIdx))
  {
    forall i | 0 <= i < |c.nodes| ensures c.nodes[i] == Node(0, FRESH) { assert c.nodes[i] in c.nodes; }
    PromptKeeps(c, steps, None);
    var d := After(c, steps);
    assert Near(d.log, d.nodes[n].applied, d.nodes[n].state, OwedAfter(steps, None));
  }
}
