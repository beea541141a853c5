/** The fault manager at work on the leader of a cluster: its writes, in and outside the log, mixed
    in any order with what the other replicas do, make a run in which the replicas agree. */
module ManagedCluster {
  import opened Prelude
  import opened AgentState
  import opened FaultManager
  import opened FaultRuns
  import opened FaultConvergence
  import opened Replication
  import opened PromptCluster

  /******* What the manager does to the cluster, with node 0 as the leader *******/

  function WriteSteps(cmd: StateCmd): seq<Step> { [Append(Command(cmd)), ApplyNext(0)] }

  const NEXT_INDEX := StateCmd(INCREMENT_FAULT_IDX, None, None, None)

  function NameCmd(name: string, id: int32): StateCmd { FaultCmd(FaultFields(Some(id), name, None, None)) }

  function EpochCmd(id: int32, epoch: int64): StateCmd { FaultCmd(FaultFields(Some(id), "", None, Some(epoch))) }

  /** The writes of a new fault: index, name, the infos outside the log, epoch. */
  function NewSteps(name: string, id: int32, epoch: int64): seq<Step> {
    (WriteSteps(NEXT_INDEX) + WriteSteps(NameCmd(name, id))) + ([Bypass(0, id)] + WriteSteps(EpochCmd(id, epoch)))
  }

  /** Alerts that are not new write nothing. */
  function AlertSteps(st: Store, a: Alert): seq<Step>
    requires st.Replicated?
  {
    if a.knownSeverity && !a.resolved && st.FaultInStorage(FaultName(a)) == 0
    then NewSteps(FaultName(a), Inc32(st.leader.faultIdx), a.epoch) else []
  }

  function CommitSteps(c: Commit): seq<Step> {
    match c
    case Increment(id) => WriteSteps(FaultCmd(FaultFields(Some(id), "", Some(1), None)))
    case Delete(name) => WriteSteps(StateCmd(DELETE_FAULT, None, None, Some(name)))
    case _ => []
  }

  function EventSteps(st: Store, ev: Event): seq<Step>
    requires Safe(st) && st.Replicated?
  {
    var (st1, r, c) := AlertToFault(st, ev.alert, ALL_ACKED);
    AlertSteps(st, ev.alert) + if ev.commit && Sent(r) then CommitSteps(c) else []
  }

  /** All steps of the leader for a run of the manager. */
  function Plan(evs: seq<Event>): seq<Step> {
    if evs == [] then [] else
    var st := Run(Replicated(FRESH, []), evs[..|evs| - 1]).0;
    if st.Replicated? then Plan(evs[..|evs| - 1]) + EventSteps(st, evs[|evs| - 1]) else []
  }

  /******* Alone, these steps are careful *******/

  ghost predicate Mirrors(c: Replicas, st: Store) {
    && st.Replicated? && WellFormedLog(st.log) && c.log == st.log
    && |c.nodes| > 0 && c.nodes[0] == Node(|st.log|, st.leader)
  }

  /** The steps are a careful run from c, after which the leader is in the state of the store. */
  ghost predicate Reaches(c: Replicas, steps: seq<Step>, st: Store)
    requires WellFormedLog(c.log)
  {
    IsRun(c, steps) && CarefulRun(c, steps) && Mirrors(After(c, steps), st)
  }

  /** And they are prompt, and owe nothing in the end. */
  ghost predicate LeadsTo(c: Replicas, steps: seq<Step>, st: Store)
    requires WellFormedLog(c.log)
  {
    Reaches(c, steps, st) && PromptRun(c, steps, None) && OwedAfter(steps, None) == None
  }

  lemma {:induction false} RunOn(c: Replicas, p: seq<Step>, q: seq<Step>)
    requires WellFormedLog(c.log) && IsRun(c, p) && IsRun(After(c, p), q)
    ensures IsRun(c, p + q) && After(c, p + q) == After(After(c, p), q)
    decreases |p|
  {
    if p == [] {
      assert p + q == q;
    } else {
      RunOn(Next(c, p[0]), p[1..], q);
      assert (p + q)[0] == p[0] && (p + q)[1..] == p[1..] + q;
    }
  }

  lemma {:induction false} CarefulOn(c: Replicas, p: seq<Step>, q: seq<Step>)
    requires WellFormedLog(c.log) && IsRun(c, p) && IsRun(After(c, p), q) && IsRun(c, p + q)
    requires CarefulRun(c, p) && CarefulRun(After(c, p), q)
    ensures CarefulRun(c, p + q)
    decreases |p|
  {
    if p == [] {
      assert p + q == q;
    } else {
      assert (p + q)[0] == p[0] && (p + q)[1..] == p[1..] + q;
      CarefulOn(Next(c, p[0]), p[1..], q);
    }
  }

  lemma RunConcat(c: Replicas, p: seq<Step>, q: seq<Step>)
    requires WellFormedLog(c.log) && IsRun(c, p) && CarefulRun(c, p)
    requires IsRun(After(c, p), q) && CarefulRun(After(c, p), q)
    ensures IsRun(c, p + q) && CarefulRun(c, p + q) && After(c, p + q) == After(After(c, p), q)
  {
    RunOn(c, p, q);
    CarefulOn(c, p, q);
  }

  lemma Compose(c: Replicas, p: seq<Step>, q: seq<Step>, mid: Store, st: Store)
    requires WellFormedLog(c.log) && LeadsTo(c, p, mid) && LeadsTo(After(c, p), q, st)
    ensures LeadsTo(c, p + q, st)
  {
    RunConcat(c, p, q);
    PromptOn(c, p, q, None);
    OwedOn(p, q, None);
  }

  lemma OneStep(c: Replicas, step: Step)
    requires WellFormedLog(c.log) && Enabled(c, step) && Careful(c, step)
    ensures IsRun(c, [step]) && CarefulRun(c, [step]) && After(c, [step]) == Next(c, step)
  {
    assert [step][1..] == [];
  }

  lemma LoggedWrite(c: Replicas, st: Store, cmd: StateCmd)
    requires WellFormedLog(c.log) && Mirrors(c, st) && WellFormed(cmd)
    requires Timely(Command(cmd), Replay(FRESH, st.log))
    ensures LeadsTo(c, WriteSteps(cmd), st.Append(cmd).0)
  {
    var e := Command(cmd);
    OneStep(c, Append(e));
    var c1 := Next(c, Append(e));
    OneStep(c1, ApplyNext(0));
    RunConcat(c, [Append(e)], [ApplyNext(0)]);
    assert [Append(e)] + [ApplyNext(0)] == WriteSteps(cmd);
    PromptWrite(c, cmd, None);
  }

  lemma PromptWrite(c: Replicas, cmd: StateCmd, owed: Option<int32>)
    requires WellFormedLog(c.log) && IsRun(c, WriteSteps(cmd)) && (owed.Some? ==> IsEpochOf(Command(cmd), owed.value))
    ensures PromptRun(c, WriteSteps(cmd), owed) && OwedAfter(WriteSteps(cmd), owed) == None
  {
    assert WriteSteps(cmd)[1..] == [ApplyNext(0)] && [ApplyNext(0)][1..] == [];
    var c1 := Next(c, Append(Command(cmd)));
    assert PromptRun(c1, [ApplyNext(0)], None) by {
      assert PromptRun(Next(c1, ApplyNext(0)), [], None);
    }
  }

  lemma BypassWrite(c: Replicas, st: Store, id: int32)
    requires WellFormedLog(c.log) && Mirrors(c, st) && id !in Replay(FRESH, st.log).alertInfos
    ensures Reaches(c, [Bypass(0, id)], st.InitInfos(id))
  {
    assert c.log[..|c.log|] == c.log;
    OneStep(c, Bypass(0, id));
  }

  lemma NewFaultSteps(c: Replicas, st: Store, l: Ledger, a: Alert)
    requires WellFormedLog(c.log) && Mirrors(c, st)
    requires InSync(st) && Matches(ViewOf(st), l) && InRange(l, a) && Expected(l, a).status == Stored
    ensures Safe(st) && LeadsTo(c, AlertSteps(st, a), AlertToFault(st, a, ALL_ACKED).0)
  {
    MatchesSafe(st, l);
    StoredForName(st, l, FaultName(a));
    NewIdIsFree(st, l);
    AlertIsFourWrites(st, a);
    FourWrites(c, st, FaultName(a), a.epoch);
  }

  lemma FourWrites(c: Replicas, st: Store, name: string, epoch: int64)
    requires WellFormedLog(c.log) && Mirrors(c, st) && InSync(st) && st.NextFaultIndex().1 !in st.leader.alertInfos
    ensures var (s1, id) := st.NextFaultIndex();
            LeadsTo(c, NewSteps(name, id, epoch), s1.StoreFault(name, id).InitInfos(id).SetStartEpoch(id, epoch))
  {
    var (s1, id) := st.NextFaultIndex();
    var s2 := s1.StoreFault(name, id);
    TwoWrites(st, name);
    assert s2.leader.faultIdx == id;
    TwoLogged(c, st, NEXT_INDEX, NameCmd(name, id));
    var front := WriteSteps(NEXT_INDEX) + WriteSteps(NameCmd(name, id));
    BypassThenEpoch(After(c, front), s2, id, epoch);
    Compose(c, front, [Bypass(0, id)] + WriteSteps(EpochCmd(id, epoch)), s2, s2.InitInfos(id).SetStartEpoch(id, epoch));
  }

  lemma TwoLogged(c: Replicas, st: Store, first: StateCmd, second: StateCmd)
    requires WellFormedLog(c.log) && Mirrors(c, st) && WellFormed(first) && WellFormed(second)
    requires Timely(Command(first), Replay(FRESH, st.log))
    requires forall t :: Timely(Command(second), t)
    ensures LeadsTo(c, WriteSteps(first) + WriteSteps(second), st.Append(first).0.Append(second).0)
  {
    LoggedWrite(c, st, first);
    LoggedWrite(After(c, WriteSteps(first)), st.Append(first).0, second);
    Compose(c, WriteSteps(first), WriteSteps(second), st.Append(first).0, st.Append(first).0.Append(second).0);
  }

  lemma BypassThenEpoch(c: Replicas, st: Store, id: int32, epoch: int64)
    requires WellFormedLog(c.log) && Mirrors(c, st) && InSync(st)
    requires id == st.leader.faultIdx && id !in st.leader.alertInfos
    ensures LeadsTo(c, [Bypass(0, id)] + WriteSteps(EpochCmd(id, epoch)), st.InitInfos(id).SetStartEpoch(id, epoch))
  {
    var p, q := [Bypass(0, id)], WriteSteps(EpochCmd(id, epoch));
    BypassWrite(c, st, id);
    LoggedWrite(After(c, p), st.InitInfos(id), EpochCmd(id, epoch));
    RunConcat(c, p, q);
    PromptWrite(After(c, p), EpochCmd(id, epoch), Some(id));
    PromptBypassStep(c, id);
    PromptOn(c, p, q, None);
    OwedOn(p, q, None);
  }

  lemma PromptBypassStep(c: Replicas, id: int32)
    requires WellFormedLog(c.log) && Enabled(c, Bypass(0, id)) && Prompt(c, Bypass(0, id), None)
    ensures IsRun(c, [Bypass(0, id)]) && PromptRun(c, [Bypass(0, id)], None)
    ensures OwedAfter([Bypass(0, id)], None) == Some(id)
  {
    assert [Bypass(0, id)][1..] == [];
    assert OwedAfter([], Some(id)) == Some(id);
  }

  lemma AlertCareful(c: Replicas, st: Store, l: Ledger, a: Alert)
    requires WellFormedLog(c.log) && Mirrors(c, st) && InSync(st) && Matches(ViewOf(st), l) && InRange(l, a)
    ensures Safe(st) && LeadsTo(c, AlertSteps(st, a), AlertToFault(st, a, ALL_ACKED).0)
  {
    MatchesSafe(st, l);
    StoredForName(st, l, FaultName(a));
    if Expected(l, a).status == Stored {
      NewFaultSteps(c, st, l, a);
    } else {
      AlertKnown(st, a);
      assert AlertSteps(st, a) == [] && PromptRun(c, [], None);
    }
  }

  lemma CommitCareful(c: Replicas, st: Store, commit: Commit)
    requires WellFormedLog(c.log) && Mirrors(c, st) && InSync(st)
    requires commit.Delete? || (commit.Increment? && commit.id in st.leader.alertInfos)
    ensures LeadsTo(c, CommitSteps(commit), RunCommit(st, commit, Acked).0)
  {
    match commit {
      case Increment(id) => LoggedWrite(c, st, FaultCmd(FaultFields(Some(id), "", Some(1), None)));
      case Delete(name) => LoggedWrite(c, st, StateCmd(DELETE_FAULT, None, None, Some(name)));
    }
  }

  lemma EventCareful(c: Replicas, st: Store, l: Ledger, ev: Event)
    requires WellFormedLog(c.log) && Mirrors(c, st) && InSync(st) && Matches(ViewOf(st), l) && InRange(l, ev.alert)
    ensures Safe(st) && LeadsTo(c, EventSteps(st, ev), Handle(st, ev).0)
  {
    AlertCareful(c, st, l, ev.alert);
    AlertKeepsSync(st, l, ev.alert);
    var (st1, r, commit) := AlertToFault(st, ev.alert, ALL_ACKED);
    var steps := AlertSteps(st, ev.alert);
    if ev.commit && Sent(r) {
      CommitCareful(After(c, steps), st1, commit);
      Compose(c, steps, CommitSteps(commit), st1, Handle(st, ev).0);
    } else {
      assert steps + [] == steps;
    }
  }

  lemma {:induction false} PlanCareful(c: Replicas, evs: seq<Event>)
    requires Mirrors(c, Replicated(FRESH, [])) && Stores(Run(Replicated(FRESH, []), evs).1) <= INT32_MAX
    ensures LeadsTo(c, Plan(evs), Run(Replicated(FRESH, []), evs).0)
  {
    if evs != [] {
      var start, init, ev := Replicated(FRESH, []), evs[..|evs| - 1], evs[|evs| - 1];
      var (st, h) := Run(start, init);
      StoresSnoc(h, Entry(ev, Handle(st, ev).1));
      PlanCareful(c, init);
      RunMatches(start, init);
      FollowersConverge(init);
      StepMatches(st, h, ev);
      EventCareful(After(c, Plan(init)), st, LedgerOf(h), ev);
      Compose(c, Plan(init), EventSteps(st, ev), st, Handle(st, ev).0);
    }
  }

  /******* Mixed with what the other replicas do *******/

  /** Steps that are not the leader's; it may be asked for a snapshot. */
  predicate Bystander(step: Step) {
    match step
    case Append(_) => false
    case Bypass(_, _) => false
    case Snap(_) => true
    case ApplyNext(n) => n != 0
    case Reset(n) => n != 0
    case Restart(n, _) => n != 0
    case Install(n, _) => n != 0
  }

  /** The steps take those of the plan in order, perhaps not to its end, and bystanders between. */
  predicate Interleaves(steps: seq<Step>, plan: seq<Step>)
    decreases |steps|
  {
    steps == [] ||
    if Bystander(steps[0]) then Interleaves(steps[1..], plan)
    else plan != [] && steps[0] == plan[0] && Interleaves(steps[1..], plan[1..])
  }

  /** No install meets a live fault that the snapshot lacks. */
  ghost predicate InstallsFit(c: Replicas, steps: seq<Step>)
    requires WellFormedLog(c.log) && IsRun(c, steps)
    decreases |steps|
  {
    steps == [] || ((steps[0].Install? ==> Careful(c, steps[0])) && InstallsFit(Next(c, steps[0]), steps[1..]))
  }

  /** c is a cluster with the log and the leader of the other. */
  ghost predicate Shadows(c: Replicas, solo: Replicas) {
    c.log == solo.log && |c.nodes| > 0 && |solo.nodes| > 0 && c.nodes[0] == solo.nodes[0]
  }

  predicate Leaders(step: Step) { step.Append? || step == ApplyNext(0) || (step.Bypass? && step.n == 0) }

  lemma BystanderStep(c: Replicas, solo: Replicas, step: Step)
    requires WellFormedLog(c.log) && Shadows(c, solo) && Enabled(c, step) && Bystander(step)
    requires step.Install? ==> Careful(c, step)
    ensures Careful(c, step) && Shadows(Next(c, step), solo)
  {}

  lemma LeaderStep(c: Replicas, solo: Replicas, step: Step)
    requires WellFormedLog(c.log) && Shadows(c, solo) && Leaders(step)
    requires Enabled(c, step) && Enabled(solo, step) && Careful(solo, step)
    ensures Careful(c, step) && Shadows(Next(c, step), Next(solo, step))
  {}

  lemma {:induction false} MixCareful(c: Replicas, steps: seq<Step>, solo: Replicas, plan: seq<Step>)
    requires WellFormedLog(c.log) && Shadows(c, solo) && IsRun(c, steps) && InstallsFit(c, steps)
    requires IsRun(solo, plan) && CarefulRun(solo, plan) && Interleaves(steps, plan)
    requires forall step <- plan :: Leaders(step)
    ensures CarefulRun(c, steps)
    decreases |steps|
  {
    if steps != [] {
      if Bystander(steps[0]) {
        BystanderStep(c, solo, steps[0]);
        MixCareful(Next(c, steps[0]), steps[1..], solo, plan);
      } else {
        assert plan[0] in plan;
        LeaderStep(c, solo, steps[0]);
        MixCareful(Next(c, steps[0]), steps[1..], Next(solo, plan[0]), plan[1..]);
      }
    }
  }

  lemma BystanderIsPrompt(c: Replicas, solo: Replicas, step: Step, owed: Option<int32>)
    requires WellFormedLog(c.log) && Shadows(c, solo) && Enabled(c, step) && Bystander(step)
    requires step.Install? ==> Careful(c, step)
    ensures Prompt(c, step, owed) && Owed(step, owed) == owed && Shadows(Next(c, step), solo)
  {}

  lemma LeaderIsPrompt(c: Replicas, solo: Replicas, step: Step, owed: Option<int32>)
    requires WellFormedLog(c.log) && Shadows(c, solo) && Leaders(step)
    requires Enabled(c, step) && Enabled(solo, step) && Prompt(solo, step, owed)
    ensures Prompt(c, step, owed) && Shadows(Next(c, step), Next(solo, step))
  {}

  lemma {:induction false} MixPrompt(
    c: Replicas, steps: seq<Step>, solo: Replicas, plan: seq<Step>, owed: Option<int32>)
    requires WellFormedLog(c.log) && Shadows(c, solo) && IsRun(c, steps) && InstallsFit(c, steps)
    requires IsRun(solo, plan) && PromptRun(solo, plan, owed) && Interleaves(steps, plan)
    requires forall step <- plan :: Leaders(step)
    ensures PromptRun(c, steps, owed)
    decreases |steps|
  {
    if steps != [] {
      if Bystander(steps[0]) {
        BystanderIsPrompt(c, solo, steps[0], owed);
        MixPrompt(Next(c, steps[0]), steps[1..], solo, plan, owed);
      } else {
        assert plan[0] in plan;
        LeaderIsPrompt(c, solo, steps[0], owed);
        MixPrompt(Next(c, steps[0]), steps[1..], Next(solo, plan[0]), plan[1..], Owed(plan[0], owed));
      }
    }
  }

  lemma EventIsLeaders(st: Store, ev: Event)
    requires Safe(st) && st.Replicated?
    ensures forall step <- EventSteps(st, ev) :: Leaders(step)
  {}

  lemma {:induction false} PlanIsLeaders(evs: seq<Event>)
    ensures forall step <- Plan(evs) :: Leaders(step)
  {
    if evs != [] {
      var st := Run(Replicated(FRESH, []), evs[..|evs| - 1]).0;
      PlanIsLeaders(evs[..|evs| - 1]);
      if st.Replicated? {
        EventIsLeaders(st, evs[|evs| - 1]);
      }
    }
  }

  /** Whatever alerts the manager on the leader handles, and however its writes mix with the other
      replicas' applying, snapshots, restarts and fitting installs, even half-way through an alert:
      each replica holds the state of the log prefix that it has applied, or that with the initial
      infos of the one fault numbered last in it, which the next entry of the log makes good;
      replicas at one index differ in nothing else. */
  lemma ManagedReplicasAgree(c: Replicas, evs: seq<Event>, steps: seq<Step>, n: nat, m: nat)
    requires Initial(c) && |c.nodes| > 0 && Stores(Run(Replicated(FRESH, []), evs).1) <= INT32_MAX
    requires IsRun(c, steps) && InstallsFit(c, steps) && Interleaves(steps, Plan(evs))
    requires n < |After(c, steps).nodes| && m < |After(c, steps).nodes|
    ensures var d := After(c, steps);
            var k, s := d.nodes[n].applied, d.nodes[n].state;
            && k <= |d.log| && LastOnly(s, At(d.log, k)) && Ahead(s, At(d.log, k), d.bypassed)
            && (k < |d.log| && s != At(d.log, k) ==> IsEpochOf(d.log[k], At(d.log, k).faultIdx))
            && (k == d.nodes[m].applied ==>
                  && s.(alertInfos := d.nodes[m].state.alertInfos) == d.nodes[m].state
                  && forall id :: id in At(d.log, k).alertInfos || id !in d.bypassed || id != At(d.log, k).faultIdx ==>
                       InfosOf(s, id) == InfosOf(d.nodes[m].state, id))
  {
    assert c.nodes[0] in c.nodes;
    PlanCareful(c, evs);
    PlanIsLeaders(evs);
    MixCareful(c, steps, c, Plan(evs));
    MixPrompt(c, steps, c, Plan(evs), None);
    ReplicasAgree(c, steps, n, m);
    AheadByTheLast(c, steps, n);
    AheadByTheLast(c, steps, m);
    var d := After(c, steps);
    if d.nodes[n].applied == d.nodes[m].applied {
      SameButTheLast(d.nodes[n].state, d.nodes[m].state, At(d.log, d.nodes[n].applied));
    }
  }

  lemma SameButTheLast(s: State, r: State, t: State)
    requires LastOnly(s, t) && LastOnly(r, t)
    ensures forall id :: id != t.faultIdx ==> InfosOf(s, id) == InfosOf(r, id)
  {}

  /** And taken to its end, the plan brings the leader where the manager's store is, in step with a
      follower that applies only the log. */
  lemma PlanEndsInSync(c: Replicas, evs: seq<Event>)
    requires Initial(c) && |c.nodes| > 0 && Stores(Run(Replicated(FRESH, []), evs).1) <= INT32_MAX
    ensures IsRun(c, Plan(evs))
    ensures var d, st := After(c, Plan(evs)), Run(Replicated(FRESH, []), evs).0;
            Mirrors(d, st) && st.leader == Replay(FRESH, d.log)
  {
    assert c.nodes[0] in c.nodes;
    PlanCareful(c, evs);
    FollowersConverge(evs);
  }
}
