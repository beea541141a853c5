/** The leader initialises a fault's infos outside the log; followers only see the log. */
module FaultConvergence {
  import opened Prelude
  import opened AgentState
  import opened FaultManager
  import opened FaultRuns
  import opened Replication

  /** A follower that has applied the whole log is in the leader's state, and the log is one for
      which the replicas of a cluster agree. */
  ghost predicate InSync(st: Store) {
    st.Replicated? && WellFormedLog(st.log) && TimelyLog(st.log) && st.leader == Replay(FRESH, st.log)
  }

  lemma AppendInSync(st: Store, cmd: StateCmd)
    requires InSync(st) && WellFormed(cmd) && Timely(Command(cmd), st.leader)
    ensures InSync(st.Append(cmd).0)
  {
    ReplaySnoc(FRESH, st.log, Command(cmd));
    AppendKeepsTimely(st.log, Command(cmd));
  }

  /** The write outside the log is undone by the next logged one exactly when the follower
      has no infos for the id, or has them still at the first sequence number. */
  lemma BypassExactness(f: State, id: int32, epoch: int64)
    ensures f.InitInfos(id).SetStartEpoch(id, epoch) == f.SetStartEpoch(id, epoch)
            <==> (id in f.alertInfos ==> f.alertInfos[id].sequence == 1)
  {
    var a, b := f.InitInfos(id).SetStartEpoch(id, epoch), f.SetStartEpoch(id, epoch);
    assert a.alertInfos[id] == AlertInfos(1, epoch);
    if id in f.alertInfos ==> f.alertInfos[id].sequence == 1 {
      assert a.alertInfos == b.alertInfos;
    }
  }

  /** The index and the name. */
  lemma TwoWrites(st: Store, name: string)
    requires InSync(st)
    ensures var (s1, id) := st.NextFaultIndex();
            var s2 := s1.StoreFault(name, id);
            InSync(s1) && InSync(s2) && s2.leader.alertInfos == st.leader.alertInfos
  {
    AppendInSync(st, StateCmd(INCREMENT_FAULT_IDX, None, None, None));
    var (s1, id) := st.NextFaultIndex();
    AppendInSync(s1, FaultCmd(FaultFields(Some(id), name, None, None)));
  }

  /** The initial infos, outside the log, and the epoch. */
  lemma EpochWrite(st: Store, id: int32, epoch: int64)
    requires InSync(st) && id !in st.leader.alertInfos
    ensures InSync(st.InitInfos(id).SetStartEpoch(id, epoch))
  {
    var cmd := FaultCmd(FaultFields(Some(id), "", None, Some(epoch)));
    BypassExactness(st.leader, id, epoch);
    AppendInSync(st, cmd);
    assert st.InitInfos(id).SetStartEpoch(id, epoch) == st.Append(cmd).0;
  }

  /** With all writes acknowledged, AlertToFault on a new fault is the four writes. */
  lemma AlertIsFourWrites(st: Store, a: Alert)
    requires st.Replicated? && Safe(st) && a.knownSeverity && !a.resolved && st.FaultInStorage(FaultName(a)) == 0
    ensures var (s1, id) := st.NextFaultIndex();
            AlertToFault(st, a, ALL_ACKED).0
            == s1.StoreFault(FaultName(a), id).InitInfos(id).SetStartEpoch(id, a.epoch)
  {}

  /** The new id is one that the store has no infos for. */
  lemma NewIdIsFree(st: Store, l: Ledger)
    requires st.Replicated? && Matches(ViewOf(st), l) && l.stores < INT32_MAX
    ensures st.NextFaultIndex().1 !in st.leader.alertInfos
  {
    assert st.NextFaultIndex().1 == l.stores + 1;
  }

  /** The four writes of a new fault, one by one: in sync after the first two; after the third
      the leader differs from the follower in the infos of the one new id, which the follower
      lacks; in sync again after the fourth, where AlertToFault ends. */
  lemma InBetween(st: Store, l: Ledger, a: Alert)
    requires InSync(st) && Matches(ViewOf(st), l) && InRange(l, a) && Expected(l, a).status == Stored
    ensures Safe(st)
    ensures var (s1, id) := st.NextFaultIndex();
            var s2 := s1.StoreFault(FaultName(a), id);
            var s3 := s2.InitInfos(id);
            var s4 := s3.SetStartEpoch(id, a.epoch);
            && InSync(s1) && InSync(s2) && InSync(s4)
            && s3.log == s2.log && id !in s2.leader.alertInfos
            && s3.leader == s2.leader.(alertInfos := s2.leader.alertInfos[id := AlertInfos(1, 0)])
            && s4 == AlertToFault(st, a, ALL_ACKED).0
  {
    MatchesSafe(st, l);
    StoredForName(st, l, FaultName(a));
    AlertIsFourWrites(st, a);
    TwoWrites(st, FaultName(a));
    NewIdIsFree(st, l);
    var (s1, id) := st.NextFaultIndex();
    EpochWrite(s1.StoreFault(FaultName(a), id), id, a.epoch);
  }

  lemma IncrementKeepsSync(st: Store, id: int32)
    requires InSync(st) && id in st.leader.alertInfos
    ensures InSync(RunCommit(st, Increment(id), Acked).0)
  {
    AppendInSync(st, FaultCmd(FaultFields(Some(id), "", Some(1), None)));
  }

  lemma DeleteKeepsSync(st: Store, name: string)
    requires InSync(st)
    ensures InSync(RunCommit(st, Delete(name), Acked).0)
  {
    AppendInSync(st, StateCmd(DELETE_FAULT, None, None, Some(name)));
  }

  /** AlertToFault ends in sync, with infos for the id that its commit would increment. */
  lemma AlertKeepsSync(st: Store, l: Ledger, a: Alert)
    requires InSync(st) && Matches(ViewOf(st), l) && InRange(l, a)
    ensures Safe(st)
    ensures var (st1, r, c) := AlertToFault(st, a, ALL_ACKED);
            && InSync(st1)
            && (Sent(r) ==> c.Increment? || c.Delete?)
            && (c.Increment? ==> c.id in st1.leader.alertInfos)
  {
    MatchesSafe(st, l);
    StoredForName(st, l, FaultName(a));
    if Expected(l, a).status == Stored {
      InBetween(st, l, a);
      AlertNew(st, a);
    } else {
      AlertKnown(st, a);
    }
  }

  /** An alert for a fault that is there, or a clear, writes nothing. */
  lemma AlertKnown(st: Store, a: Alert)
    requires Safe(st) && (a.knownSeverity && !a.resolved ==> st.FaultInStorage(FaultName(a)) != 0)
    ensures var (st1, r, c) := AlertToFault(st, a, ALL_ACKED);
            && st1 == st
            && (Sent(r) ==> c.Increment? || c.Delete?)
            && (c.Increment? ==> c.id == st.FaultInStorage(FaultName(a)) != 0)
  {}

  lemma EventKeepsSync(st: Store, l: Ledger, ev: Event)
    requires InSync(st) && Matches(ViewOf(st), l) && InRange(l, ev.alert)
    ensures Safe(st) && InSync(Handle(st, ev).0)
  {
    AlertKeepsSync(st, l, ev.alert);
    var (st1, r, c) := AlertToFault(st, ev.alert, ALL_ACKED);
    if c.Increment? {
      IncrementKeepsSync(st1, c.id);
    } else if c.Delete? {
      DeleteKeepsSync(st1, c.name);
    }
  }

  /** In every run of alerts and commits on the leader, a follower that applies only the log
      equals the leader after each completed operation; the log is timely, as ReplicasAgree asks. */
  lemma {:induction false} FollowersConverge(evs: seq<Event>)
    requires Stores(Run(Replicated(FRESH, []), evs).1) <= INT32_MAX
    ensures InSync(Run(Replicated(FRESH, []), evs).0)
  {
    if evs != [] {
      var init, ev := evs[..|evs| - 1], evs[|evs| - 1];
      var (st, h) := Run(Replicated(FRESH, []), init);
      StoresSnoc(h, Entry(ev, Handle(st, ev).1));
      FollowersConverge(init);
      RunMatches(Replicated(FRESH, []), init);
      StepMatches(st, h, ev);
      EventKeepsSync(st, LedgerOf(h), ev);
    }
  }
}
