/** Runs in which writes through the log fail: what a leader that also writes outside the log
    and a follower fed by the log still have in common, and which faults are left without infos. */
module LostWrites {
  import opened Prelude
  import opened AgentState
  import opened FaultManager
  import opened FaultRuns
  import opened Replication

  /** One alert, the fates of its writes, and the fate of its commit if it is called. */
  datatype Trial = Trial(alert: Alert, fates: Fates, commit: Option<Fate>)

  function Try(st: Store, ev: Trial): (Store, Result)
    requires st.Replicated?
    ensures Try(st, ev).0.Replicated?
  {
    var (st1, r, c) := AlertToFault(st, ev.alert, ev.fates);
    if ev.commit.Some? && Sent(r) then (RunCommit(st1, c, ev.commit.value).0, r) else (st1, r)
  }

  predicate IsNew(st: Store, a: Alert) {
    a.knownSeverity && !a.resolved && st.FaultInStorage(FaultName(a)) == 0
  }

  predicate Clears(st: Store, ev: Trial) {
    && ev.alert.knownSeverity && ev.alert.resolved && st.FaultInStorage(FaultName(ev.alert)) != 0
    && ev.commit.Some? && ev.commit.value != Refused
  }

  /** The ids that the leader has infos for and the follower has not: of new faults whose epoch
      was refused, until they are cleared. */
  function LostAfter(st: Store, ev: Trial, lost: set<int32>): set<int32>
    requires st.Replicated?
  {
    if IsNew(st, ev.alert) && ev.fates == Fates(Acked, Acked, Refused) then lost + {Inc32(st.leader.faultIdx)}
    else if Clears(st, ev) then lost - {st.FaultInStorage(FaultName(ev.alert))}
    else lost
  }

  /** The leader s and a follower t differ exactly in the infos of the lost ids. */
  predicate Lags(s: State, t: State, lost: set<int32>) {
    && s.(alertInfos := t.alertInfos) == t
    && s.alertInfos.Keys == t.alertInfos.Keys + lost && lost !! t.alertInfos.Keys
    && (forall id <- t.alertInfos :: s.alertInfos[id] == t.alertInfos[id])
    && (forall id <- s.alertInfos :: 1 <= id <= s.faultIdx)
    && 0 <= s.faultIdx
  }

  ghost predicate Apart(st: Store, lost: set<int32>) {
    st.Replicated? && WellFormedLog(st.log) && Lags(st.leader, Replay(FRESH, st.log), lost)
  }

  lemma LagsDelete(s: State, t: State, lost: set<int32>, name: string)
    requires Lags(s, t, lost) && name in s.storage
    ensures Lags(s.DeleteFault(name), t.DeleteFault(name), lost - {s.storage[name]})
  {}

  lemma LagsIncrement(s: State, t: State, lost: set<int32>, id: int32)
    requires Lags(s, t, lost)
    ensures Lags(if id in s.alertInfos then s.IncrementSn(id).value else s,
                 if id in t.alertInfos then t.IncrementSn(id).value else t, lost)
  {}

  lemma LagsNew(s: State, t: State, lost: set<int32>, id: int32, epoch: int64)
    requires Lags(s, t, lost) && id !in s.alertInfos && 1 <= id <= s.faultIdx
    ensures Lags(s.InitInfos(id), t, lost + {id})
    ensures Lags(s.InitInfos(id).SetStartEpoch(id, epoch), t.SetStartEpoch(id, epoch), lost)
  {}

  lemma ApartAppend(st: Store, cmd: StateCmd, lost: set<int32>)
    requires st.Replicated? && WellFormedLog(st.log) && WellFormed(cmd)
    requires Lags(Process(st.leader, cmd).0, Process(Replay(FRESH, st.log), cmd).0, lost)
    ensures Apart(st.Append(cmd).0, lost)
  {
    ReplaySnoc(FRESH, st.log, Command(cmd));
  }

  lemma IndexApart(st: Store, lost: set<int32>)
    requires Apart(st, lost) && st.leader.faultIdx < INT32_MAX
    ensures var (st1, id) := st.NextFaultIndex();
            Apart(st1, lost) && id == st.leader.faultIdx + 1 == st1.leader.faultIdx && id !in st1.leader.alertInfos
  {
    ApartAppend(st, StateCmd(INCREMENT_FAULT_IDX, None, None, None), lost);
  }

  lemma NameApart(st: Store, name: string, id: int32, lost: set<int32>)
    requires Apart(st, lost)
    ensures var st1 := st.StoreFault(name, id);
            && Apart(st1, lost)
            && st1.leader.faultIdx == st.leader.faultIdx && st1.leader.alertInfos == st.leader.alertInfos
  {
    ApartAppend(st, FaultCmd(FaultFields(Some(id), name, None, None)), lost);
  }

  lemma RegisterByFates(st: Store, name: string, f: Fates)
    requires st.Replicated?
    ensures var (st1, id) := st.NextFaultIndex();
            Register(st, name, f) ==
            if f.index == Refused then (st, false, 0)
            else if f.index == Unheard then (st1, false, 0)
            else if f.name == Refused then (st1, false, id)
            else (st1.StoreFault(name, id), f.name == Acked, id)
  {}

  lemma RegisterApart(st: Store, name: string, f: Fates, lost: set<int32>)
    requires Apart(st, lost) && st.leader.faultIdx < INT32_MAX
    ensures Apart(Register(st, name, f).0, lost)
    ensures Register(st, name, f).1 <==> f.index == Acked && f.name == Acked
  {
    RegisterByFates(st, name, f);
    IndexApart(st, lost);
    var (st1, id) := st.NextFaultIndex();
    NameApart(st1, name, id, lost);
  }

  lemma RegisterNumbers(st: Store, name: string, f: Fates, lost: set<int32>)
    requires Apart(st, lost) && st.leader.faultIdx < INT32_MAX && Register(st, name, f).1
    ensures var (st1, _, id) := Register(st, name, f);
            id == st.leader.faultIdx + 1 == st1.leader.faultIdx && id !in st1.leader.alertInfos
  {
    RegisterByFates(st, name, f);
    IndexApart(st, lost);
    var (st1, id) := st.NextFaultIndex();
    NameApart(st1, name, id, lost);
  }

  /** A new fault, by whether its index and its name are acknowledged. */
  lemma NewByRegister(st: Store, a: Alert, f: Fates)
    requires st.Replicated? && IsNew(st, a)
    ensures var (st1, ok, id) := Register(st, FaultName(a), f);
            var st2 := st1.InitInfos(id);
            AlertToFault(st, a, f).0 == if ok then st2.Write(st2.SetStartEpoch(id, a.epoch), f.epoch).0 else st1
  {}

  lemma RaiseApart(st: Store, a: Alert, f: Fates, lost: set<int32>)
    requires Apart(st, lost) && IsNew(st, a) && st.leader.faultIdx < INT32_MAX
    ensures var lost1 := if f == Fates(Acked, Acked, Refused) then lost + {Inc32(st.leader.faultIdx)} else lost;
            Apart(AlertToFault(st, a, f).0, lost1)
  {
    NewByRegister(st, a, f);
    RegisterApart(st, FaultName(a), f, lost);
    var (st1, ok, id) := Register(st, FaultName(a), f);
    if ok {
      RegisterNumbers(st, FaultName(a), f, lost);
      EpochApart(st1, id, a.epoch, f.epoch, lost);
      assert id == Inc32(st.leader.faultIdx);
    }
  }

  /** The write outside the log, and the logged one that makes it good unless it is refused. */
  lemma EpochApart(st: Store, id: int32, epoch: int64, f: Fate, lost: set<int32>)
    requires Apart(st, lost) && id !in st.leader.alertInfos && 1 <= id <= st.leader.faultIdx
    ensures var st1 := st.InitInfos(id);
            Apart(st1.Write(st1.SetStartEpoch(id, epoch), f).0, if f == Refused then lost + {id} else lost)
  {
    LagsNew(st.leader, Replay(FRESH, st.log), lost, id, epoch);
    ApartAppend(st.InitInfos(id), FaultCmd(FaultFields(Some(id), "", None, Some(epoch))), lost);
  }

  lemma IncrementApart(st: Store, id: int32, f: Fate, lost: set<int32>)
    requires Apart(st, lost)
    ensures Apart(RunCommit(st, Increment(id), f).0, lost)
  {
    LagsIncrement(st.leader, Replay(FRESH, st.log), lost, id);
    ApartAppend(st, FaultCmd(FaultFields(Some(id), "", Some(1), None)), lost);
  }

  lemma DeleteApart(st: Store, name: string, f: Fate, lost: set<int32>)
    requires Apart(st, lost) && name in st.Names()
    ensures Apart(RunCommit(st, Delete(name), f).0, if f == Refused then lost else lost - {st.Names()[name]})
  {
    LagsDelete(st.leader, Replay(FRESH, st.log), lost, name);
    ApartAppend(st, StateCmd(DELETE_FAULT, None, None, Some(name)), lost - {st.Names()[name]});
  }

  /** An alert that is not new writes nothing, and its commit is for the fault that is there. */
  lemma KnownAlert(st: Store, a: Alert, f: Fates)
    requires st.Replicated? && !IsNew(st, a)
    ensures var (st1, r, c) := AlertToFault(st, a, f);
            && st1 == st
            && (Sent(r) ==> FaultName(a) in st.Names() && (c.Increment? || c == Delete(FaultName(a))))
            && (Sent(r) && c.Delete? <==>
                  a.knownSeverity && a.resolved && st.FaultInStorage(FaultName(a)) != 0)
  {}

  lemma KnownApart(st: Store, ev: Trial, lost: set<int32>)
    requires Apart(st, lost) && !IsNew(st, ev.alert)
    ensures Apart(Try(st, ev).0, LostAfter(st, ev, lost))
  {
    KnownAlert(st, ev.alert, ev.fates);
    var (st1, r, c) := AlertToFault(st, ev.alert, ev.fates);
    if ev.commit.Some? && Sent(r) {
      if c.Increment? {
        IncrementApart(st, c.id, ev.commit.value, lost);
      } else {
        DeleteApart(st, c.name, ev.commit.value, lost);
      }
    }
  }

  lemma NewApart(st: Store, ev: Trial, lost: set<int32>)
    requires Apart(st, lost) && IsNew(st, ev.alert) && st.leader.faultIdx < INT32_MAX
    ensures Apart(Try(st, ev).0, LostAfter(st, ev, lost))
  {
    RaiseApart(st, ev.alert, ev.fates, lost);
    var (st1, r, c) := AlertToFault(st, ev.alert, ev.fates);
    if ev.commit.Some? && Sent(r) {
      IncrementApart(st1, c.id, ev.commit.value, lost);
    }
  }

  lemma TryApart(st: Store, ev: Trial, lost: set<int32>)
    requires Apart(st, lost) && (IsNew(st, ev.alert) ==> st.leader.faultIdx < INT32_MAX)
    ensures Apart(Try(st, ev).0, LostAfter(st, ev, lost))
  {
    if IsNew(st, ev.alert) {
      NewApart(st, ev, lost);
    } else {
      KnownApart(st, ev, lost);
    }
  }

  /******* Faults without infos *******/

  /** The ids of stored faults that the leader has no infos for: of those whose name was committed
      unheard, until they are cleared. */
  function BareAfter(st: Store, ev: Trial, bare: set<int32>): set<int32>
    requires st.Replicated?
  {
    if IsNew(st, ev.alert) && ev.fates.index == Acked && ev.fates.name == Unheard
    then bare + {Inc32(st.leader.faultIdx)}
    else if Clears(st, ev) then bare - {st.FaultInStorage(FaultName(ev.alert))}
    else bare
  }

  /** Names have different ids, all given out, and exactly the bare ones have no infos. */
  predicate BareIn(s: State, bare: set<int32>) {
    && (forall n <- s.storage :: 1 <= s.storage[n] <= s.faultIdx)
    && (forall n <- s.storage, m <- s.storage :: s.storage[n] == s.storage[m] ==> n == m)
    && (forall n <- s.storage :: s.storage[n] !in s.alertInfos <==> s.storage[n] in bare)
    && (forall id <- s.alertInfos :: id <= s.faultIdx)
    && (forall id <- bare :: id <= s.faultIdx)
  }

  lemma BareNumbered(s: State, bare: set<int32>)
    requires BareIn(s, bare) && s.faultIdx < INT32_MAX
    ensures BareIn(s.(faultIdx := s.faultIdx + 1), bare)
    ensures s.faultIdx + 1 !in bare && s.faultIdx + 1 !in s.alertInfos
    ensures forall n <- s.storage :: s.storage[n] != s.faultIdx + 1
  {}

  lemma BareNamed(s: State, bare: set<int32>, name: string, id: int32)
    requires BareIn(s, bare) && name !in s.storage && 1 <= id <= s.faultIdx && id !in s.alertInfos
    requires forall n <- s.storage :: s.storage[n] != id
    ensures BareIn(s.StoreFault(name, id), bare + {id})
  {}

  lemma BareInit(s: State, bare: set<int32>, id: int32)
    requires BareIn(s, bare + {id}) && id !in bare
    ensures BareIn(s.InitInfos(id), bare)
  {}

  lemma BareEpoch(s: State, bare: set<int32>, id: int32, epoch: int64)
    requires BareIn(s, bare) && id in s.alertInfos
    ensures BareIn(s.SetStartEpoch(id, epoch), bare)
  {}

  lemma BareIncrement(s: State, bare: set<int32>, id: int32)
    requires BareIn(s, bare)
    ensures BareIn(if id in s.alertInfos then s.IncrementSn(id).value else s, bare)
  {}

  lemma BareDelete(s: State, bare: set<int32>, name: string)
    requires BareIn(s, bare) && name in s.storage
    ensures BareIn(s.DeleteFault(name), bare - {s.storage[name]})
  {}

  /** The leader after the writes of a new fault. */
  lemma RaisedLeader(st: Store, a: Alert, f: Fates)
    requires st.Replicated? && IsNew(st, a) && 0 <= st.leader.faultIdx < INT32_MAX
    ensures var s, id := st.leader, st.leader.faultIdx + 1;
            var named := s.(faultIdx := id).StoreFault(FaultName(a), id);
            AlertToFault(st, a, f).0.leader ==
            if f.index == Refused then s
            else if f.index == Unheard || f.name == Refused then s.(faultIdx := id)
            else if f.name == Unheard then named
            else if f.epoch == Refused then named.InitInfos(id)
            else named.InitInfos(id).SetStartEpoch(id, a.epoch)
  {
    NewByRegister(st, a, f);
    RegisterByFates(st, FaultName(a), f);
  }

  lemma CommitBare(st: Store, id: int32, f: Fate, bare: set<int32>)
    requires st.Replicated? && BareIn(st.leader, bare)
    ensures BareIn(RunCommit(st, Increment(id), f).0.leader, bare)
  {
    BareIncrement(st.leader, bare, id);
  }

  lemma RaisedBare(st: Store, a: Alert, f: Fates, bare: set<int32>)
    requires st.Replicated? && BareIn(st.leader, bare) && IsNew(st, a) && 0 <= st.leader.faultIdx < INT32_MAX
    ensures BareIn(AlertToFault(st, a, f).0.leader,
                   if f.index == Acked && f.name == Unheard then bare + {st.leader.faultIdx + 1} else bare)
  {
    var s, id, name := st.leader, st.leader.faultIdx + 1, FaultName(a);
    RaisedLeader(st, a, f);
    BareNumbered(s, bare);
    var numbered := s.(faultIdx := id);
    assert name !in s.storage;
    BareNamed(numbered, bare, name, id);
    var named := numbered.StoreFault(name, id);
    BareInit(named, bare, id);
    BareEpoch(named.InitInfos(id), bare, id, a.epoch);
  }

  lemma NewBare(st: Store, ev: Trial, bare: set<int32>)
    requires st.Replicated? && BareIn(st.leader, bare)
    requires IsNew(st, ev.alert) && 0 <= st.leader.faultIdx < INT32_MAX
    ensures BareIn(Try(st, ev).0.leader, BareAfter(st, ev, bare))
  {
    RaisedBare(st, ev.alert, ev.fates, bare);
    var (st1, r, c) := AlertToFault(st, ev.alert, ev.fates);
    if ev.commit.Some? && Sent(r) {
      CommitBare(st1, c.id, ev.commit.value, BareAfter(st, ev, bare));
    }
  }

  lemma KnownBare(st: Store, ev: Trial, bare: set<int32>)
    requires st.Replicated? && BareIn(st.leader, bare) && !IsNew(st, ev.alert)
    ensures BareIn(Try(st, ev).0.leader, BareAfter(st, ev, bare))
  {
    KnownAlert(st, ev.alert, ev.fates);
    var (st1, r, c) := AlertToFault(st, ev.alert, ev.fates);
    if ev.commit.Some? && Sent(r) {
      if c.Increment? {
        CommitBare(st, c.id, ev.commit.value, bare);
      } else {
        BareDelete(st.leader, bare, c.name);
      }
    }
  }

  /******* Whole runs, in which the leader may change *******/

  /** An alert on the leader, or a follower that has applied the whole log becomes the leader. */
  datatype Turn = Alerted(ev: Trial) | Elected

  /** The ids whose infos only the leader has, and the ids of stored faults that it has none for. */
  datatype Gone = Gone(lost: set<int32>, bare: set<int32>)

  ghost predicate Sound(st: Store) { st.Replicated? && WellFormedLog(st.log) }

  ghost function Elect(st: Store): Store
    requires Sound(st)
  {
    Replicated(Replay(FRESH, st.log), st.log)
  }

  ghost function Take(st: Store, t: Turn): Store
    requires Sound(st)
  {
    match t
    case Alerted(ev) => Try(st, ev).0
    case Elected => Elect(st)
  }

  /** A new leader has only what the log has: of faults with lost infos it has none. */
  ghost function GoneBy(st: Store, t: Turn, g: Gone): Gone
    requires Sound(st)
  {
    match t
    case Alerted(ev) => Gone(LostAfter(st, ev, g.lost), BareAfter(st, ev, g.bare))
    case Elected => Gone({}, g.bare + g.lost)
  }

  predicate HasIndex(st: Store, t: Turn)
    requires st.Replicated?
  {
    t.Alerted? && IsNew(st, t.ev.alert) ==> st.leader.faultIdx < INT32_MAX
  }

  lemma ElectApart(st: Store, g: Gone)
    requires Apart(st, g.lost) && BareIn(st.leader, g.bare)
    ensures Apart(Elect(st), {}) && BareIn(Elect(st).leader, g.bare + g.lost)
  {}

  lemma TakeApart(st: Store, t: Turn, g: Gone)
    requires Apart(st, g.lost) && BareIn(st.leader, g.bare) && HasIndex(st, t)
    ensures Apart(Take(st, t), GoneBy(st, t, g).lost) && BareIn(Take(st, t).leader, GoneBy(st, t, g).bare)
  {
    match t {
      case Alerted(ev) =>
        TryApart(st, ev, g.lost);
        if IsNew(st, ev.alert) {
          NewBare(st, ev, g.bare);
        } else {
          KnownBare(st, ev, g.bare);
        }
      case Elected => ElectApart(st, g);
    }
  }

  /** From st the turns lead to `end` with these ids gone, and no index goes beyond 2^31 - 1. */
  ghost predicate Leads(st: Store, turns: seq<Turn>, g: Gone, end: Store, atEnd: Gone)
    decreases |turns|
  {
    if turns == [] then st == end && g == atEnd
    else
      && Sound(st) && HasIndex(st, turns[0])
      && Leads(Take(st, turns[0]), turns[1..], GoneBy(st, turns[0], g), end, atEnd)
  }

  lemma {:induction false} RunApart(st: Store, turns: seq<Turn>, g: Gone, end: Store, atEnd: Gone)
    requires Apart(st, g.lost) && BareIn(st.leader, g.bare) && Leads(st, turns, g, end, atEnd)
    ensures Apart(end, atEnd.lost) && BareIn(end.leader, atEnd.bare)
    decreases |turns|
  {
    if turns != [] {
      TakeApart(st, turns[0], g);
      RunApart(Take(st, turns[0]), turns[1..], GoneBy(st, turns[0], g), end, atEnd);
    }
  }

  const NOTHING := Gone({}, {})

  /** In every run, whatever writes are refused or committed unheard and whenever the leader
      changes: leader and follower agree on all but the infos of the lost ids, which only the
      leader has; so they are equal exactly when no id is lost. And a stored fault has no infos on
      the leader exactly when its name was committed unheard, or its infos were lost at a change of
      leader, and it has not been cleared since. */
  lemma FailuresLoseInfos(turns: seq<Turn>, st: Store, g: Gone)
    requires Leads(Replicated(FRESH, []), turns, NOTHING, st, g)
    ensures Sound(st)
    ensures Lags(st.leader, Replay(FRESH, st.log), g.lost)
    ensures st.leader == Replay(FRESH, st.log) <==> g.lost == {}
    ensures forall n <- st.Names() :: st.Names()[n] !in st.Infos() <==> st.Names()[n] in g.bare
  {
    RunApart(Replicated(FRESH, []), turns, NOTHING, st, g);
    if g.lost == {} {
      assert st.leader.alertInfos == Replay(FRESH, st.log).alertInfos;
    }
  }

  /** As long as no epoch is refused, leader and follower stay equal, whatever else fails; and as
      long as no name is committed unheard either, every stored fault keeps its infos. */
  lemma {:induction false} NothingLost(st: Store, turns: seq<Turn>, g: Gone, end: Store, atEnd: Gone)
    requires Leads(st, turns, g, end, atEnd) && g.lost == {}
    requires forall t <- turns :: t.Alerted? ==> t.ev.fates.epoch != Refused
    ensures atEnd.lost == {}
    ensures g.bare == {} && (forall t <- turns :: t.Alerted? ==> t.ev.fates.name != Unheard) ==> atEnd.bare == {}
    decreases |turns|
  {
    if turns != [] {
      assert turns[0] in turns && GoneBy(st, turns[0], g).lost == {};
      NothingLost(Take(st, turns[0]), turns[1..], GoneBy(st, turns[0], g), end, atEnd);
    }
  }

  /** For a stored fault without infos an alert is answered with its id, but with sequence and
      epoch 0, and the commit fails and changes nothing. */
  lemma BareFaultAnswers(st: Store, bare: set<int32>, a: Alert, f: Fates)
    requires st.Replicated? && BareIn(st.leader, bare)
    requires FaultName(a) in st.Names() && st.Names()[FaultName(a)] in bare
    requires a.knownSeverity && !a.resolved
    ensures var (st1, r, c) := AlertToFault(st, a, f);
            && st1 == st && r == Result(AlreadyExist, st.Names()[FaultName(a)], 0, 0) && c == Increment(r.id)
            && !RunCommit(st1, c, Acked).1 && RunCommit(st1, c, Acked).0.leader == st1.leader
  {}

  /** So does a new leader for a fault whose epoch was lost; the old leader had both. */
  lemma LostFaultAfterElection(st: Store, g: Gone, a: Alert, f: Fates)
    requires Apart(st, g.lost) && BareIn(st.leader, g.bare)
    requires FaultName(a) in st.Names() && st.Names()[FaultName(a)] in g.lost && a.knownSeverity && !a.resolved
    ensures var id, infos := st.Names()[FaultName(a)], st.Infos()[st.Names()[FaultName(a)]];
            && AlertToFault(st, a, f).1 == Result(AlreadyExist, id, infos.sequence, infos.startEpoch)
            && var (st1, r, c) := AlertToFault(Elect(st), a, f);
               && st1 == Elect(st) && r == Result(AlreadyExist, id, 0, 0) && c == Increment(id)
               && !RunCommit(st1, c, Acked).1 && RunCommit(st1, c, Acked).0.leader == st1.leader
  {
    ElectApart(st, g);
    BareFaultAnswers(Elect(st), g.bare + g.lost, a, f);
  }
}
