/** Replicas of the agent state: each applies a prefix of one committed log, may restart from
    a snapshot, and may have a snapshot installed over its live state.
    Raft itself (who appends, which entries are committed) is taken as a growing list. */
module Replication {
  import opened Prelude
  import opened AgentState

  /******* Replaying a log *******/

  function Replay(s: State, log: seq<LogEntry>): State
    requires WellFormedLog(log)
  {
    if log == [] then s
    else ApplyEntry(Replay(s, log[..|log| - 1]), log[|log| - 1]).0
  }

  function Responses(s: State, log: seq<LogEntry>): seq<Response>
    requires WellFormedLog(log)
  {
    if log == [] then []
    else Responses(s, log[..|log| - 1]) + [ApplyEntry(Replay(s, log[..|log| - 1]), log[|log| - 1]).1]
  }

  lemma {:induction false} ReplayConcat(s: State, a: seq<LogEntry>, b: seq<LogEntry>)
    requires WellFormedLog(a) && WellFormedLog(b)
    ensures WellFormedLog(a + b)
    ensures Replay(s, a + b) == Replay(Replay(s, a), b)
    ensures Responses(s, a + b) == Responses(s, a) + Responses(Replay(s, a), b)
  {
    if b == [] {
      assert a + b == a;
    } else {
      var init := b[..|b| - 1];
      ReplayConcat(s, a, init);
      assert (a + b)[..|a + b| - 1] == a + init;
    }
  }

  lemma ReplaySnoc(s: State, log: seq<LogEntry>, e: LogEntry)
    requires WellFormedLog(log) && WellFormedEntry(e)
    ensures WellFormedLog(log + [e])
    ensures Replay(s, log + [e]) == ApplyEntry(Replay(s, log), e).0
  {
    assert (log + [e])[..|log|] == log;
  }

  /** The state after the first k entries. */
  function At(log: seq<LogEntry>, k: nat): State
    requires WellFormedLog(log) && k <= |log|
  {
    Replay(FRESH, log[..k])
  }

  /******* Log compaction *******/

  /** Restoring another state's snapshot reproduces that state exactly when the node
      holds no fault name and no fault id that the snapshot lacks. */
  lemma RestoreExactness(s: State, t: State)
    ensures RestoreOver(s, TakeSnapshot(t)) == t <==> Covers(s, t)
  {
    var r := RestoreOver(s, TakeSnapshot(t));
    if Covers(s, t) {
      assert r.storage == t.storage && r.alertInfos == t.alertInfos;
    }
    assert r.storage.Keys == s.storage.Keys + t.storage.Keys;
    assert r.alertInfos.Keys == s.alertInfos.Keys + t.alertInfos.Keys;
  }

  predicate Covers(s: State, t: State) {
    s.storage.Keys <= t.storage.Keys && s.alertInfos.Keys <= t.alertInfos.Keys
  }

  lemma RestoreFresh(s: State)
    ensures RestoreOver(FRESH, TakeSnapshot(s)) == s
  {
    RestoreExactness(FRESH, s);
  }

  /** Cutting the log anywhere and keeping only the snapshot of the cut-off part changes
      neither the state nor the answer to any later command, failed ones included. */
  lemma CompactionPreservesMeaning(log: seq<LogEntry>, k: nat)
    requires WellFormedLog(log) && k <= |log|
    ensures WellFormedLog(log[..k]) && WellFormedLog(log[k..])
    ensures var node := RestoreOver(FRESH, TakeSnapshot(Replay(FRESH, log[..k])));
            && Replay(node, log[k..]) == Replay(FRESH, log)
            && Responses(FRESH, log) == Responses(FRESH, log[..k]) + Responses(node, log[k..])
  {
    var prefix, suffix := log[..k], log[k..];
    assert log == prefix + suffix;
    ReplayConcat(FRESH, prefix, suffix);
    RestoreFresh(Replay(FRESH, prefix));
  }

  /******* A lagging node *******/

  predicate Deletes(e: LogEntry) { e.Command? && e.cmd.ty == DELETE_FAULT }

  lemma {:induction false} FaultsOnlyGrow(s: State, log: seq<LogEntry>)
    requires WellFormedLog(log)
    requires forall e <- log :: !Deletes(e)
    ensures Covers(s, Replay(s, log))
  {
    if log != [] {
      FaultsOnlyGrow(s, log[..|log| - 1]);
      assert log[|log| - 1] in log;
    }
  }

  /** A node that has applied p entries and receives the snapshot of q entries over its live
      state ends in q's state if no fault was deleted in between. */
  lemma LaggingNodeCatchesUp(log: seq<LogEntry>, p: nat, q: nat)
    requires WellFormedLog(log) && p <= q <= |log|
    requires forall e <- log[p..q] :: !Deletes(e)
    ensures WellFormedLog(log[..p]) && WellFormedLog(log[..q])
    ensures RestoreOver(Replay(FRESH, log[..p]), TakeSnapshot(Replay(FRESH, log[..q]))) == Replay(FRESH, log[..q])
  {
    ReplayConcat(FRESH, log[..p], log[p..q]);
    assert log[..q] == log[..p] + log[p..q];
    FaultsOnlyGrow(Replay(FRESH, log[..p]), log[p..q]);
    RestoreExactness(Replay(FRESH, log[..p]), Replay(FRESH, log[..q]));
  }

  /** A fault that the node holds at p and that is gone at q comes back on the lagging node, and
      with it the infos of its id. */
  lemma DeletedFaultSurvives(log: seq<LogEntry>, p: nat, q: nat, name: string)
    requires WellFormedLog(log) && p <= q <= |log|
    requires name in At(log, p).storage && name !in At(log, q).storage
    ensures var id := At(log, p).storage[name];
            var late := RestoreOver(At(log, p), TakeSnapshot(At(log, q)));
            && late != At(log, q) && name in late.storage && late.storage[name] == id
            && (id in At(log, p).alertInfos && id !in At(log, q).alertInfos ==>
                  id in late.alertInfos && late.alertInfos[id] == At(log, p).alertInfos[id])
  {
    RestoreExactness(At(log, p), At(log, q));
  }

  const RAISE_LINK := Command(StateCmd(UPDATE_FAULT, None, Some(FaultFields(Some(1), "link", None, Some(7))), None))
  const CLEAR_LINK := Command(StateCmd(DELETE_FAULT, None, None, Some("link")))

  /** There is such a log: raised with an epoch, snapshot missed, deleted. */
  lemma SurvivingFault()
    ensures var log := [RAISE_LINK, CLEAR_LINK];
            && WellFormedLog(log)
            && At(log, 2).storage == map[] && At(log, 2).alertInfos == map[]
            && var late := RestoreOver(At(log, 1), TakeSnapshot(At(log, 2)));
               late.FaultInStorage("link") == 1 && late.FaultStartEpoch(1) == 7
  {
    var log := [RAISE_LINK, CLEAR_LINK];
    ReplaySnoc(FRESH, [], RAISE_LINK);
    ReplaySnoc(FRESH, [RAISE_LINK], CLEAR_LINK);
    assert [] + [RAISE_LINK] == [RAISE_LINK] == log[..1] && [RAISE_LINK] + [CLEAR_LINK] == log == log[..2];
    var raised := FRESH.(storage := map["link" := 1], alertInfos := map[1 := AlertInfos(1, 7)]);
    assert At(log, 1) == raised;
    assert At(log, 2) == raised.DeleteFault("link");
  }

  /******* Whole runs of a cluster *******/

  datatype Node = Node(applied: nat, state: State)

  datatype StoredSnapshot = StoredSnapshot(index: nat, snap: Snapshot)

  /** `bypassed` collects the ids whose infos some node initialised outside the log. */
  datatype Replicas = Replicas(
    log: seq<LogEntry>, nodes: seq<Node>, snaps: seq<StoredSnapshot>, bypassed: set<int32>)

  datatype Step =
    | Append(entry: LogEntry)          // the cluster commits an entry
    | ApplyNext(n: nat)                // node n applies the next committed entry
    | Snap(n: nat)                     // node n stores a snapshot of its state
    | Reset(n: nat)                    // node n restarts with nothing stored
    | Restart(n: nat, s: nat)          // node n restarts from stored snapshot s
    | Install(n: nat, s: nat)          // stored snapshot s is installed over node n's live state
    | Bypass(n: nat, id: int32)        // node n, as the leader, initialises infos outside the log

  predicate Enabled(c: Replicas, step: Step) {
    match step
    case Append(e) => WellFormedEntry(e)
    case ApplyNext(n) => n < |c.nodes| && c.nodes[n].applied < |c.log|
    case Snap(n) => n < |c.nodes|
    case Reset(n) => n < |c.nodes|
    case Restart(n, s) => n < |c.nodes| && s < |c.snaps|
    case Install(n, s) => n < |c.nodes| && s < |c.snaps| && c.nodes[n].applied <= c.snaps[s].index
    case Bypass(n, _) => n < |c.nodes|
  }

  function Next(c: Replicas, step: Step): Replicas
    requires WellFormedLog(c.log) && Enabled(c, step)
    ensures WellFormedLog(Next(c, step).log)
  {
    match step
    case Append(e) => c.(log := c.log + [e])
    case ApplyNext(n) =>
      var node := c.nodes[n];
      c.(nodes := c.nodes[n := Node(node.applied + 1, ApplyEntry(node.state, c.log[node.applied]).0)])
    case Snap(n) => c.(snaps := c.snaps + [StoredSnapshot(c.nodes[n].applied, TakeSnapshot(c.nodes[n].state))])
    case Reset(n) => c.(nodes := c.nodes[n := Node(0, FRESH)])
    case Restart(n, s) =>
      c.(nodes := c.nodes[n := Node(c.snaps[s].index, RestoreOver(FRESH, c.snaps[s].snap))])
    case Install(n, s) =>
      c.(nodes := c.nodes[n := Node(c.snaps[s].index, RestoreOver(c.nodes[n].state, c.snaps[s].snap))])
    case Bypass(n, id) =>
      c.(nodes := c.nodes[n := c.nodes[n].(state := c.nodes[n].state.InitInfos(id))], bypassed := c.bypassed + {id})
  }

  predicate Increments(e: LogEntry, id: int32) {
    && e.Command? && e.cmd.ty == UPDATE_FAULT && e.cmd.updateFault.Some?
    && e.cmd.updateFault.value.faultId == Some(id) && e.cmd.updateFault.value.sequenceNumber.Some?
  }

  /** An increment is logged only for an id that has infos in the log. */
  ghost predicate Timely(e: LogEntry, t: State) { forall id | Increments(e, id) :: id in t.alertInfos }

  ghost predicate TimelyLog(log: seq<LogEntry>)
    requires WellFormedLog(log)
  {
    log == [] || (TimelyLog(log[..|log| - 1]) && Timely(log[|log| - 1], Replay(FRESH, log[..|log| - 1])))
  }

  lemma {:induction false} TimelyAt(log: seq<LogEntry>, k: nat)
    requires WellFormedLog(log) && TimelyLog(log) && k < |log|
    ensures Timely(log[k], At(log, k))
  {
    var n := |log| - 1;
    if k < n {
      TimelyAt(log[..n], k);
      assert log[..n][..k] == log[..k];
    }
  }

  /** An install does not meet a live fault that the snapshot has lost; infos are initialised
      outside the log only before the log has some for the id, and incremented only after. */
  ghost predicate Careful(c: Replicas, step: Step)
    requires WellFormedLog(c.log) && Enabled(c, step)
  {
    match step
    case Append(e) => Timely(e, Replay(FRESH, c.log))
    case Install(n, s) =>
      && c.nodes[n].state.storage.Keys <= c.snaps[s].snap.storageFault.Keys
      && c.nodes[n].state.alertInfos.Keys <= c.snaps[s].snap.alertInfos.Keys
    case Bypass(n, id) => c.nodes[n].applied <= |c.log| && id !in At(c.log, c.nodes[n].applied).alertInfos
    case _ => true
  }

  predicate IsRun(c: Replicas, steps: seq<Step>)
    requires WellFormedLog(c.log)
    decreases |steps|
  {
    steps == [] || (Enabled(c, steps[0]) && IsRun(Next(c, steps[0]), steps[1..]))
  }

  ghost predicate CarefulRun(c: Replicas, steps: seq<Step>)
    requires WellFormedLog(c.log) && IsRun(c, steps)
    decreases |steps|
  {
    steps == [] || (Careful(c, steps[0]) && CarefulRun(Next(c, steps[0]), steps[1..]))
  }

  function After(c: Replicas, steps: seq<Step>): Replicas
    requires WellFormedLog(c.log) && IsRun(c, steps)
    ensures WellFormedLog(After(c, steps).log)
    decreases |steps|
  {
    if steps == [] then c else After(Next(c, steps[0]), steps[1..])
  }

  /** Equal but for the fault maps. */
  predicate SameCore(s: State, t: State) {
    s.measIdx == t.measIdx && s.hbIdx == t.hbIdx && s.schedulers == t.schedulers && s.faultIdx == t.faultIdx
  }

  /** s is t, but may have initial infos for some of the ids that t has none for. */
  predicate Ahead(s: State, t: State, ids: set<int32>) {
    && s.(alertInfos := t.alertInfos) == t
    && (forall id <- t.alertInfos :: id in s.alertInfos && s.alertInfos[id] == t.alertInfos[id])
    && (forall id <- s.alertInfos :: id in t.alertInfos || (id in ids && s.alertInfos[id] == AlertInfos(1, 0)))
  }

  function InfosOf(s: State, id: int32): Option<AlertInfos> {
    if id in s.alertInfos then Some(s.alertInfos[id]) else None
  }

  ghost predicate Agrees(log: seq<LogEntry>, k: nat, s: State, careful: bool, ids: set<int32>)
    requires WellFormedLog(log)
  {
    && k <= |log|
    && SameCore(s, At(log, k))
    && (careful ==> Ahead(s, At(log, k), ids))
  }

  ghost predicate Inv(c: Replicas, careful: bool)
    requires WellFormedLog(c.log)
  {
    && (careful ==> TimelyLog(c.log))
    && (forall n | 0 <= n < |c.nodes| :: Agrees(c.log, c.nodes[n].applied, c.nodes[n].state, careful, c.bypassed))
    && (forall s | 0 <= s < |c.snaps| ::
          Agrees(c.log, c.snaps[s].index, RestoreOver(FRESH, c.snaps[s].snap), careful, c.bypassed))
  }

  lemma CoreStep(s: State, t: State, e: LogEntry)
    requires WellFormedEntry(e) && SameCore(s, t)
    ensures SameCore(ApplyEntry(s, e).0, ApplyEntry(t, e).0)
  {
    if Deletes(e) || (e.Command? && e.cmd.ty == UPDATE_FAULT) {
      FaultCommandsKeepCore(s, e);
      FaultCommandsKeepCore(t, e);
    } else if e.Command? && e.cmd.ty == UPDATE_SCHEDULER && e.cmd.updateScheduler.Some? {
      SchedulerFieldsKeepCore(s, t, e.cmd.updateScheduler.value);
    }
  }

  lemma SchedulerFieldsKeepCore(s: State, t: State, f: SchedulerFields)
    requires SameCore(s, t)
    ensures SameCore(ApplySchedulerFields(s, f), ApplySchedulerFields(t, f))
  {}

  lemma FaultCommandsKeepCore(s: State, e: LogEntry)
    requires WellFormedEntry(e)
    requires Deletes(e) || (e.Command? && e.cmd.ty == UPDATE_FAULT)
    ensures SameCore(s, ApplyEntry(s, e).0)
  {}

  lemma AheadIncrement(s: State, t: State, id: int32, ids: set<int32>)
    requires Ahead(s, t, ids) && id in t.alertInfos
    ensures Ahead(s.IncrementSn(id).value, t.IncrementSn(id).value, ids)
  {}

  lemma AheadEpoch(s: State, t: State, id: int32, epoch: int64, ids: set<int32>)
    requires Ahead(s, t, ids)
    ensures Ahead(s.SetStartEpoch(id, epoch), t.SetStartEpoch(id, epoch), ids)
    ensures s.SetStartEpoch(id, epoch).alertInfos[id] == t.SetStartEpoch(id, epoch).alertInfos[id]
  {}

  lemma AheadDelete(s: State, t: State, name: string, ids: set<int32>)
    requires Ahead(s, t, ids)
    ensures Ahead(s.DeleteFault(name), t.DeleteFault(name), ids)
    ensures name in t.storage ==> t.storage[name] !in s.DeleteFault(name).alertInfos
  {}

  lemma AheadFields(s: State, t: State, f: FaultFields, ids: set<int32>)
    requires Ahead(s, t, ids) && (f.faultId.Some? && f.sequenceNumber.Some? ==> f.faultId.value in t.alertInfos)
    ensures Ahead(ApplyFaultFields(s, f).0, ApplyFaultFields(t, f).0, ids)
    ensures f.faultId.Some? && f.startEpoch.Some? ==>
            InfosOf(ApplyFaultFields(s, f).0, f.faultId.value) == InfosOf(ApplyFaultFields(t, f).0, f.faultId.value)
  {
    if f.faultId.Some? {
      var id := f.faultId.value;
      var s1 := if f.faultName != "" then s.StoreFault(f.faultName, id) else s;
      var t1 := if f.faultName != "" then t.StoreFault(f.faultName, id) else t;
      var s2 := if f.sequenceNumber.Some? then s1.IncrementSn(id).value else s1;
      var t2 := if f.sequenceNumber.Some? then t1.IncrementSn(id).value else t1;
      assert Ahead(s1, t1, ids);
      if f.sequenceNumber.Some? { AheadIncrement(s1, t1, id, ids); }
      if f.startEpoch.Some? { AheadEpoch(s2, t2, id, f.startEpoch.value, ids); }
    }
  }

  /** The entry writes the epoch of fault `id`, or deletes it. */
  predicate MakesGood(e: LogEntry, t: State, id: int32)
    requires WellFormedEntry(e)
  {
    e.Command? &&
    if Deletes(e) then e.cmd.deleteFault.value in t.storage && t.storage[e.cmd.deleteFault.value] == id
    else && e.cmd.ty == UPDATE_FAULT && e.cmd.updateFault.Some?
         && e.cmd.updateFault.value.faultId == Some(id) && e.cmd.updateFault.value.startEpoch.Some?
  }

  /** The next entry of the log keeps a replica ahead of its prefix, and makes good what it is
      ahead by where it writes an epoch or deletes a fault. */
  lemma AheadStep(s: State, t: State, e: LogEntry, ids: set<int32>)
    requires WellFormedEntry(e) && Ahead(s, t, ids) && Timely(e, t)
    ensures Ahead(ApplyEntry(s, e).0, ApplyEntry(t, e).0, ids)
    ensures forall id | MakesGood(e, t, id) :: InfosOf(ApplyEntry(s, e).0, id) == InfosOf(ApplyEntry(t, e).0, id)
  {
    if e.Command? && e.cmd.ty == UPDATE_FAULT && e.cmd.updateFault.Some? {
      var f := e.cmd.updateFault.value;
      assert f.faultId.Some? && f.sequenceNumber.Some? ==> Increments(e, f.faultId.value);
      AheadFields(s, t, f, ids);
    } else if e.Command? && e.cmd.ty == UPDATE_SCHEDULER && e.cmd.updateScheduler.Some? {
      AheadScheduler(s, t, e.cmd.updateScheduler.value, ids);
    } else if Deletes(e) {
      AheadDelete(s, t, e.cmd.deleteFault.value, ids);
    }
  }

  lemma AheadScheduler(s: State, t: State, f: SchedulerFields, ids: set<int32>)
    requires Ahead(s, t, ids)
    ensures Ahead(ApplySchedulerFields(s, f), ApplySchedulerFields(t, f), ids)
  {}

  lemma AppendKeepsAgrees(log: seq<LogEntry>, e: LogEntry, k: nat, s: State, careful: bool, ids: set<int32>)
    requires WellFormedLog(log) && WellFormedEntry(e) && Agrees(log, k, s, careful, ids)
    ensures WellFormedLog(log + [e]) && Agrees(log + [e], k, s, careful, ids)
  {
    assert (log + [e])[..k] == log[..k];
  }

  lemma AppendKeepsTimely(log: seq<LogEntry>, e: LogEntry)
    requires WellFormedLog(log) && WellFormedEntry(e) && TimelyLog(log) && Timely(e, Replay(FRESH, log))
    ensures TimelyLog(log + [e])
  {
    assert (log + [e])[..|log|] == log;
  }

  lemma ApplyKeepsAgrees(log: seq<LogEntry>, k: nat, s: State, careful: bool, ids: set<int32>)
    requires WellFormedLog(log) && k < |log| && Agrees(log, k, s, careful, ids) && (careful ==> TimelyLog(log))
    ensures Agrees(log, k + 1, ApplyEntry(s, log[k]).0, careful, ids)
  {
    ReplaySnoc(FRESH, log[..k], log[k]);
    assert log[..k + 1] == log[..k] + [log[k]];
    CoreStep(s, At(log, k), log[k]);
    if careful {
      TimelyAt(log, k);
      AheadStep(s, At(log, k), log[k], ids);
    }
  }

  lemma MoreBypassed(log: seq<LogEntry>, k: nat, s: State, careful: bool, ids: set<int32>, id: int32)
    requires WellFormedLog(log) && Agrees(log, k, s, careful, ids)
    ensures Agrees(log, k, s, careful, ids + {id})
    ensures (careful ==> id !in At(log, k).alertInfos) ==> Agrees(log, k, s.InitInfos(id), careful, ids + {id})
  {}

  /** A snapshot that has all the faults of a live state replaces it. */
  lemma CoveredRestore(live: State, snap: Snapshot)
    requires live.storage.Keys <= snap.storageFault.Keys && live.alertInfos.Keys <= snap.alertInfos.Keys
    ensures RestoreOver(live, snap) == RestoreOver(FRESH, snap)
  {
    assert live.alertInfos + snap.alertInfos == snap.alertInfos == map[] + snap.alertInfos;
    assert live.storage + snap.storageFault == snap.storageFault == map[] + snap.storageFault;
  }

  lemma InvAppend(c: Replicas, e: LogEntry, careful: bool)
    requires WellFormedLog(c.log) && WellFormedEntry(e) && (careful ==> Timely(e, Replay(FRESH, c.log)))
    requires Inv(c, careful)
    ensures Inv(Next(c, Append(e)), careful)
  {
    if careful { AppendKeepsTimely(c.log, e); }
    forall n | 0 <= n < |c.nodes|
      ensures Agrees(c.log + [e], c.nodes[n].applied, c.nodes[n].state, careful, c.bypassed)
    {
      AppendKeepsAgrees(c.log, e, c.nodes[n].applied, c.nodes[n].state, careful, c.bypassed);
    }
    forall s | 0 <= s < |c.snaps|
      ensures Agrees(c.log + [e], c.snaps[s].index, RestoreOver(FRESH, c.snaps[s].snap), careful, c.bypassed)
    {
      AppendKeepsAgrees(c.log, e, c.snaps[s].index, RestoreOver(FRESH, c.snaps[s].snap), careful, c.bypassed);
    }
  }

  lemma InvBypass(c: Replicas, n: nat, id: int32, careful: bool)
    requires WellFormedLog(c.log) && Enabled(c, Bypass(n, id)) && (careful ==> Careful(c, Bypass(n, id)))
    requires Inv(c, careful)
    ensures Inv(Next(c, Bypass(n, id)), careful)
  {
    forall m | 0 <= m < |c.nodes|
      ensures Agrees(c.log, c.nodes[m].applied, c.nodes[m].state, careful, c.bypassed + {id})
      ensures m == n ==> Agrees(c.log, c.nodes[n].applied, c.nodes[n].state.InitInfos(id), careful, c.bypassed + {id})
    {
      MoreBypassed(c.log, c.nodes[m].applied, c.nodes[m].state, careful, c.bypassed, id);
    }
    forall s | 0 <= s < |c.snaps|
      ensures Agrees(c.log, c.snaps[s].index, RestoreOver(FRESH, c.snaps[s].snap), careful, c.bypassed + {id})
    {
      MoreBypassed(c.log, c.snaps[s].index, RestoreOver(FRESH, c.snaps[s].snap), careful, c.bypassed, id);
    }
  }

  lemma InvStep(c: Replicas, step: Step, careful: bool)
    requires WellFormedLog(c.log) && Enabled(c, step) && (careful ==> Careful(c, step))
    requires Inv(c, careful)
    ensures Inv(Next(c, step), careful)
  {
    match step {
      case Append(e) => InvAppend(c, e, careful);
      case ApplyNext(n) =>
        ApplyKeepsAgrees(c.log, c.nodes[n].applied, c.nodes[n].state, careful, c.bypassed);
      case Snap(n) => RestoreFresh(c.nodes[n].state);
      case Reset(n) =>
      case Restart(n, s) =>
      case Install(n, s) =>
        if careful { CoveredRestore(c.nodes[n].state, c.snaps[s].snap); }
      case Bypass(n, id) => InvBypass(c, n, id, careful);
    }
  }

  lemma {:induction false} InvRun(c: Replicas, steps: seq<Step>, careful: bool)
    requires WellFormedLog(c.log) && IsRun(c, steps) && (careful ==> CarefulRun(c, steps))
    requires Inv(c, careful)
    ensures Inv(After(c, steps), careful)
    decreases |steps|
  {
    if steps != [] {
      InvStep(c, steps[0], careful);
      InvRun(Next(c, steps[0]), steps[1..], careful);
    }
  }

  predicate Initial(c: Replicas) {
    c.log == [] && c.snaps == [] && c.bypassed == {} && forall n <- c.nodes :: n == Node(0, FRESH)
  }

  /** In every run, whatever is restarted or installed when, each replica's counters and
      schedulers are those of the log prefix it has applied. */
  lemma CountersAndSchedulersAgree(c: Replicas, steps: seq<Step>, n: nat)
    requires Initial(c) && IsRun(c, steps) && n < |After(c, steps).nodes|
    ensures var d := After(c, steps);
            && d.nodes[n].applied <= |d.log|
            && SameCore(d.nodes[n].state, At(d.log, d.nodes[n].applied))
  {
    forall i | 0 <= i < |c.nodes| ensures c.nodes[i] == Node(0, FRESH) { assert c.nodes[i] in c.nodes; }
    InvRun(c, steps, false);
    var d := After(c, steps);
    assert Agrees(d.log, d.nodes[n].applied, d.nodes[n].state, false, d.bypassed);
  }

  /** In every careful run, however snapshots are taken, restarted from and installed while a
      leader is ahead of its log: each replica holds the state of the log prefix that it has
      applied, and beyond it at most the initial infos of ids bypassed that the prefix has no
      infos for. Two replicas at the same index differ in nothing else. */
  lemma ReplicasAgree(c: Replicas, steps: seq<Step>, n: nat, m: nat)
    requires Initial(c) && IsRun(c, steps) && CarefulRun(c, steps)
    requires n < |After(c, steps).nodes| && m < |After(c, steps).nodes|
    ensures var d := After(c, steps);
            && d.nodes[n].applied <= |d.log|
            && Ahead(d.nodes[n].state, At(d.log, d.nodes[n].applied), d.bypassed)
            && (d.bypassed == {} ==> d.nodes[n].state == At(d.log, d.nodes[n].applied))
            && (d.nodes[n].applied == d.nodes[m].applied ==>
                  && d.nodes[n].state.(alertInfos := d.nodes[m].state.alertInfos) == d.nodes[m].state
                  && forall id :: id in At(d.log, d.nodes[n].applied).alertInfos || id !in d.bypassed ==>
                       InfosOf(d.nodes[n].state, id) == InfosOf(d.nodes[m].state, id))
  {
    forall i | 0 <= i < |c.nodes| ensures c.nodes[i] == Node(0, FRESH) { assert c.nodes[i] in c.nodes; }
    InvRun(c, steps, true);
    var d := After(c, steps);
    assert Agrees(d.log, d.nodes[n].applied, d.nodes[n].state, true, d.bypassed);
    assert Agrees(d.log, d.nodes[m].applied, d.nodes[m].state, true, d.bypassed);
    if d.bypassed == {} {
      NotAhead(d.nodes[n].state, At(d.log, d.nodes[n].applied));
    }
  }

  lemma NotAhead(s: State, t: State)
    requires Ahead(s, t, {})
    ensures s == t
  {
    assert s.alertInfos == t.alertInfos;
  }
}
