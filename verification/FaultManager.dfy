/** The fault manager (VESPA/ves-agent/convert): it turns alerts into faults over a store that
    numbers them, and hands back a commit to be called once the fault has been sent.
    The store is one of three implementations of one interface. */
module FaultManager {
  import opened Prelude
  import opened AgentState

  /** How a write through the log ends: acknowledged; refused and not in the log; or in the log
      though the writer is told that it failed. Writes to the other two stores do not fail. */
  datatype Fate = Acked | Refused | Unheard

  /** Convert: the manager's own in-memory store. Ha: the agent state used directly.
      Replicated: the agent state of the leader, written through the commit log. */
  datatype Store =
    | Convert(index: int32, names: map<string, int32>, infos: map<int32, AlertInfos>)
    | Ha(state: State)
    | Replicated(leader: State, log: seq<LogEntry>)
  {
    function Names(): map<string, int32> {
      match this
      case Convert(_, names, _) => names
      case Ha(s) => s.storage
      case Replicated(s, _) => s.storage
    }

    function Infos(): map<int32, AlertInfos> {
      match this
      case Convert(_, _, infos) => infos
      case Ha(s) => s.alertInfos
      case Replicated(s, _) => s.alertInfos
    }

    /** The in-memory store follows the pointer it finds for an id without looking at it. */
    predicate Holds(id: int32) { Convert? ==> id in infos }

    function Append(cmd: StateCmd): (Store, Response)
      requires Replicated? && WellFormed(cmd)
    {
      var (s, r) := Process(leader, cmd);
      (Replicated(s, log + [Command(cmd)]), r)
    }

    /** The store after a write that leads to `after`, and whether the writer is told of success. */
    function Write(after: Store, f: Fate): (Store, bool) {
      (if Replicated? && f == Refused then this else after, Replicated? ==> f == Acked)
    }

    function FaultInStorage(name: string): int32 {
      if name in Names() then Names()[name] else 0
    }

    function NextFaultIndex(): (Store, int32) {
      match this
      case Convert(i, _, _) => (this.(index := Inc32(i)), i)
      case Ha(s) => (Ha(s.(faultIdx := Inc32(s.faultIdx))), Inc32(s.faultIdx))
      case Replicated(_, _) =>
        var (st, r) := Append(StateCmd(INCREMENT_FAULT_IDX, None, None, None));
        (st, r.i32)
    }

    function StoreFault(name: string, id: int32): Store {
      match this
      case Convert(_, names, _) => this.(names := names[name := id])
      case Ha(s) => Ha(s.StoreFault(name, id))
      case Replicated(_, _) => Append(FaultCmd(FaultFields(Some(id), name, None, None))).0
    }

    function DeleteFault(name: string): Store {
      match this
      case Convert(_, names, _) => this.(names := names - {name})
      case Ha(s) => Ha(s.DeleteFault(name))
      case Replicated(_, _) => Append(StateCmd(DELETE_FAULT, None, None, Some(name))).0
    }

    /** Local on every store: the replicated one does not send it through the log. */
    function InitInfos(id: int32): Store {
      match this
      case Convert(_, _, infos) => this.(infos := infos[id := AlertInfos(1, 0)])
      case Ha(s) => Ha(s.InitInfos(id))
      case Replicated(s, log) => Replicated(s.InitInfos(id), log)
    }

    function FaultSn(id: int32): int64
      requires Holds(id)
    {
      if id in Infos() then Infos()[id].sequence else 0
    }

    function FaultStartEpoch(id: int32): int64
      requires Holds(id)
    {
      if id in Infos() then Infos()[id].startEpoch else 0
    }

    function IncrementSn(id: int32): (Store, bool)
      requires Holds(id)
    {
      match this
      case Convert(_, _, infos) =>
        (this.(infos := infos[id := infos[id].(sequence := Inc64(infos[id].sequence))]), true)
      case Ha(s) =>
        var r := s.IncrementSn(id);
        if r.Some? then (Ha(r.value), true) else (this, false)
      case Replicated(_, _) =>
        var (st, r) := Append(FaultCmd(FaultFields(Some(id), "", Some(1), None)));
        (st, r == Done)
    }

    function SetStartEpoch(id: int32, epoch: int64): Store
      requires Holds(id)
    {
      match this
      case Convert(_, _, infos) => this.(infos := infos[id := infos[id].(startEpoch := epoch)])
      case Ha(s) => Ha(s.SetStartEpoch(id, epoch))
      case Replicated(_, _) => Append(FaultCmd(FaultFields(Some(id), "", None, Some(epoch)))).0
    }
  }

  function FaultCmd(f: FaultFields): StateCmd { StateCmd(UPDATE_FAULT, None, Some(f), None) }

  /******* Alerts *******/

  datatype Status = InError | AlreadyExist | Stored | Cleared | NotExist

  /** What AlertToFault reads of an alert; `epoch` is the start epoch of the fault it builds. */
  datatype Alert = Alert(
    id: string, service: string, sourceName: string, knownSeverity: bool, resolved: bool, epoch: int64)

  /** The text of `service` up to its first '='. */
  function StaticPart(service: string): (r: string)
    ensures r <= service && '=' !in r
    ensures r == service || service[|r|] == '='
  {
    if service == [] || service[0] == '=' then []
    else
      var r := StaticPart(service[1..]);
      [service[0]] + r
  }

  /** Never empty, so that the log, which takes an empty name for none, stores it. */
  function FaultName(a: Alert): (r: string)
    ensures r != ""
  {
    a.id + "_" + StaticPart(a.service) + "_" + a.sourceName
  }

  /** What a fault name starts with, whatever the source. */
  function Head(a: Alert): string { a.id + "_" + StaticPart(a.service) + "_" }

  predicate SameKind(a: Alert, b: Alert) { a.id == b.id && StaticPart(a.service) == StaticPart(b.service) }

  predicate HeadsClash(a: Alert, b: Alert) { Head(a) <= Head(b) || Head(b) <= Head(a) }

  /** Ids and services of two alerts can lead to one name, for some sources, exactly when one of
      the heads is a prefix of the other. */
  lemma SharedFaultName(a: Alert, b: Alert)
    ensures (exists n, m :: FaultName(a.(sourceName := n)) == FaultName(b.(sourceName := m))) <==> HeadsClash(a, b)
  {
    if Head(a) <= Head(b) {
      OneName(a, b);
    } else if Head(b) <= Head(a) {
      OneName(b, a);
    } else {
      forall n: string, m: string ensures Head(a) + n != Head(b) + m {
        PrefixesOfOne(Head(a), n, Head(b), m);
      }
    }
  }

  /** A source for the shorter head that makes up for the rest of the longer one. */
  lemma OneName(a: Alert, b: Alert)
    requires Head(a) <= Head(b)
    ensures FaultName(a.(sourceName := Head(b)[|Head(a)|..] + b.sourceName)) == FaultName(b)
  {
    var n := Head(b)[|Head(a)|..] + b.sourceName;
    assert Head(b) == Head(a) + Head(b)[|Head(a)|..];
    assert FaultName(a.(sourceName := n)) == Head(a) + n;
    assert FaultName(b) == Head(b) + b.sourceName;
  }

  lemma PrefixesOfOne(x: string, n: string, y: string, m: string)
    ensures x + n == y + m ==> x <= y || y <= x
  {
    if x + n == y + m {
      var t := x + n;
      assert x == t[..|x|] && y == t[..|y|];
    }
  }

  /** Names tell faults apart by id, static service and source, for all sources, exactly when the
      two alerts are of one kind or their heads do not clash. */
  lemma SameFaultIff(a: Alert, b: Alert)
    ensures (forall n, m :: FaultName(a.(sourceName := n)) == FaultName(b.(sourceName := m)) <==>
                            SameKind(a, b) && n == m)
            <==> (HeadsClash(a, b) ==> SameKind(a, b))
  {
    SharedFaultName(a, b);
    if SameKind(a, b) {
      forall n: string, m: string ensures Head(a) + n == Head(a) + m <==> n == m {
        assert (Head(a) + n)[|Head(a)|..] == n && (Head(a) + m)[|Head(a)|..] == m;
      }
    }
  }

  /** Without separators in ids and static services only alerts of one kind clash. */
  lemma NoSeparatorNoClash(a: Alert, b: Alert)
    requires '_' !in a.id && '_' !in b.id && '_' !in StaticPart(a.service) && '_' !in StaticPart(b.service)
    ensures HeadsClash(a, b) <==> SameKind(a, b)
  {
    if Head(a) <= Head(b) {
      Separated(a.id, StaticPart(a.service), Head(b)[|Head(a)|..], b.id, StaticPart(b.service), "");
    } else if Head(b) <= Head(a) {
      Separated(b.id, StaticPart(b.service), Head(a)[|Head(b)|..], a.id, StaticPart(a.service), "");
    }
  }

  lemma Separated(x: string, y: string, z: string, u: string, v: string, w: string)
    requires '_' !in x && '_' !in y && '_' !in u && '_' !in v && x + "_" + y + "_" + z == u + "_" + v + "_" + w
    ensures x == u && y == v && z == w
  {
    assert x + "_" + (y + "_" + z) == x + "_" + y + "_" + z == u + "_" + (v + "_" + w);
    FirstSeparator(x, y + "_" + z, u, v + "_" + w);
    FirstSeparator(y, z, v, w);
  }

  lemma FirstSeparator(x: string, r: string, y: string, s: string)
    requires '_' !in x && '_' !in y && x + "_" + r == y + "_" + s
    ensures x == y && r == s
  {
    NotShorter(x, r, y, s);
    NotShorter(y, s, x, r);
    var t := x + "_" + r;
    assert t[..|x|] == x && t[..|y|] == y && t[|x| + 1..] == r && t[|y| + 1..] == s;
  }

  lemma NotShorter(x: string, r: string, y: string, s: string)
    requires '_' !in y && x + "_" + r == y + "_" + s
    ensures |y| <= |x|
  {
    assert (x + "_" + r)[|x|] == '_';
  }

  datatype Result = Result(status: Status, id: int32, sequence: int64, startEpoch: int64)

  /** Absent: no commit function at all. */
  datatype Commit = MustNotCall | Absent | Delete(name: string) | Increment(id: int32)

  /** The fates of the three logged writes of a new fault. */
  datatype Fates = Fates(index: Fate, name: Fate, epoch: Fate)

  const ALL_ACKED := Fates(Acked, Acked, Acked)

  /** The index taken and the name stored, as far as the writes go. */
  function Register(st: Store, name: string, f: Fates): (Store, bool, int32) {
    var (numbered, id) := st.NextFaultIndex();
    var (st1, ok1) := st.Write(numbered, f.index);
    if !ok1 then (st1, false, 0) else
    var (st2, ok2) := st1.Write(st1.StoreFault(name, id), f.name);
    (st2, ok2, id)
  }

  function StoreFault(st: Store, name: string, f: Fates): (Store, Status, int32) {
    var val := st.FaultInStorage(name);
    if val != 0 then (st, AlreadyExist, val) else
    var (st1, ok, id) := Register(st, name, f);
    if ok then (st1.InitInfos(id), Stored, id) else (st1, InError, 0)
  }

  function ClearFault(st: Store, name: string): (Status, int32) {
    var id := st.FaultInStorage(name);
    (if id == 0 then NotExist else Cleared, id)
  }

  /** Every stored fault has infos behind its id, so that no read follows a nil pointer. */
  predicate Safe(st: Store) {
    forall n <- st.Names() :: st.Names()[n] != 0 ==> st.Holds(st.Names()[n])
  }

  const FAILED := Result(InError, 0, 0, 0)

  function AlertToFault(st: Store, a: Alert, f: Fates): (Store, Result, Commit)
    requires Safe(st)
  {
    if !a.knownSeverity then (st, FAILED, MustNotCall) else
    var name := FaultName(a);
    if a.resolved then
      var (status, id) := ClearFault(st, name);
      if status == NotExist then (st, Result(NotExist, 0, 0, 0), MustNotCall)
      else (st, Result(Cleared, id, st.FaultSn(id), st.FaultStartEpoch(id)), Delete(name))
    else
      var (st1, status, id) := StoreFault(st, name, f);
      if status == InError then (st1, FAILED, MustNotCall) else
      var sn := st1.FaultSn(id);
      if status != Stored then (st1, Result(status, id, sn, st1.FaultStartEpoch(id)), Increment(id)) else
      var (st2, ok) := st1.Write(st1.SetStartEpoch(id, a.epoch), f.epoch);
      if ok then (st2, Result(Stored, id, sn, a.epoch), Increment(id)) else (st2, FAILED, Absent)
  }

  /** What is handed out with each answer. A commit that may be called comes exactly with the three
      answers that are sent: the deletion of the fault with a clear, the increment of its sequence
      with the others. No function at all comes exactly when the epoch write of a new fault is not
      acknowledged, and nothing else than InError and NotExist is answered without a commit. */
  lemma CommitFitsAnswer(st: Store, a: Alert, f: Fates)
    requires Safe(st)
    ensures var (st1, r, c) := AlertToFault(st, a, f);
            && (c.Delete? <==> r.status == Cleared) && (c.Delete? ==> c.name == FaultName(a))
            && (c.Increment? <==> r.status == Stored || r.status == AlreadyExist) && (c.Increment? ==> c.id == r.id)
            && (c.MustNotCall? || c.Absent? <==> r.status == InError || r.status == NotExist)
            && (c.MustNotCall? || c.Absent? ==> r.id == 0 && r.sequence == 0 && r.startEpoch == 0)
            && (c.Absent? <==>
                  && a.knownSeverity && !a.resolved && st.FaultInStorage(FaultName(a)) == 0
                  && st.Replicated? && f.index == Acked && f.name == Acked && f.epoch != Acked)
            && (r.status == NotExist <==> a.knownSeverity && a.resolved && st.FaultInStorage(FaultName(a)) == 0)
  {}

  /** Calling the function that must not be called, or none, ends the process. */
  predicate Callable(st: Store, c: Commit) {
    c.Delete? || (c.Increment? && st.Holds(c.id))
  }

  function RunCommit(st: Store, c: Commit, f: Fate): (Store, bool)
    requires Callable(st, c)
  {
    match c
    case Delete(name) => st.Write(st.DeleteFault(name), f)
    case Increment(id) =>
      var (done, known) := st.IncrementSn(id);
      var (st1, ok) := st.Write(done, f);
      (st1, ok && known)
  }

  /** The manager as an object around its store. */
  class Manager {
    var store: Store

    constructor (store: Store)
      ensures this.store == store
    {
      this.store := store;
    }

    method DoStoreFault(name: string, f: Fates) returns (status: Status, id: int32)
      modifies this
      ensures (store, status, id) == StoreFault(old(store), name, f)
    {
      var val := store.FaultInStorage(name);
      if val != 0 {
        return AlreadyExist, val;
      }
      var (numbered, faultId) := store.NextFaultIndex();
      var (st1, ok1) := store.Write(numbered, f.index);
      store := st1;
      if !ok1 {
        return InError, 0;
      }
      var (st2, ok2) := store.Write(store.StoreFault(name, faultId), f.name);
      store := st2;
      if !ok2 {
        return InError, 0;
      }
      id := faultId;
      status := Stored;
      store := store.InitInfos(id);
    }

    method DoAlertToFault(a: Alert, f: Fates) returns (r: Result, commit: Commit)
      requires Safe(store)
      modifies this
      ensures (store, r, commit) == AlertToFault(old(store), a, f)
    {
      if !a.knownSeverity {
        return FAILED, MustNotCall;
      }
      var name := FaultName(a);
      var status, id;
      if a.resolved {
        var (s, i) := ClearFault(store, name);
        status, id := s, i;
      } else {
        status, id := DoStoreFault(name, f);
      }
      if status == InError || status == NotExist {
        return Result(status, 0, 0, 0), MustNotCall;
      }
      var sn := store.FaultSn(id);
      var epoch := a.epoch;
      if status == Stored {
        var (st, ok) := store.Write(store.SetStartEpoch(id, epoch), f.epoch);
        store := st;
        if !ok {
          return FAILED, Absent;
        }
      } else {
        epoch := store.FaultStartEpoch(id);
      }
      r := Result(status, id, sn, epoch);
      commit := if status == Cleared then Delete(name) else Increment(id);
    }

    method DoCommit(c: Commit, f: Fate) returns (ok: bool)
      requires Callable(store, c)
      modifies this
      ensures (store, ok) == RunCommit(old(store), c, f)
    {
      match c {
        case Delete(name) =>
          var (st, done) := store.Write(store.DeleteFault(name), f);
          store, ok := st, done;
        case Increment(id) =>
          var (done, known) := store.IncrementSn(id);
          var (st, acked) := store.Write(done, f);
          store, ok := st, acked && known;
      }
    }
  }
}
