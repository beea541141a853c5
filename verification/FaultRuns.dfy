/** Whole runs of the fault manager: what each answer must be, told from the history of alerts
    alone, and that the three stores cannot be told apart. */
module FaultRuns {
  import opened Prelude
  import opened AgentState
  import opened FaultManager

  /** One alert, and whether its commit was called (before the next alert). */
  datatype Event = Event(alert: Alert, commit: bool)

  /** What the run shows to the outside. */
  datatype Entry = Entry(ev: Event, r: Result)

  predicate Sent(r: Result) { r.status in {Stored, AlreadyExist, Cleared} }

  /******* The reference: answers computed from the history *******/

  /** Number of faults stored so far. */
  function Stores(h: seq<Entry>): nat {
    if h == [] then 0 else Stores(h[..|h| - 1]) + if h[|h| - 1].r.status == Stored then 1 else 0
  }

  /** The id under which `name` was last stored and not cleared since; 0 if there is none. */
  function ActiveId(h: seq<Entry>, name: string): int32 {
    if h == [] then 0 else
    var e := h[|h| - 1];
    if FaultName(e.ev.alert) == name && e.r.status == Stored then e.r.id
    else if FaultName(e.ev.alert) == name && e.r.status == Cleared && e.ev.commit then 0
    else ActiveId(h[..|h| - 1], name)
  }

  /** Number of events of fault `id`, clears aside, whose commit was called. */
  function Commits(h: seq<Entry>, id: int32): nat {
    if h == [] then 0 else
    var e := h[|h| - 1];
    Commits(h[..|h| - 1], id) +
    if e.ev.commit && e.r.id == id && e.r.status in {Stored, AlreadyExist} then 1 else 0
  }

  /** The start epoch of the alert that stored fault `id`. */
  function StartOf(h: seq<Entry>, id: int32): int64 {
    if h == [] then 0 else
    var e := h[|h| - 1];
    if e.r.status == Stored && e.r.id == id then e.ev.alert.epoch else StartOf(h[..|h| - 1], id)
  }

  /** The sequence number after k increments of the first one. */
  function SnAfter(k: nat): int64 { if k == 0 then 1 else Inc64(SnAfter(k - 1)) }

  lemma {:induction false} SnAfterCounts(k: nat)
    requires k < INT64_MAX
    ensures SnAfter(k) == 1 + k
  {
    if k != 0 {
      SnAfterCounts(k - 1);
    }
  }

  /** The four readings of a history, as functions. */
  datatype Ledger = Ledger(
    stores: nat, active: string -> int32, commits: int32 -> nat, start: int32 -> int64)

  function LedgerOf(h: seq<Entry>): Ledger {
    Ledger(Stores(h), n => ActiveId(h, n), id => Commits(h, id), id => StartOf(h, id))
  }

  /** The numbering of faults is an int32: a run may store 2^31 - 1 of them. */
  predicate InRange(l: Ledger, a: Alert) {
    l.stores < INT32_MAX || a.resolved || !a.knownSeverity || l.active(FaultName(a)) != 0
  }

  /** The answer to alert `a` after a history with ledger `l`. */
  function Expected(l: Ledger, a: Alert): Result
    requires InRange(l, a)
  {
    if !a.knownSeverity then Result(InError, 0, 0, 0) else
    var id := l.active(FaultName(a));
    if id != 0 then
      Result(if a.resolved then Cleared else AlreadyExist, id, SnAfter(l.commits(id)), l.start(id))
    else if a.resolved then Result(NotExist, 0, 0, 0)
    else Result(Stored, 1 + l.stores, 1, a.epoch)
  }

  /******* Runs *******/

  function Handle(st: Store, ev: Event): (Store, Result)
    requires Safe(st)
  {
    var (st1, r, c) := AlertToFault(st, ev.alert, ALL_ACKED);
    assert c.Increment? ==> st1.Holds(c.id);
    if ev.commit && Sent(r) then (RunCommit(st1, c, Acked).0, r) else (st1, r)
  }

  /** What the manager's behaviour depends on, common to the three stores. */
  datatype View = View(lastId: int, names: map<string, int32>, infos: map<int32, AlertInfos>)

  function ViewOf(st: Store): View {
    View(match st
         case Convert(i, _, _) => if i == -0x8000_0000 then INT32_MAX else i - 1
         case Ha(s) => s.faultIdx
         case Replicated(s, _) => s.faultIdx,
         st.Names(), st.Infos())
  }

  /** The store agrees with the history. */
  ghost predicate Matches(v: View, l: Ledger) {
    && v.lastId == l.stores
    && (forall id: int32 | l.stores < id :: l.commits(id) == 0)
    && (forall n :: l.active(n) == if n in v.names then v.names[n] else 0)
    && (forall n <- v.names :: 1 <= v.names[n] <= l.stores && v.names[n] in v.infos)
    && (forall n <- v.names, m <- v.names :: v.names[n] == v.names[m] ==> n == m)
    && (forall n <- v.names :: v.infos[v.names[n]] == AlertInfos(SnAfter(l.commits(v.names[n])), l.start(v.names[n])))
    && (forall id <- v.infos :: 1 <= id <= l.stores)
  }

  /** l2 is l with one more entry. */
  ghost predicate Grows(l: Ledger, e: Entry, l2: Ledger) {
    && l2.stores == l.stores + (if e.r.status == Stored then 1 else 0)
    && (forall n :: l2.active(n) ==
          if FaultName(e.ev.alert) == n && e.r.status == Stored then e.r.id
          else if FaultName(e.ev.alert) == n && e.r.status == Cleared && e.ev.commit then 0
          else l.active(n))
    && (forall id :: l2.commits(id) ==
          l.commits(id) + if e.ev.commit && e.r.id == id && e.r.status in {Stored, AlreadyExist} then 1 else 0)
    && (forall id :: l2.start(id) ==
          if e.r.status == Stored && e.r.id == id then e.ev.alert.epoch else l.start(id))
  }

  lemma Snoc(h: seq<Entry>, e: Entry)
    ensures Grows(LedgerOf(h), e, LedgerOf(h + [e]))
  {
    assert (h + [e])[..|h|] == h;
  }

  /******* The three stores behave alike on views *******/

  lemma NewFault(st: Store, name: string)
    requires name != "" && 0 <= ViewOf(st).lastId < INT32_MAX && st.FaultInStorage(name) == 0
    ensures var v, id := ViewOf(st), ViewOf(st).lastId + 1;
            var (st1, status, id1) := StoreFault(st, name, ALL_ACKED);
            && status == Stored && id1 == id
            && ViewOf(st1) == View(id, v.names[name := id], v.infos[id := AlertInfos(1, 0)])
  {}

  lemma Ops(st: Store, id: int32, epoch: int64)
    requires id in st.Infos()
    ensures var v := ViewOf(st);
            && ViewOf(st.SetStartEpoch(id, epoch)) == v.(infos := v.infos[id := v.infos[id].(startEpoch := epoch)])
            && st.IncrementSn(id).1
            && ViewOf(st.IncrementSn(id).0) ==
               v.(infos := v.infos[id := v.infos[id].(sequence := Inc64(v.infos[id].sequence))])
  {}

  lemma Deleting(st: Store, name: string)
    requires name in st.Names()
    ensures var v, w := ViewOf(st), ViewOf(st.DeleteFault(name));
            && w.lastId == v.lastId && w.names == v.names - {name}
            && w.infos == if st.Convert? then v.infos else v.infos - {v.names[name]}
  {}

  /******* One event *******/

  lemma MatchesSafe(st: Store, l: Ledger)
    requires Matches(ViewOf(st), l)
    ensures Safe(st)
  {}

  /** What the store has for a name, from the history. */
  lemma StoredForName(st: Store, l: Ledger, name: string)
    requires Matches(ViewOf(st), l)
    ensures st.FaultInStorage(name) == l.active(name)
    ensures l.active(name) != 0 ==> name in st.Names() && l.active(name) in st.Infos()
  {}

  /** The view after one event, by the status of its answer. */
  function ViewAfter(v: View, r: Result, ev: Event, keepsInfos: bool): View
    requires r.status == AlreadyExist ==> r.id in v.infos
  {
    var name := FaultName(ev.alert);
    match r.status
    case Stored =>
      View(r.id, v.names[name := r.id], v.infos[r.id := AlertInfos(if ev.commit then 2 else 1, ev.alert.epoch)])
    case AlreadyExist =>
      if ev.commit then v.(infos := v.infos[r.id := v.infos[r.id].(sequence := Inc64(v.infos[r.id].sequence))]) else v
    case Cleared =>
      if ev.commit then View(v.lastId, v.names - {name}, if keepsInfos then v.infos else v.infos - {r.id}) else v
    case _ => v
  }

  lemma AlertNew(st: Store, a: Alert)
    requires Safe(st) && 0 <= ViewOf(st).lastId < INT32_MAX && st.FaultInStorage(FaultName(a)) == 0
    requires a.knownSeverity && !a.resolved
    ensures var v, id := ViewOf(st), ViewOf(st).lastId + 1;
            var (st2, r, c) := AlertToFault(st, a, ALL_ACKED);
            && r == Result(Stored, id, 1, a.epoch) && c == Increment(id)
            && ViewOf(st2) == View(id, v.names[FaultName(a) := id], v.infos[id := AlertInfos(1, a.epoch)])
  {
    NewFault(st, FaultName(a));
    var (st1, _, id) := StoreFault(st, FaultName(a), ALL_ACKED);
    Ops(st1, id, a.epoch);
  }

  lemma HandleNew(st: Store, l: Ledger, ev: Event)
    requires Matches(ViewOf(st), l) && InRange(l, ev.alert) && Expected(l, ev.alert).status == Stored
    ensures Safe(st)
    ensures Handle(st, ev).1 == Expected(l, ev.alert)
    ensures ViewOf(Handle(st, ev).0) == ViewAfter(ViewOf(st), Expected(l, ev.alert), ev, st.Convert?)
  {
    MatchesSafe(st, l);
    StoredForName(st, l, FaultName(ev.alert));
    HandleAlertNew(st, ev);
  }

  lemma HandleAlertNew(st: Store, ev: Event)
    requires Safe(st) && 0 <= ViewOf(st).lastId < INT32_MAX && st.FaultInStorage(FaultName(ev.alert)) == 0
    requires ev.alert.knownSeverity && !ev.alert.resolved
    ensures var r := Result(Stored, ViewOf(st).lastId + 1, 1, ev.alert.epoch);
            Handle(st, ev).1 == r && ViewOf(Handle(st, ev).0) == ViewAfter(ViewOf(st), r, ev, st.Convert?)
  {
    AlertNew(st, ev.alert);
    var (st2, r, c) := AlertToFault(st, ev.alert, ALL_ACKED);
    CommitNew(st2, r.id, ev.alert.epoch);
  }

  lemma CommitNew(st: Store, id: int32, epoch: int64)
    requires id in st.Infos() && st.Infos()[id] == AlertInfos(1, epoch)
    ensures var v := ViewOf(st);
            ViewOf(RunCommit(st, Increment(id), Acked).0) == v.(infos := v.infos[id := AlertInfos(2, epoch)])
  {
    Ops(st, id, 0);
  }

  lemma HandleKnown(st: Store, l: Ledger, ev: Event)
    requires Matches(ViewOf(st), l) && InRange(l, ev.alert) && Expected(l, ev.alert).status in {AlreadyExist, Cleared}
    ensures Safe(st)
    ensures Handle(st, ev).1 == Expected(l, ev.alert)
    ensures ViewOf(Handle(st, ev).0) == ViewAfter(ViewOf(st), Expected(l, ev.alert), ev, st.Convert?)
  {
    MatchesSafe(st, l);
    var name := FaultName(ev.alert);
    Ops(st, l.active(name), 0);
    Deleting(st, name);
  }

  /** Any store that agrees with the history answers as the history says. */
  lemma HandleView(st: Store, l: Ledger, ev: Event)
    requires Matches(ViewOf(st), l) && InRange(l, ev.alert)
    ensures Safe(st)
    ensures Handle(st, ev).1 == Expected(l, ev.alert)
    ensures Expected(l, ev.alert).status == AlreadyExist ==> Expected(l, ev.alert).id in st.Infos()
    ensures ViewOf(Handle(st, ev).0) == ViewAfter(ViewOf(st), Expected(l, ev.alert), ev, st.Convert?)
  {
    match Expected(l, ev.alert).status {
      case Stored => HandleNew(st, l, ev);
      case AlreadyExist => HandleKnown(st, l, ev);
      case Cleared => HandleKnown(st, l, ev);
      case _ => MatchesSafe(st, l);
    }
  }

  lemma StoredMatches(v: View, l: Ledger, e: Entry, l2: Ledger, infos: AlertInfos)
    requires Matches(v, l) && Grows(l, e, l2)
    requires e.r.status == Stored && e.r.id == 1 + l.stores && l.active(FaultName(e.ev.alert)) == 0
    requires infos == AlertInfos(if e.ev.commit then 2 else 1, e.ev.alert.epoch)
    ensures Matches(View(e.r.id, v.names[FaultName(e.ev.alert) := e.r.id], v.infos[e.r.id := infos]), l2)
  {
    assert l2.commits(e.r.id) == if e.ev.commit then 1 else 0;
    assert l2.start(e.r.id) == e.ev.alert.epoch;
    assert SnAfter(0) == 1 && SnAfter(1) == 2;
  }

  lemma RepeatedMatches(v: View, l: Ledger, e: Entry, l2: Ledger)
    requires Matches(v, l) && Grows(l, e, l2)
    requires e.r.status == AlreadyExist && e.ev.commit && e.r.id == l.active(FaultName(e.ev.alert)) != 0
    ensures e.r.id in v.infos
    ensures Matches(v.(infos := v.infos[e.r.id := v.infos[e.r.id].(sequence := Inc64(v.infos[e.r.id].sequence))]), l2)
  {
    assert FaultName(e.ev.alert) in v.names;
  }

  lemma ClearedMatches(v: View, l: Ledger, e: Entry, l2: Ledger, keepsInfos: bool)
    requires Matches(v, l) && Grows(l, e, l2)
    requires e.r.status == Cleared && e.ev.commit && e.r.id == l.active(FaultName(e.ev.alert)) != 0
    ensures var infos := if keepsInfos then v.infos else v.infos - {e.r.id};
            Matches(View(v.lastId, v.names - {FaultName(e.ev.alert)}, infos), l2)
  {
    assert FaultName(e.ev.alert) in v.names;
  }

  lemma ViewAfterMatches(v: View, l: Ledger, ev: Event, keepsInfos: bool, l2: Ledger)
    requires Matches(v, l) && InRange(l, ev.alert) && Grows(l, Entry(ev, Expected(l, ev.alert)), l2)
    ensures Expected(l, ev.alert).status == AlreadyExist ==> Expected(l, ev.alert).id in v.infos
    ensures Matches(ViewAfter(v, Expected(l, ev.alert), ev, keepsInfos), l2)
  {
    var r := Expected(l, ev.alert);
    var e := Entry(ev, r);
    if r.status == Stored {
      StoredMatches(v, l, e, l2, AlertInfos(if ev.commit then 2 else 1, ev.alert.epoch));
    } else if ev.commit && r.status == AlreadyExist {
      RepeatedMatches(v, l, e, l2);
    } else if ev.commit && r.status == Cleared {
      ClearedMatches(v, l, e, l2, keepsInfos);
    }
  }

  /******* Whole runs *******/

  lemma HandleSafe(st: Store, ev: Event)
    requires Safe(st)
    ensures Safe(Handle(st, ev).0)
  {}

  function Run(st: Store, evs: seq<Event>): (res: (Store, seq<Entry>))
    requires Safe(st)
    ensures Safe(res.0) && |res.1| == |evs|
  {
    if evs == [] then (st, []) else
    var (st1, h) := Run(st, evs[..|evs| - 1]);
    var ev := evs[|evs| - 1];
    var (st2, r) := Handle(st1, ev);
    HandleSafe(st1, ev);
    (st2, h + [Entry(ev, r)])
  }

  predicate IsFresh(st: Store) {
    st in {Convert(1, map[], map[]), Ha(FRESH), Replicated(FRESH, [])}
  }

  /** A store that agrees with the history stores a fault exactly when the alert is new. */
  lemma NewIsStored(st: Store, l: Ledger, ev: Event)
    requires Matches(ViewOf(st), l)
    ensures Safe(st)
    ensures Handle(st, ev).1.status == Stored <==>
            ev.alert.knownSeverity && !ev.alert.resolved && l.active(FaultName(ev.alert)) == 0
  {
    MatchesSafe(st, l);
    StoredForName(st, l, FaultName(ev.alert));
  }

  lemma StepMatches(st: Store, h: seq<Entry>, ev: Event)
    requires Matches(ViewOf(st), LedgerOf(h)) && Safe(st)
    requires Stores(h + [Entry(ev, Handle(st, ev).1)]) <= INT32_MAX
    ensures InRange(LedgerOf(h), ev.alert) && Handle(st, ev).1 == Expected(LedgerOf(h), ev.alert)
    ensures Matches(ViewOf(Handle(st, ev).0), LedgerOf(h + [Entry(ev, Handle(st, ev).1)]))
  {
    var l, r := LedgerOf(h), Handle(st, ev).1;
    Snoc(h, Entry(ev, r));
    NewIsStored(st, l, ev);
    HandleView(st, l, ev);
    ViewAfterMatches(ViewOf(st), l, ev, st.Convert?, LedgerOf(h + [Entry(ev, r)]));
  }

  lemma StoresSnoc(h: seq<Entry>, e: Entry)
    ensures Stores(h) <= Stores(h + [e])
  {
    assert (h + [e])[..|h|] == h;
  }

  /** In a run that stores at most 2^31 - 1 faults, the store agrees with the history. */
  lemma {:induction false} RunMatches(st: Store, evs: seq<Event>)
    requires IsFresh(st) && Stores(Run(st, evs).1) <= INT32_MAX
    ensures var (st1, h) := Run(st, evs); Matches(ViewOf(st1), LedgerOf(h))
  {
    if evs != [] {
      var init, ev := evs[..|evs| - 1], evs[|evs| - 1];
      var (st1, h) := Run(st, init);
      StoresSnoc(h, Entry(ev, Handle(st1, ev).1));
      RunMatches(st, init);
      StepMatches(st1, h, ev);
    }
  }

  lemma {:induction false} RunPrefix(st: Store, evs: seq<Event>, i: nat)
    requires Safe(st) && i <= |evs|
    ensures Run(st, evs).1[..i] == Run(st, evs[..i]).1
    ensures Stores(Run(st, evs[..i]).1) <= Stores(Run(st, evs).1)
  {
    if i == |evs| {
      assert evs[..i] == evs;
    } else {
      var init, ev := evs[..|evs| - 1], evs[|evs| - 1];
      RunPrefix(st, init, i);
      assert init[..i] == evs[..i];
      var (st1, h) := Run(st, init);
      var e := Entry(ev, Handle(st1, ev).1);
      StoresSnoc(h, e);
      assert Run(st, evs).1 == h + [e];
      assert (h + [e])[..i] == h[..i];
    }
  }

  /** Entry i of a run is what the store does after the first i events. */
  lemma EntryAt(st: Store, evs: seq<Event>, i: nat)
    requires Safe(st) && i < |evs|
    ensures var h := Run(st, evs).1;
            var (st1, h1) := Run(st, evs[..i]);
            && h[..i] == h1 && h[i] == Entry(evs[i], Handle(st1, evs[i]).1)
            && Stores(h1) <= Stores(h) && Stores(h1 + [h[i]]) <= Stores(h)
  {
    RunPrefix(st, evs, i);
    RunPrefix(st, evs, i + 1);
    assert evs[..i + 1][..i] == evs[..i];
    var h := Run(st, evs).1;
    var (st1, h1) := Run(st, evs[..i]);
    assert h[..i + 1] == h1 + [Entry(evs[i], Handle(st1, evs[i]).1)];
    assert h[i] == h[..i + 1][i];
  }

  /** Every answer of a run on a fresh store is the one that the history before it determines:
      status, id, sequence and start epoch. */
  lemma HistoryDecides(st: Store, evs: seq<Event>, i: nat)
    requires IsFresh(st) && Stores(Run(st, evs).1) <= INT32_MAX && i < |evs|
    ensures var h := Run(st, evs).1;
            && h[i].ev == evs[i]
            && InRange(LedgerOf(h[..i]), evs[i].alert)
            && h[i].r == Expected(LedgerOf(h[..i]), evs[i].alert)
  {
    EntryAt(st, evs, i);
    RunMatches(st, evs[..i]);
    StepMatches(Run(st, evs[..i]).0, Run(st, evs[..i]).1, evs[i]);
  }

  /** The manager's own store, the agent state and the replicated agent state give the same
      answers to the same alerts. */
  lemma {:induction false} StoresIndistinguishable(a: Store, b: Store, evs: seq<Event>)
    requires IsFresh(a) && IsFresh(b) && Stores(Run(a, evs).1) <= INT32_MAX
    ensures Run(a, evs).1 == Run(b, evs).1
  {
    if evs != [] {
      var init, ev := evs[..|evs| - 1], evs[|evs| - 1];
      RunPrefix(a, evs, |init|);
      StoresIndistinguishable(a, b, init);
      RunMatches(a, init);
      RunMatches(b, init);
      SameAnswer(Run(a, init).0, Run(b, init).0, Run(a, init).1, ev);
    }
  }

  lemma SameAnswer(a: Store, b: Store, h: seq<Entry>, ev: Event)
    requires Matches(ViewOf(a), LedgerOf(h)) && Matches(ViewOf(b), LedgerOf(h)) && Safe(a) && Safe(b)
    requires Stores(h + [Entry(ev, Handle(a, ev).1)]) <= INT32_MAX
    ensures Handle(a, ev).1 == Handle(b, ev).1
  {
    StepMatches(a, h, ev);
    HandleView(b, LedgerOf(h), ev);
  }
}
