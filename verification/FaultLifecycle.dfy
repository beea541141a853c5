/** Consequences for the life of a fault, over whole runs on any of the three stores. */
module FaultLifecycle {
  import opened Prelude
  import opened FaultManager
  import opened FaultRuns

  /** Entry i is the one that the entries before it determine. */
  ghost predicate Follows(h: seq<Entry>, i: nat)
    requires i < |h|
  {
    InRange(LedgerOf(h[..i]), h[i].ev.alert) && h[i].r == Expected(LedgerOf(h[..i]), h[i].ev.alert)
  }

  ghost predicate IsHistory(h: seq<Entry>) { forall i | 0 <= i < |h| :: Follows(h, i) }

  /** What the runs of the manager produce. */
  lemma RunsAreHistories(st: Store, evs: seq<Event>)
    requires IsFresh(st) && Stores(Run(st, evs).1) <= INT32_MAX
    ensures IsHistory(Run(st, evs).1)
  {
    var h := Run(st, evs).1;
    forall i | 0 <= i < |h| ensures Follows(h, i) {
      HistoryDecides(st, evs, i);
    }
  }

  lemma PrefixIsHistory(h: seq<Entry>, i: nat)
    requires IsHistory(h) && i <= |h|
    ensures IsHistory(h[..i])
  {
    forall k | 0 <= k < i ensures Follows(h[..i], k) {
      assert Follows(h, k) && h[..i][..k] == h[..k];
    }
  }

  lemma {:induction false} StoresMonotone(h: seq<Entry>, i: nat, j: nat)
    requires i <= j <= |h|
    ensures Stores(h[..i]) <= Stores(h[..j])
    decreases j
  {
    if i < j {
      StoresMonotone(h, i, j - 1);
      assert h[..j][..j - 1] == h[..j - 1];
    }
  }

  /** Ids are 1, 2, 3, ... in the order of storing, so none is given twice. */
  lemma IdsAreCounted(h: seq<Entry>, i: nat)
    requires IsHistory(h) && i < |h| && h[i].r.status == Stored
    ensures h[i].r.id == 1 + Stores(h[..i]) == Stores(h[..i + 1])
  {
    assert Follows(h, i);
    assert h[..i + 1][..i] == h[..i];
  }

  lemma IdsIncrease(h: seq<Entry>, i: nat, j: nat)
    requires IsHistory(h) && i < j < |h| && h[i].r.status == Stored && h[j].r.status == Stored
    ensures h[i].r.id < h[j].r.id
  {
    IdsAreCounted(h, i);
    IdsAreCounted(h, j);
    StoresMonotone(h, i + 1, j);
  }

  ghost predicate IdsGrow(h: seq<Entry>) {
    forall i, j | 0 <= i < j < |h| && h[i].r.status == Stored && h[j].r.status == Stored :: h[i].r.id < h[j].r.id
  }

  lemma HistoryIdsGrow(h: seq<Entry>)
    requires IsHistory(h)
    ensures IdsGrow(h)
  {
    forall i, j | 0 <= i < j < |h| && h[i].r.status == Stored && h[j].r.status == Stored
      ensures h[i].r.id < h[j].r.id
    {
      IdsIncrease(h, i, j);
    }
  }

  /** The entry that stored the fault now active under a name. */
  lemma {:induction false} Origin(h: seq<Entry>, name: string) returns (k: nat)
    requires IsHistory(h) && ActiveId(h, name) != 0
    ensures k < |h| && h[k].r.status == Stored && h[k].r.id == ActiveId(h, name)
    ensures FaultName(h[k].ev.alert) == name
  {
    var n := |h| - 1;
    if FaultName(h[n].ev.alert) == name && h[n].r.status == Stored {
      k := n;
    } else {
      PrefixIsHistory(h, n);
      k := Origin(h[..n], name);
    }
  }

  lemma SameOrigin(h: seq<Entry>, i: nat, k: nat)
    requires IsHistory(h) && i < |h| && k < |h|
    requires h[i].r.status == Stored && h[k].r.status == Stored && h[i].r.id == h[k].r.id
    ensures i == k
  {
    if i < k {
      IdsIncrease(h, i, k);
    } else if k < i {
      IdsIncrease(h, k, i);
    }
  }

  /** Two names that are active together have different ids, and neither id is 0. */
  lemma ActiveNamesAreInjective(h: seq<Entry>, n: string, m: string)
    requires IsHistory(h) && ActiveId(h, n) == ActiveId(h, m) != 0
    ensures n == m
  {
    var i := Origin(h, n);
    var k := Origin(h, m);
    SameOrigin(h, i, k);
  }

  lemma {:induction false} StartStays(h: seq<Entry>, i: nat, j: nat)
    requires IdsGrow(h) && i < j <= |h| && h[i].r.status == Stored
    ensures StartOf(h[..j], h[i].r.id) == h[i].ev.alert.epoch
    decreases j
  {
    assert h[..j][..j - 1] == h[..j - 1];
    if i < j - 1 {
      StartStays(h, i, j - 1);
    }
  }

  /** From storing to clearing, a fault's events carry one name and one start epoch, and the
      sequence counts the committed events before. */
  lemma OneLife(h: seq<Entry>, i: nat, j: nat)
    requires IsHistory(h) && i < j < |h| && h[i].r.status == Stored && Sent(h[j].r) && h[j].r.id == h[i].r.id
    ensures h[j].r.status != Stored
    ensures FaultName(h[j].ev.alert) == FaultName(h[i].ev.alert)
    ensures h[j].r.startEpoch == h[i].ev.alert.epoch == h[i].r.startEpoch
    ensures h[j].r.sequence == SnAfter(Commits(h[..j], h[i].r.id))
  {
    assert Follows(h, i) && Follows(h, j);
    if h[j].r.status == Stored {
      IdsIncrease(h, i, j);
    } else {
      var k := OriginOfSent(h, j);
      SameOrigin(h, i, k);
      HistoryIdsGrow(h);
      StartStays(h, i, j);
    }
  }

  /** The entry that stored the fault of a repeated or clearing event. */
  lemma OriginOfSent(h: seq<Entry>, k: nat) returns (i: nat)
    requires IsHistory(h) && k < |h| && h[k].r.status in {AlreadyExist, Cleared}
    ensures i < k && h[i].r.status == Stored && h[i].r.id == h[k].r.id > 0
    ensures FaultName(h[i].ev.alert) == FaultName(h[k].ev.alert)
  {
    assert Follows(h, k);
    PrefixIsHistory(h, k);
    i := Origin(h[..k], FaultName(h[k].ev.alert));
    assert Follows(h, i);
  }

  lemma GoneAtOnce(h: seq<Entry>, k: nat, name: string)
    requires IsHistory(h) && k < |h| && h[k].r.status == Cleared && h[k].ev.commit
    ensures ActiveId(h[..k + 1], name) != h[k].r.id
  {
    assert Follows(h, k);
    PrefixIsHistory(h, k);
    assert h[..k + 1][..k] == h[..k];
    if ActiveId(h[..k], name) == h[k].r.id {
      ActiveNamesAreInjective(h[..k], name, FaultName(h[k].ev.alert));
    }
  }

  /** The id stored at i, once not active under a name, is never active under it again. */
  lemma {:induction false} GoneStaysGone(h: seq<Entry>, i: nat, k: nat, j: nat, name: string)
    requires IdsGrow(h) && i < k <= j <= |h| && h[i].r.status == Stored && h[i].r.id > 0
    requires ActiveId(h[..k], name) != h[i].r.id
    ensures ActiveId(h[..j], name) != h[i].r.id
    decreases j
  {
    if k < j {
      GoneStaysGone(h, i, k, j - 1, name);
      assert h[..j][..j - 1] == h[..j - 1];
    }
  }

  /** After a committed clear, no later event mentions the id. */
  lemma ClearedForGood(h: seq<Entry>, k: nat, j: nat)
    requires IsHistory(h) && k < j < |h| && h[k].r.status == Cleared && h[k].ev.commit && Sent(h[j].r)
    ensures h[j].r.id != h[k].r.id
  {
    var i := OriginOfSent(h, k);
    HistoryIdsGrow(h);
    if h[j].r.status != Stored {
      var name := FaultName(h[j].ev.alert);
      GoneAtOnce(h, k, name);
      GoneStaysGone(h, i, k + 1, j, name);
      assert Follows(h, j);
    }
  }

  /******* The bound on the number of faults *******/

  /** After any run that stored 2^31 - 1 faults, the next new fault has a negative id. */
  lemma NumberingWraps(st: Store, evs: seq<Event>, a: Alert)
    requires IsFresh(st) && Stores(Run(st, evs).1) == INT32_MAX
    requires a.knownSeverity && !a.resolved && ActiveId(Run(st, evs).1, FaultName(a)) == 0
    ensures var r := AlertToFault(Run(st, evs).0, a, ALL_ACKED).1; r.status == Stored && r.id == -0x8000_0000
  {
    var (st1, h) := Run(st, evs);
    RunMatches(st, evs);
    assert LedgerOf(h).active(FaultName(a)) == 0;
    assert st1.FaultInStorage(FaultName(a)) == 0;
  }

  /** There are such runs: raising and clearing one fault n times stores n faults. */
  lemma {:induction false} Storing(st: Store, n: nat, a: Alert) returns (evs: seq<Event>)
    requires IsFresh(st) && n <= INT32_MAX && a.knownSeverity && !a.resolved
    ensures Stores(Run(st, evs).1) == n && ActiveId(Run(st, evs).1, FaultName(a)) == 0
  {
    evs := [];
    if n > 0 {
      var init := Storing(st, n - 1, a);
      RunMatches(st, init);
      evs := init + [Event(a, true)];
      OneMore(st, init, Event(a, true));
      RunMatches(st, evs);
      var clear := Event(a.(resolved := true), true);
      OneMore(st, evs, clear);
      evs := evs + [clear];
    }
  }

  lemma OneMore(st: Store, evs: seq<Event>, ev: Event)
    requires IsFresh(st) && Stores(Run(st, evs).1) + (if ev.alert.resolved then 0 else 1) <= INT32_MAX
    requires ev.commit && ev.alert.knownSeverity
    requires ActiveId(Run(st, evs).1, FaultName(ev.alert)) == 0 <==> !ev.alert.resolved
    ensures var h, h1 := Run(st, evs).1, Run(st, evs + [ev]).1;
            && Stores(h1) == Stores(h) + (if ev.alert.resolved then 0 else 1)
            && (ActiveId(h1, FaultName(ev.alert)) == 0 <==> ev.alert.resolved)
  {
    var (st1, h) := Run(st, evs);
    RunMatches(st, evs);
    assert (evs + [ev])[..|evs|] == evs;
    var e := Entry(ev, Handle(st1, ev).1);
    assert Run(st, evs + [ev]).1 == h + [e];
    OneMoreEntry(st1, h, ev);
  }

  lemma OneMoreEntry(st: Store, h: seq<Entry>, ev: Event)
    requires Matches(ViewOf(st), LedgerOf(h)) && Stores(h) + (if ev.alert.resolved then 0 else 1) <= INT32_MAX
    requires Safe(st) && ev.commit && ev.alert.knownSeverity
    requires ActiveId(h, FaultName(ev.alert)) == 0 <==> !ev.alert.resolved
    ensures var h1 := h + [Entry(ev, Handle(st, ev).1)];
            && Stores(h1) == Stores(h) + (if ev.alert.resolved then 0 else 1)
            && (ActiveId(h1, FaultName(ev.alert)) == 0 <==> ev.alert.resolved)
  {
    assert LedgerOf(h).active(FaultName(ev.alert)) == ActiveId(h, FaultName(ev.alert));
    HandleView(st, LedgerOf(h), ev);
    var e := Entry(ev, Handle(st, ev).1);
    assert (h + [e])[..|h|] == h;
  }
}
