/** The pair of collectors behind one connection (VESPA/govel/cluster.go): a retry loop that
    switches collector and resets its own counter. The cluster has a single caller, and the
    collector id that the caller passes is this cluster's. */
module Failover {
  import opened Prelude
  import opened Evel
  import opened TimeGrid

  datatype Side = Primary | Backup

  function Other(s: Side): Side { if s == Primary then Backup else Primary }

  /** The fixed part of a cluster: the limit of missed posts and the collectors there are. */
  datatype Setup = Setup(maxMissed: int, hasPrimary: bool, hasBackup: bool, primary: Config, backup: Config) {
    function ConfigOf(s: Side): Config { if s == Primary then primary else backup }
  }

  /** `switchCollector` */
  function Switch(u: Setup, active: Side): Side {
    if active == Primary || !u.hasPrimary then
      if u.hasBackup then Backup else active
    else Primary
  }

  /** The retry loop: its counter and the collector in use. */
  datatype Loop = Loop(nbRetry: int, active: Side)

  /** A failed attempt, and the increment at the end of the iteration. */
  function Miss(u: Setup, l: Loop): Loop {
    if l.nbRetry == u.maxMissed then Loop(0 + 1, Switch(u, l.active)) else Loop(l.nbRetry + 1, l.active)
  }

  /** The loop before attempt n when all attempts before failed. */
  function LoopAt(u: Setup, start: Side, n: nat): Loop {
    if n == 0 then Loop(0, start) else Miss(u, LoopAt(u, start, n - 1))
  }

  lemma DivStep(x: nat, m: int)
    requires m >= 1
    ensures if x % m == m - 1 then (x + 1) / m == x / m + 1 && (x + 1) % m == 0
            else (x + 1) / m == x / m && (x + 1) % m == x % m + 1
  {
    var q, r := x / m, x % m;
    assert x + 1 == m * q + (r + 1);
    if r == m - 1 {
      assert m * (q + 1) + 0 == m * q + m;
      DivModUnique(m, q + 1, 0);
    } else {
      DivModUnique(m, q, r + 1);
    }
  }

  /** With both collectors and a limit M of at least one: attempt 0 uses the starting collector,
      attempt n the starting or the other one by the parity of (n - 1) / M; and the loop never
      gives up. */
  lemma {:induction false} Schedule(u: Setup, start: Side, n: nat)
    requires u.maxMissed >= 1 && u.hasPrimary && u.hasBackup
    ensures var l := LoopAt(u, start, n);
            && 0 <= l.nbRetry <= u.maxMissed
            && (n == 0 ==> l == Loop(0, start))
            && (n >= 1 ==>
                  && l.nbRetry == (n - 1) % u.maxMissed + 1
                  && l.active == if (n - 1) / u.maxMissed % 2 == 0 then start else Other(start))
  {
    if n >= 1 {
      Schedule(u, start, n - 1);
      if n >= 2 {
        DivStep(n - 2, u.maxMissed);
      } else {
        DivModUnique(u.maxMissed, 0, 0);
      }
    }
  }

  /** With one collector the loop stays on it. */
  lemma {:induction false} SingleCollector(u: Setup, start: Side, n: nat)
    requires u.maxMissed >= 1 && u.hasPrimary != u.hasBackup && (start == Primary <==> u.hasPrimary)
    ensures LoopAt(u, start, n).active == start && 0 <= LoopAt(u, start, n).nbRetry <= u.maxMissed
  {
    if n >= 1 {
      SingleCollector(u, start, n - 1);
    }
  }

  /******* Posting a batch through the loop *******/

  /** The loop, the batch as stamped so far, the requests made, and what each side received. */
  datatype World = World(loop: Loop, batch: Batch, requests: nat, primary: Batch, backup: Batch) {
    function Stream(s: Side): Batch { if s == Primary then primary else backup }
  }

  function Attempt(u: Setup, w: World, net: nat -> Delivery): Posted {
    Post(u.ConfigOf(w.loop.active), w.batch, net, w.requests)
  }

  function Tried(u: Setup, w: World, net: nat -> Delivery): World {
    var p := Attempt(u, w, net);
    World(w.loop, StampAll(w.batch, u.ConfigOf(w.loop.active)), p.next,
          if w.loop.active == Primary then w.primary + Flatten(p.bodies) else w.primary,
          if w.loop.active == Backup then w.backup + Flatten(p.bodies) else w.backup)
  }

  /** After a failed attempt. */
  function Missed(u: Setup, w: World, net: nat -> Delivery): World {
    Tried(u, w, net).(loop := Miss(u, w.loop))
  }

  /** The world before attempt k when all attempts before failed. */
  function WorldAt(u: Setup, w: World, net: nat -> Delivery, k: nat): World {
    if k == 0 then w else Missed(u, WorldAt(u, w, net, k - 1), net)
  }

  /** What attempt k sent to the collector that it used. */
  function Contribution(u: Setup, w: World, net: nat -> Delivery, k: nat): Batch {
    Flatten(Attempt(u, WorldAt(u, w, net, k), net).bodies)
  }

  /** Everything that the first k attempts sent to one side. */
  function Received(u: Setup, w: World, net: nat -> Delivery, side: Side, k: nat): Batch {
    if k == 0 then [] else
    Received(u, w, net, side, k - 1) +
    if WorldAt(u, w, net, k - 1).loop.active == side then Contribution(u, w, net, k - 1) else []
  }

  lemma {:induction false} StreamsAreReceived(u: Setup, w: World, net: nat -> Delivery, k: nat, s: Side)
    ensures WorldAt(u, w, net, k).Stream(s) == w.Stream(s) + Received(u, w, net, s, k)
  {
    if k > 0 {
      StreamsAreReceived(u, w, net, k - 1, s);
      Associative(w.Stream(s), Received(u, w, net, s, k - 1), Contribution(u, w, net, k - 1));
      assert WorldAt(u, w, net, k).Stream(s) == Tried(u, WorldAt(u, w, net, k - 1), net).Stream(s);
    }
  }

  lemma {:induction false} WorldFollowsLoop(u: Setup, w: World, net: nat -> Delivery, k: nat)
    requires w.loop.nbRetry == 0
    ensures WorldAt(u, w, net, k).loop == LoopAt(u, w.loop.active, k)
  {
    if k > 0 {
      WorldFollowsLoop(u, w, net, k - 1);
    }
  }

  /******* What the events carry *******/

  /** The collector that attempt j uses, all before having failed. */
  function Used(u: Setup, start: Side, j: nat): Config { u.ConfigOf(LoopAt(u, start, j).active) }

  /** A header field after the first k attempts: its own value, or the first value that is not empty
      of the collectors that were tried. */
  function NameAfter(u: Setup, start: Side, own: string, k: nat): string {
    if k == 0 then own else
    var name := NameAfter(u, start, own, k - 1);
    if name != "" then name else Used(u, start, k - 1).entityName
  }

  function IdAfter(u: Setup, start: Side, own: string, k: nat): string {
    if k == 0 then own else
    var id := IdAfter(u, start, own, k - 1);
    if id != "" then id else Used(u, start, k - 1).entityId
  }

  /** The batch with the header fields that k attempts have filled in. */
  function Headed(u: Setup, start: Side, b: Batch, k: nat): (r: Batch)
    ensures |r| == |b|
  {
    seq(|b|, i requires 0 <= i < |b| =>
      Event(b[i].body, NameAfter(u, start, b[i].entityName, k), IdAfter(u, start, b[i].entityId, k)))
  }

  /** A field keeps what it has, or takes what the collector tried first gives, if it gives anything;
      later attempts and switches do not change it. */
  lemma {:induction false} FirstCollectorNames(u: Setup, start: Side, own: string, k: nat)
    requires k >= 1
    ensures own != "" || u.ConfigOf(start).entityName != "" ==>
            NameAfter(u, start, own, k) == if own != "" then own else u.ConfigOf(start).entityName
    ensures own != "" || u.ConfigOf(start).entityId != "" ==>
            IdAfter(u, start, own, k) == if own != "" then own else u.ConfigOf(start).entityId
  {
    if k > 1 {
      FirstCollectorNames(u, start, own, k - 1);
    } else {
      assert NameAfter(u, start, own, 0) == own && IdAfter(u, start, own, 0) == own;
    }
  }

  lemma {:induction false} BatchIsHeaded(u: Setup, w: World, net: nat -> Delivery, k: nat)
    requires w.loop.nbRetry == 0
    ensures WorldAt(u, w, net, k).batch == Headed(u, w.loop.active, w.batch, k)
  {
    if k == 0 {
      assert Headed(u, w.loop.active, w.batch, 0) == w.batch;
    } else {
      BatchIsHeaded(u, w, net, k - 1);
      WorldFollowsLoop(u, w, net, k - 1);
      HeadedOnce(u, w.loop.active, w.batch, k - 1);
    }
  }

  lemma HeadedOnce(u: Setup, start: Side, b: Batch, k: nat)
    ensures StampAll(Headed(u, start, b, k), Used(u, start, k)) == Headed(u, start, b, k + 1)
  {
    var h, c := Headed(u, start, b, k), Used(u, start, k);
    StampsFill(h, c);
    forall i | 0 <= i < |b| ensures StampAll(h, c)[i] == Headed(u, start, b, k + 1)[i] {}
  }

  ghost predicate AllFailed(u: Setup, w: World, net: nat -> Delivery, k: nat) {
    k > 0 ==> AllFailed(u, w, net, k - 1) && Attempt(u, WorldAt(u, w, net, k - 1), net).outcome == Failed
  }

  /** Attempt k ends the loop: the ones before failed, and it did not. */
  ghost predicate EndsAt(u: Setup, w: World, net: nat -> Delivery, k: nat) {
    AllFailed(u, w, net, k) && Attempt(u, WorldAt(u, w, net, k), net).outcome != Failed
  }

  /** How the loop returns r in world e. A negative limit: without an attempt. A limit of zero:
      after one attempt, on the other collector if it failed. Otherwise: only at an attempt that
      does not fail. */
  ghost predicate Ended(u: Setup, w: World, net: nat -> Delivery, r: Outcome, last: nat, e: World) {
    if u.maxMissed < 0 then r == Ok && e == w
    else if r != Failed then
      && EndsAt(u, w, net, last) && (u.maxMissed == 0 ==> last == 0)
      && r == Attempt(u, WorldAt(u, w, net, last), net).outcome
      && e == Tried(u, WorldAt(u, w, net, last), net)
    else u.maxMissed == 0 && Attempt(u, w, net).outcome == Failed && e == WorldAt(u, w, net, 1)
  }

  /** All attempts so far failed, and the loop goes on. */
  ghost predicate StillRuns(u: Setup, w: World, net: nat -> Delivery, last: nat, e: World) {
    AllFailed(u, w, net, last) && e == WorldAt(u, w, net, last) && e.loop.nbRetry <= u.maxMissed
  }

  /** So the loop runs on only past attempts that failed: it ends at the first that does not. */
  lemma {:induction false} RunsPastFailures(u: Setup, w: World, net: nat -> Delivery, last: nat, k: nat)
    requires AllFailed(u, w, net, last) && k < last
    ensures Attempt(u, WorldAt(u, w, net, k), net).outcome == Failed
  {
    if k < last - 1 {
      RunsPastFailures(u, w, net, last - 1, k);
    }
  }

  /** The counter stays within a limit of at least one, and exceeds a limit of zero after one miss. */
  lemma {:induction false} CounterAt(u: Setup, w: World, net: nat -> Delivery, k: nat)
    requires w.loop.nbRetry == 0
    ensures u.maxMissed >= 1 ==> 0 <= WorldAt(u, w, net, k).loop.nbRetry <= u.maxMissed
    ensures u.maxMissed == 0 && k <= 1 ==> WorldAt(u, w, net, k).loop.nbRetry == k
  {
    if k > 0 {
      CounterAt(u, w, net, k - 1);
    }
  }

  /** How the loop leaves attempt `last`, by its outcome. */
  lemma EndsAtLast(u: Setup, w: World, net: nat -> Delivery, last: nat)
    requires w.loop.nbRetry == 0 && AllFailed(u, w, net, last)
    requires 0 <= u.maxMissed && WorldAt(u, w, net, last).loop.nbRetry <= u.maxMissed
    requires u.maxMissed == 0 ==> last <= 1
    ensures var v := WorldAt(u, w, net, last);
            var o := Attempt(u, v, net).outcome;
            && (o != Failed ==> Ended(u, w, net, o, last, Tried(u, v, net)))
            && (o == Failed ==> AllFailed(u, w, net, last + 1) && WorldAt(u, w, net, last + 1) == Missed(u, v, net))
            && (u.maxMissed == 0 ==> last == 0)
  {
    CounterAt(u, w, net, last);
  }

  /** How the loop leaves by its condition. */
  lemma EndsByCounter(u: Setup, w: World, net: nat -> Delivery, last: nat)
    requires w.loop.nbRetry == 0 && AllFailed(u, w, net, last)
    requires u.maxMissed < WorldAt(u, w, net, last).loop.nbRetry
    requires (u.maxMissed < 0 ==> last == 0) && (u.maxMissed == 0 ==> last <= 1)
    ensures Ended(u, w, net, if u.maxMissed < 0 then Ok else Failed, last, WorldAt(u, w, net, last))
  {
    CounterAt(u, w, net, last);
  }

  /** What attempt j sends is a prefix of the batch as headed by then, all of it if it succeeds. */
  lemma PrefixContribution(u: Setup, w: World, net: nat -> Delivery, j: nat)
    requires w.loop.nbRetry == 0
    ensures Contribution(u, w, net, j) <= Headed(u, w.loop.active, w.batch, j + 1)
    ensures Attempt(u, WorldAt(u, w, net, j), net).outcome == Ok ==>
            Contribution(u, w, net, j) == Headed(u, w.loop.active, w.batch, j + 1)
  {
    var v := WorldAt(u, w, net, j);
    BatchIsHeaded(u, w, net, j);
    WorldFollowsLoop(u, w, net, j);
    HeadedOnce(u, w.loop.active, w.batch, j);
    SplitConserves(u.ConfigOf(v.loop.active), v.batch, net, v.requests);
  }

  /** If the loop ends with success at attempt k, the stream of the collector used last ends with
      the whole batch in order; each attempt before added only a prefix of the batch to the collector
      that it used; and nothing else was sent. All events carry their own bodies, and in the header
      what they had or what the collectors tried by then have filled in. */
  lemma EndToEndDelivery(u: Setup, w: World, net: nat -> Delivery, k: nat)
    requires w.loop.nbRetry == 0
    requires EndsAt(u, w, net, k) && Attempt(u, WorldAt(u, w, net, k), net).outcome == Ok
    ensures var v, e := WorldAt(u, w, net, k), Tried(u, WorldAt(u, w, net, k), net);
            var last := e.loop.active;
            && last == LoopAt(u, w.loop.active, k).active
            && e.Stream(last) == v.Stream(last) + Headed(u, w.loop.active, w.batch, k + 1)
            && (forall s: Side :: e.Stream(s) == w.Stream(s) + Received(u, w, net, s, k + 1))
    ensures forall j | 0 <= j < k :: Contribution(u, w, net, j) <= Headed(u, w.loop.active, w.batch, j + 1)
  {
    WorldFollowsLoop(u, w, net, k);
    forall s: Side
      ensures Tried(u, WorldAt(u, w, net, k), net).Stream(s) == w.Stream(s) + Received(u, w, net, s, k + 1)
    {
      StreamsAreReceived(u, w, net, k + 1, s);
    }
    var v := WorldAt(u, w, net, k);
    PrefixContribution(u, w, net, k);
    assert Tried(u, v, net).Stream(v.loop.active) ==
           v.Stream(v.loop.active) + Headed(u, w.loop.active, w.batch, k + 1);
    forall j | 0 <= j < k ensures Contribution(u, w, net, j) <= Headed(u, w.loop.active, w.batch, j + 1) {
      PrefixContribution(u, w, net, j);
    }
  }

  /** With a limit of zero: after one failed attempt the loop stands at the other collector, if there
      are two, which has received nothing; the first has received a prefix of the batch. */
  lemma LimitZero(u: Setup, w: World, net: nat -> Delivery)
    requires u.maxMissed == 0 && w.loop.nbRetry == 0 && (u.hasPrimary || u.hasBackup)
    requires if w.loop.active == Primary then u.hasPrimary else u.hasBackup
    ensures var e, start := WorldAt(u, w, net, 1), w.loop.active;
            && (e.loop.active == if u.hasPrimary && u.hasBackup then Other(start) else start)
            && e.Stream(Other(start)) == w.Stream(Other(start))
            && e.Stream(start) == w.Stream(start) + Contribution(u, w, net, 0)
            && Contribution(u, w, net, 0) <= Headed(u, start, w.batch, 1)
  {
    PrefixContribution(u, w, net, 0);
    assert WorldAt(u, w, net, 1) == Missed(u, w, net);
  }

  /******* The cluster as an object *******/

  class Cluster {
    const maxMissed: int
    const primary: Collector?
    const backup: Collector?
    var active: Collector

    ghost predicate Valid()
      reads this
    {
      (active == primary || active == backup) && primary != backup
    }

    ghost function Fixed(): Setup
      reads this
    {
      Setup(maxMissed, primary != null, backup != null,
            if primary != null then primary.config else active.config,
            if backup != null then backup.config else active.config)
    }

    ghost function ActiveSide(): Side
      reads this
    {
      if active == primary then Primary else Backup
    }

    ghost function Now(nbRetry: int, batch: Batch, requests: nat): World
      reads this, primary, backup
    {
      World(Loop(nbRetry, ActiveSide()), batch, requests,
            if primary != null then primary.received else [],
            if backup != null then backup.received else [])
    }

    constructor (active: Collector, primary: Collector?, backup: Collector?, maxMissed: int)
      requires (active == primary || active == backup) && primary != backup
      ensures Valid() && this.active == active && this.primary == primary && this.backup == backup
      ensures this.maxMissed == maxMissed
    {
      this.active, this.primary, this.backup, this.maxMissed := active, primary, backup, maxMissed;
    }

    method SwitchCollector()
      requires Valid()
      modifies this`active
      ensures Valid() && Fixed() == old(Fixed())
      ensures ActiveSide() == Switch(Fixed(), old(ActiveSide()))
    {
      if active == primary || primary == null {
        if backup != null {
          active := backup;
        }
      } else {
        active := primary;
      }
    }

    /** Returns Ok where the code returns nil. With a limit of at least one the loop need not end:
        the method looks at its first `patience` attempts, and returns nothing if it still runs. */
    method PostBatch(batch: array<Event>, net: nat -> Delivery, n: nat, patience: nat)
      returns (r: Option<Outcome>, requests: nat, last: nat, ghost nb: int)
      requires Valid()
      modifies this`active, primary, backup, batch
      ensures Valid() && Fixed() == old(Fixed())
      ensures r.Some? ==> Ended(Fixed(), old(Now(0, batch[..], n)), net, r.value, last, Now(nb, batch[..], requests))
      ensures r.None? ==> last == patience
                          && StillRuns(Fixed(), old(Now(0, batch[..], n)), net, last, Now(nb, batch[..], requests))
    {
      ghost var u, w := Fixed(), Now(0, batch[..], n);
      var nbRetry := 0;
      requests, last, nb := n, 0, 0;
      while nbRetry <= maxMissed
        invariant Valid() && Fixed() == u && nb == nbRetry && last <= patience
        invariant Now(nb, batch[..], requests) == WorldAt(u, w, net, last)
        invariant AllFailed(u, w, net, last)
        invariant maxMissed < 0 ==> last == 0
        invariant maxMissed == 0 ==> last <= 1
        decreases patience - last
      {
        EndsAtLast(u, w, net, last);
        if last == patience {
          return None, requests, last, nb;
        }
        var outcome;
        outcome, requests, nbRetry := Iterate(batch, net, requests, nbRetry);
        if outcome != Failed {
          return Some(outcome), requests, last, nb;
        }
        last := last + 1;
        nb := nbRetry;
      }
      EndsByCounter(u, w, net, last);
      r := Some(if maxMissed < 0 then Ok else Failed);
    }

    /** One iteration of the loop: on failure, the counter it goes on with. */
    method Iterate(batch: array<Event>, net: nat -> Delivery, n: nat, nb: int)
      returns (r: Outcome, requests: nat, next: int)
      requires Valid()
      modifies this`active, primary, backup, batch
      ensures Valid() && Fixed() == old(Fixed())
      ensures r == Attempt(Fixed(), old(Now(nb, batch[..], n)), net).outcome
      ensures r != Failed ==> Now(nb, batch[..], requests) == Tried(Fixed(), old(Now(nb, batch[..], n)), net)
      ensures r == Failed ==> Now(next, batch[..], requests) == Missed(Fixed(), old(Now(nb, batch[..], n)), net)
    {
      next := nb;
      r, requests := Try(batch, net, n, nb);
      if r == Failed {
        if nb == maxMissed {
          SwitchCollector();
          next := 0;
        }
        next := next + 1;
      }
    }

    /** One call of the posting function on the collector in use. */
    method Try(batch: array<Event>, net: nat -> Delivery, n: nat, ghost nb: int)
      returns (r: Outcome, requests: nat)
      requires Valid()
      modifies primary, backup, batch
      ensures Valid() && active == old(active) && Fixed() == old(Fixed())
      ensures r == Attempt(Fixed(), old(Now(nb, batch[..], n)), net).outcome
      ensures Now(nb, batch[..], requests) == Tried(Fixed(), old(Now(nb, batch[..], n)), net)
    {
      ghost var b := batch[..];
      assert batch[0..batch.Length] == b;
      r, requests := active.PostBatch(batch, 0, batch.Length, net, n);
      assert batch[..] == StampAll(b, active.config);
    }
  }
}
