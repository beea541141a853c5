/** Posting a batch to one VES collector (VESPA/govel/evel.go): halve what is too large. */
module Evel {

  /** `body` stands for everything in the event but the two header fields filled in on posting. */
  datatype Event = Event(body: int, entityName: string, entityId: string)

  type Batch = seq<Event>

  /** One collector's connection. The length of an encoded request and the schema check are
      whatever they are; only that they depend on the request body matters. */
  datatype Config = Config(
    entityName: string, entityId: string, maxBodySize: int, size: Batch -> nat, valid: Batch -> bool)

  /** What becomes of the n-th request: a failure may be reported for a request that arrived. */
  datatype Delivery = Accepted | NotDelivered | DeliveredButFailed

  datatype Outcome = Ok | Failed | Panicked

  datatype Posted = Posted(outcome: Outcome, next: nat, bodies: seq<Batch>)

  function Stamp(e: Event, c: Config): Event {
    Event(e.body,
          if e.entityName == "" then c.entityName else e.entityName,
          if e.entityId == "" then c.entityId else e.entityId)
  }

  function StampAll(b: Batch, c: Config): (r: Batch)
    ensures |r| == |b|
  {
    seq(|b|, i requires 0 <= i < |b| => Stamp(b[i], c))
  }

  predicate TooLarge(c: Config, b: Batch) { c.maxBodySize > 0 && c.size(b) > c.maxBodySize }

  /** A limit that is not positive is none. */
  predicate WithinLimit(c: Config, b: Batch) { c.maxBodySize <= 0 || c.size(b) <= c.maxBodySize }

  /** `Batch.Split` */
  function Split(b: Batch): (Batch, Batch) { (b[..|b| / 2], b[|b| / 2..]) }

  /** Sends a stamped batch, in halves if it is too large. Requests are numbered from n;
      `bodies` are those that reached the collector, in order. */
  function Send(c: Config, b: Batch, net: nat -> Delivery, n: nat): Posted
    decreases |b|
  {
    if |b| == 0 then Posted(Ok, n, [])
    else if !c.valid(b) then Posted(Failed, n, [])
    else if TooLarge(c, b) then
      var (b1, b2) := Split(b);
      if |b1| == 0 || |b2| == 0 then Posted(Panicked, n, []) else
      var p1 := Send(c, b1, net, n);
      if p1.outcome != Ok then p1 else
      var p2 := Send(c, b2, net, p1.next);
      Posted(p2.outcome, p2.next, p1.bodies + p2.bodies)
    else
      match net(n)
      case Accepted => Posted(Ok, n + 1, [b])
      case NotDelivered => Posted(Failed, n + 1, [])
      case DeliveredButFailed => Posted(Failed, n + 1, [b])
  }

  /** `Evel.PostBatch` */
  function Post(c: Config, batch: Batch, net: nat -> Delivery, n: nat): Posted {
    Send(c, StampAll(batch, c), net, n)
  }

  function Flatten(bs: seq<Batch>): Batch {
    if bs == [] then [] else bs[0] + Flatten(bs[1..])
  }

  lemma {:induction false} FlattenConcat(a: seq<Batch>, b: seq<Batch>)
    ensures Flatten(a + b) == Flatten(a) + Flatten(b)
  {
    if a == [] {
      assert a + b == b;
    } else {
      FlattenConcat(a[1..], b);
      assert (a + b)[1..] == a[1..] + b && (a + b)[0] == a[0];
      Associative(a[0], Flatten(a[1..]), Flatten(b));
    }
  }

  /** One level of the splitting. */
  lemma SendHalves(c: Config, b: Batch, b1: Batch, b2: Batch, net: nat -> Delivery, n: nat)
    requires b != [] && c.valid(b) && TooLarge(c, b) && b == b1 + b2 && |b1| == |b| / 2
    ensures var p, p1 := Send(c, b, net, n), Send(c, b1, net, n);
            if |b1| == 0 || |b2| == 0 then p == Posted(Panicked, n, [])
            else if p1.outcome != Ok then p == p1
            else var p2 := Send(c, b2, net, p1.next);
                 && p.outcome == p2.outcome && p.next == p2.next
                 && Flatten(p.bodies) == Flatten(p1.bodies) + Flatten(p2.bodies)
  {
    assert Split(b).0 == b1 && Split(b).1 == b2;
    FlattenConcat(Send(c, b1, net, n).bodies, Send(c, b2, net, Send(c, b1, net, n).next).bodies);
  }

  /** What arrived is a prefix of b, all of it on success, in non-empty requests within the
      limit, at most one per event; after a panic the first event that did not arrive exceeds
      the limit alone. */
  ghost predicate Conserves(c: Config, b: Batch, p: Posted) {
    && (forall x <- p.bodies :: x != [] && WithinLimit(c, x))
    && |p.bodies| <= |b|
    && Flatten(p.bodies) <= b
    && (p.outcome == Ok ==> Flatten(p.bodies) == b)
    && (p.outcome == Panicked ==>
          |Flatten(p.bodies)| < |b| && !WithinLimit(c, [b[|Flatten(p.bodies)|]]))
  }

  lemma JoinConserves(c: Config, b1: Batch, b2: Batch, p1: Posted, p2: Posted)
    requires Conserves(c, b1, p1) && p1.outcome == Ok && Conserves(c, b2, p2)
    ensures Conserves(c, b1 + b2, Posted(p2.outcome, p2.next, p1.bodies + p2.bodies))
  {
    FlattenConcat(p1.bodies, p2.bodies);
  }

  lemma PrefixConserves(c: Config, b1: Batch, b2: Batch, p: Posted)
    requires Conserves(c, b1, p) && p.outcome != Ok
    ensures Conserves(c, b1 + b2, p)
  {}

  lemma {:induction false} SendConserves(c: Config, b: Batch, net: nat -> Delivery, n: nat)
    ensures Conserves(c, b, Send(c, b, net, n))
    decreases |b|
  {
    if |b| != 0 && c.valid(b) && TooLarge(c, b) {
      var (b1, b2) := Split(b);
      assert b == b1 + b2;
      if |b1| == 0 {
        assert b == [b[0]];
      } else {
        var p1 := Send(c, b1, net, n);
        SendConserves(c, b1, net, n);
        if p1.outcome == Ok {
          SendConserves(c, b2, net, p1.next);
          JoinConserves(c, b1, b2, p1, Send(c, b2, net, p1.next));
        } else {
          PrefixConserves(c, b1, b2, p1);
        }
      }
    } else {
      assert Flatten([b]) == b + Flatten([]);
    }
  }

  /** Nothing of a batch is lost, doubled or reordered by the splitting, however requests fail. */
  lemma SplitConserves(c: Config, batch: Batch, net: nat -> Delivery, n: nat)
    ensures Conserves(c, StampAll(batch, c), Post(c, batch, net, n))
  {
    SendConserves(c, StampAll(batch, c), net, n);
  }

  /** The batch with its empty header fields filled in. */
  predicate FilledIn(b: Batch, r: Batch, name: string, id: string) {
    |r| == |b| && forall i | 0 <= i < |b| ::
      r[i] == Event(b[i].body, if b[i].entityName == "" then name else b[i].entityName,
                    if b[i].entityId == "" then id else b[i].entityId)
  }

  lemma StampsFill(b: Batch, c: Config)
    ensures FilledIn(b, StampAll(b, c), c.entityName, c.entityId)
  {}

  /** How a batch is posted, by its filled-in form r: nothing to do, or refused unsent, or one request
      if it is within the limit; otherwise the half of it, rounded down, and then the rest. */
  lemma PostingByHalves(c: Config, batch: Batch, r: Batch, net: nat -> Delivery, n: nat)
    requires FilledIn(batch, r, c.entityName, c.entityId)
    ensures var p := Post(c, batch, net, n);
            if r == [] then p == Posted(Ok, n, [])
            else if !c.valid(r) then p == Posted(Failed, n, [])
            else if WithinLimit(c, r) then
              p == Posted(if net(n) == Accepted then Ok else Failed, n + 1, if net(n) == NotDelivered then [] else [r])
            else if |r| == 1 then p == Posted(Panicked, n, [])
            else
              var p1 := Post(c, r[..|r| / 2], net, n);
              if p1.outcome != Ok then p == p1
              else
                var p2 := Post(c, r[|r| / 2..], net, p1.next);
                p == Posted(p2.outcome, p2.next, p1.bodies + p2.bodies)
  {
    StampsFill(batch, c);
    assert StampAll(batch, c) == r;
    assert StampAll(r[..|r| / 2], c) == r[..|r| / 2] && StampAll(r[|r| / 2..], c) == r[|r| / 2..];
  }

  /** A request is no shorter than its parts. */
  ghost predicate SizesAdd(c: Config) {
    forall a: Batch, b: Batch :: c.size(a) <= c.size(a + b) && c.size(b) <= c.size(a + b)
  }

  ghost predicate EachFits(c: Config, b: Batch) { forall e <- b :: WithinLimit(c, [e]) }

  lemma PartsFit(c: Config, b: Batch)
    requires SizesAdd(c) && WithinLimit(c, b)
    ensures EachFits(c, b)
  {
    forall e | e in b ensures WithinLimit(c, [e]) {
      var i :| 0 <= i < |b| && b[i] == e;
      assert b == b[..i] + ([e] + b[i + 1..]);
      assert c.size([e]) <= c.size([e] + b[i + 1..]) <= c.size(b[..i] + ([e] + b[i + 1..]));
    }
  }

  lemma {:induction false} SentIffEachFits(c: Config, b: Batch, net: nat -> Delivery, n: nat)
    requires SizesAdd(c) && (forall x :: c.valid(x)) && (forall k :: net(k) == Accepted)
    ensures Send(c, b, net, n).outcome == Ok <==> EachFits(c, b)
    decreases |b|
  {
    if |b| != 0 {
      if TooLarge(c, b) {
        var (b1, b2) := Split(b);
        assert b == b1 + b2;
        if |b1| == 0 {
          assert b == [b[0]];
          assert b[0] in b;
        } else {
          SentIffEachFits(c, b1, net, n);
          SentIffEachFits(c, b2, net, Send(c, b1, net, n).next);
        }
      } else {
        PartsFit(c, b);
      }
    }
  }

  /** Over a working connection a batch is posted exactly when each event fits alone. */
  lemma PostedIffEachFits(c: Config, batch: Batch, net: nat -> Delivery, n: nat)
    requires SizesAdd(c) && (forall x :: c.valid(x)) && (forall k :: net(k) == Accepted)
    ensures Post(c, batch, net, n).outcome == Ok <==> EachFits(c, StampAll(batch, c))
  {
    SentIffEachFits(c, StampAll(batch, c), net, n);
  }

  /******* The collector as an object; a batch is a slice of an array *******/

  method UpdateReportingEntityName(batch: array<Event>, lo: nat, hi: nat, name: string)
    requires lo <= hi <= batch.Length
    modifies batch
    ensures forall i | 0 <= i < batch.Length ::
              batch[i] == var e := old(batch[i]);
                          if lo <= i < hi && e.entityName == "" then e.(entityName := name) else e
  {
    for k := lo to hi
      invariant forall i | 0 <= i < batch.Length ::
          batch[i] == var e := old(batch[i]);
                      if lo <= i < k && e.entityName == "" then e.(entityName := name) else e
    {
      if batch[k].entityName == "" {
        batch[k] := batch[k].(entityName := name);
      }
    }
  }

  method UpdateReportingEntityID(batch: array<Event>, lo: nat, hi: nat, id: string)
    requires lo <= hi <= batch.Length
    modifies batch
    ensures forall i | 0 <= i < batch.Length ::
              batch[i] == var e := old(batch[i]);
                          if lo <= i < hi && e.entityId == "" then e.(entityId := id) else e
  {
    for k := lo to hi
      invariant forall i | 0 <= i < batch.Length ::
          batch[i] == var e := old(batch[i]);
                      if lo <= i < k && e.entityId == "" then e.(entityId := id) else e
    {
      if batch[k].entityId == "" {
        batch[k] := batch[k].(entityId := id);
      }
    }
  }

  class Collector {
    const config: Config
    ghost var received: Batch

    constructor (config: Config)
      ensures this.config == config && received == []
    {
      this.config := config;
      received := [];
    }

    method DoPost(body: Batch, net: nat -> Delivery, n: nat) returns (outcome: Outcome, next: nat, tooLarge: bool)
      modifies this`received
      ensures tooLarge == (config.valid(body) && TooLarge(config, body))
      ensures tooLarge ==> received == old(received)
      ensures !tooLarge ==>
        && (outcome == if config.valid(body) && net(n) == Accepted then Ok else Failed)
        && (next == if config.valid(body) then n + 1 else n)
        && (received == if config.valid(body) && net(n) != NotDelivered then old(received) + body else old(received))
    {
      outcome, next, tooLarge := Failed, n, false;
      if config.valid(body) {
        tooLarge := TooLarge(config, body);
        if !tooLarge {
          next := n + 1;
          outcome := if net(n) == Accepted then Ok else Failed;
          if net(n) != NotDelivered {
            received := received + body;
          }
        }
      }
    }

    method FillIn(batch: array<Event>, lo: nat, hi: nat)
      requires lo <= hi <= batch.Length
      modifies batch
      ensures forall i | 0 <= i < batch.Length ::
                batch[i] == if lo <= i < hi then Stamp(old(batch[i]), config) else old(batch[i])
      ensures batch[lo..hi] == StampAll(old(batch[lo..hi]), config)
    {
      UpdateReportingEntityName(batch, lo, hi, config.entityName);
      UpdateReportingEntityID(batch, lo, hi, config.entityId);
    }

    method PostBatch(batch: array<Event>, lo: nat, hi: nat, net: nat -> Delivery, n: nat)
      returns (outcome: Outcome, next: nat)
      requires lo <= hi <= batch.Length
      modifies this`received, batch
      ensures forall i | 0 <= i < batch.Length ::
                batch[i] == if lo <= i < hi then Stamp(old(batch[i]), config) else old(batch[i])
      ensures FilledIn(old(batch[lo..hi]), batch[lo..hi], config.entityName, config.entityId)
      ensures var p := Post(config, old(batch[lo..hi]), net, n);
              outcome == p.outcome && next == p.next && received == old(received) + Flatten(p.bodies)
      decreases hi - lo, 1
    {
      StampsFill(batch[lo..hi], config);
      if hi - lo == 0 {
        return Ok, n;
      }
      FillIn(batch, lo, hi);
      ghost var b := batch[lo..hi];
      var tooLarge;
      outcome, next, tooLarge := DoPost(batch[lo..hi], net, n);
      if tooLarge {
        outcome, next := PostHalves(batch, lo, hi, net, n);
      } else {
        assert Flatten([b]) == b + Flatten([]);
      }
    }

    method PostHalves(batch: array<Event>, lo: nat, hi: nat, net: nat -> Delivery, n: nat)
      returns (outcome: Outcome, next: nat)
      requires lo < hi <= batch.Length
      requires forall i | lo <= i < hi :: Stamp(batch[i], config) == batch[i]
      requires config.valid(batch[lo..hi]) && TooLarge(config, batch[lo..hi])
      modifies this`received, batch
      ensures forall i | 0 <= i < batch.Length :: batch[i] == old(batch[i])
      ensures var p := Send(config, old(batch[lo..hi]), net, n);
              outcome == p.outcome && next == p.next && received == old(received) + Flatten(p.bodies)
      decreases hi - lo, 0
    {
      var mid := lo + (hi - lo) / 2;
      ghost var b1, b2 := batch[lo..mid], batch[mid..hi];
      assert batch[lo..hi] == b1 + b2;
      assert StampAll(b1, config) == b1 && StampAll(b2, config) == b2;
      SendHalves(config, batch[lo..hi], b1, b2, net, n);
      if mid == lo || mid == hi {
        return Panicked, n;
      }
      outcome, next := PostBatch(batch, lo, mid, net, n);
      assert forall i | lo <= i < mid :: Stamp(old(batch[i]), config) == old(batch[i]);
      ghost var p1 := Send(config, b1, net, n);
      assert received == old(received) + Flatten(p1.bodies);
      if outcome == Ok {
        assert batch[mid..hi] == b2;
        ghost var p2 := Send(config, b2, net, next);
        ghost var first := received;
        outcome, next := PostBatch(batch, mid, hi, net, next);
        assert received == first + Flatten(p2.bodies);
        Associative(old(received), Flatten(p1.bodies), Flatten(p2.bodies));
      }
    }
  }

  lemma Associative(a: Batch, b: Batch, c: Batch)
    ensures (a + b) + c == a + (b + c)
  {}
}
