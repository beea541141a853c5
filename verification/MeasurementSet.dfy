/** The measurement set builder (VESPA/ves-agent/metrics/set.go): nested lists, found by linear
    search, that stand for a flat map. */
module MeasurementSet {
  import opened Prelude

  /******* Composite keys *******/

  type MeasKeys = map<string, string>

  datatype Key = Key(keyName: string, keyValue: string)

  /** jk lists the pairs of `keys`, each once, in some order. */
  predicate Lists(jk: seq<Key>, keys: MeasKeys) {
    && |jk| == |keys|
    && (forall k <- jk :: k.keyName in keys && keys[k.keyName] == k.keyValue)
    && (forall n <- keys :: Key(n, keys[n]) in jk)
  }

  method JSONObjectKeys(keys: MeasKeys) returns (jk: seq<Key>)
    ensures Lists(jk, keys)
  {
    jk := [];
    var todo := keys.Keys;
    while todo != {}
      invariant todo <= keys.Keys
      invariant |jk| + |todo| == |keys|
      invariant forall k <- jk :: k.keyName in keys && keys[k.keyName] == k.keyValue
      invariant forall n <- keys :: n in todo || Key(n, keys[n]) in jk
    {
      var n :| n in todo;
      jk := jk + [Key(n, keys[n])];
      todo := todo - {n};
    }
  }

  predicate Matches(keys: MeasKeys, jk: seq<Key>) {
    |jk| == |keys| && forall k <- jk :: k.keyName in keys && keys[k.keyName] == k.keyValue
  }

  method MatchJSONObjectKeys(keys: MeasKeys, jk: seq<Key>) returns (b: bool)
    ensures b == Matches(keys, jk)
  {
    if |jk| != |keys| {
      return false;
    }
    for i := 0 to |jk|
      invariant forall j | 0 <= j < i :: jk[j].keyName in keys && keys[jk[j].keyName] == jk[j].keyValue
    {
      if jk[i].keyName !in keys || keys[jk[i].keyName] != jk[i].keyValue {
        return false;
      }
    }
    b := true;
  }

  lemma SubsetOfSameSize<T>(a: set<T>, b: set<T>)
    requires a <= b && |a| == |b|
    ensures a == b
  {
    assert |b - a| == |b| - |a|;
  }

  /** A key set matches the list of a key set exactly when they are the same. */
  lemma MatchIffSame(k1: MeasKeys, k2: MeasKeys, jk: seq<Key>)
    requires Lists(jk, k2)
    ensures Matches(k1, jk) <==> k1 == k2
  {
    if Matches(k1, jk) {
      forall n | n in k2 ensures n in k1 && k1[n] == k2[n] {
        assert Key(n, k2[n]) in jk;
      }
      SubsetOfSameSize(k2.Keys, k1.Keys);
    }
  }

  /******* Lists searched for the first fitting entry *******/

  function IndexOf<T>(s: seq<T>, p: T -> bool): (i: nat)
    ensures i <= |s| && (i < |s| ==> p(s[i])) && forall j | 0 <= j < i :: !p(s[j])
  {
    if s == [] || p(s[0]) then 0 else 1 + IndexOf(s[1..], p)
  }

  /** Changes the first fitting entry, or appends a blank one and changes that. */
  function Upsert<T>(s: seq<T>, p: T -> bool, blank: T, f: T -> T): (r: seq<T>)
    ensures |s| <= |r| <= |s| + 1
  {
    var i := IndexOf(s, p);
    if i < |s| then s[i := f(s[i])] else s + [f(blank)]
  }

  method Search<T>(s: seq<T>, p: T -> bool) returns (i: nat)
    ensures i == IndexOf(s, p)
  {
    i := 0;
    while i < |s| && !p(s[i])
      invariant i <= |s| && IndexOf(s, p) == i + IndexOf(s[i..], p)
    {
      i := i + 1;
    }
  }

  /******* The nested structure *******/

  datatype Instance = Instance(keys: seq<Key>, values: map<string, real>)

  datatype Object = Object(name: string, instances: seq<Instance>)

  datatype Measurement = Measurement(sourceName: string, lastMicros: int, objects: seq<Object>)

  /** One call of SetAdditionalObject. `timestamp` is in Unix nanoseconds; `created` is what the
      factory would return, `listing` the order in which the keys would be listed. */
  datatype Call = Call(
    vmId: string, objectName: string, field: string, timestamp: int, value: real, keys: MeasKeys,
    listing: seq<Key>, created: Option<Measurement>)

  /** `UnixNano() / 1000`, which Go truncates toward zero. */
  function Micros(nanos: int): int { if nanos >= 0 then nanos / 1000 else -(-nanos / 1000) }

  /** The whole microseconds of a timestamp, cut off toward the Unix epoch. */
  lemma MicrosTruncate(nanos: int)
    ensures if nanos >= 0 then 1000 * Micros(nanos) <= nanos < 1000 * Micros(nanos) + 1000
            else 1000 * Micros(nanos) - 1000 < nanos <= 1000 * Micros(nanos)
  {}

  predicate HasArguments(c: Call) { c.vmId != "" && c.objectName != "" && c.field != "" }

  /** The conditions of the three searches. */
  function IsFor(c: Call): Measurement -> bool {
    (m: Measurement) => m.lastMicros == Micros(c.timestamp) && m.sourceName == c.vmId
  }

  function HasName(c: Call): Object -> bool { (o: Object) => o.name == c.objectName }

  function HasKeys(c: Call): Instance -> bool { (i: Instance) => Matches(c.keys, i.keys) }

  function SetValue(c: Call): Instance -> Instance {
    (i: Instance) => i.(values := i.values[c.field := c.value])
  }

  function SetInstance(s: seq<Instance>, c: Call): seq<Instance> {
    Upsert(s, HasKeys(c), Instance(c.listing, map[]), SetValue(c))
  }

  function SetInObject(c: Call): Object -> Object {
    (o: Object) => o.(instances := SetInstance(o.instances, c))
  }

  function SetObject(s: seq<Object>, c: Call): seq<Object> {
    Upsert(s, HasName(c), Object(c.objectName, []), SetInObject(c))
  }

  function SetIn(m: Measurement, c: Call): Measurement { m.(objects := SetObject(m.objects, c)) }

  function SetAdditional(s: seq<Measurement>, c: Call): (seq<Measurement>, bool) {
    if !HasArguments(c) then (s, false) else
    var i := IndexOf(s, IsFor(c));
    if i < |s| then (s[i := SetIn(s[i], c)], true)
    else if c.created.None? then (s, false)
    else (s + [SetIn(c.created.value, c)], true)
  }

  /** The builder as an object. */
  class Builder {
    var measurements: seq<Measurement>

    constructor ()
      ensures measurements == []
    {
      measurements := [];
    }

    /** Index of the measurement for the call, created if there is none. */
    method Find(c: Call) returns (i: nat, ok: bool)
      modifies this`measurements
      ensures i == IndexOf(old(measurements), IsFor(c))
      ensures ok == (i < |old(measurements)| || c.created.Some?)
      ensures measurements == if i < |old(measurements)| || !ok then old(measurements)
                              else old(measurements) + [c.created.value]
    {
      i := Search(measurements, IsFor(c));
      ok := true;
      if i == |measurements| {
        if c.created.None? {
          return i, false;
        }
        measurements := measurements + [c.created.value];
      }
    }

    method SetAdditionalObject(c: Call) returns (ok: bool)
      modifies this`measurements
      ensures (measurements, ok) == SetAdditional(old(measurements), c)
    {
      if c.vmId == "" || c.objectName == "" || c.field == "" {
        return false;
      }
      var i;
      i, ok := Find(c);
      if ok {
        var found := measurements[i];
        var objects := SetObjects(found.objects, c);
        assert found.(objects := objects) == SetIn(found, c);
        measurements := measurements[i := found.(objects := objects)];
        assert i == |old(measurements)| ==> measurements == old(measurements) + [SetIn(found, c)];
      }
    }
  }

  method SetObjects(s: seq<Object>, c: Call) returns (objects: seq<Object>)
    ensures objects == SetObject(s, c)
  {
    objects := s;
    var j := Search(objects, HasName(c));
    if j == |objects| {
      objects := objects + [Object(c.objectName, [])];
    }
    var instances := SetInstances(objects[j].instances, c);
    objects := objects[j := objects[j].(instances := instances)];
  }

  method SetInstances(s: seq<Instance>, c: Call) returns (instances: seq<Instance>)
    ensures instances == SetInstance(s, c)
  {
    instances := s;
    var k := Search(instances, HasKeys(c));
    if k == |instances| {
      instances := instances + [Instance(c.listing, map[])];
    }
    instances := instances[k := instances[k].(values := instances[k].values[c.field := c.value])];
  }

  /******* Refinement of a flat map *******/

  datatype Path = Path(vmId: string, micros: int, objectName: string, keys: MeasKeys, field: string)

  function PathOf(c: Call): Path { Path(c.vmId, Micros(c.timestamp), c.objectName, c.keys, c.field) }

  /** The reference: which (source, microsecond) pairs have an event, and the last value set. */
  datatype Flat = Flat(events: set<(string, int)>, values: map<Path, real>)

  function SetFlat(f: Flat, c: Call): (Flat, bool) {
    var e := (c.vmId, Micros(c.timestamp));
    if HasArguments(c) && (e in f.events || c.created.Some?)
    then (Flat(f.events + {e}, f.values[PathOf(c) := c.value]), true)
    else (f, false)
  }

  /** The call would make the factory create an event, if there is none for it yet. */
  predicate Creates(c: Call) { HasArguments(c) && c.created.Some? }

  /** The factory stamps source and time, and the listing is one of the keys. */
  predicate Faithful(c: Call) {
    && Lists(c.listing, c.keys)
    && (Creates(c) ==> c.created.value == Measurement(c.vmId, Micros(c.timestamp), []))
  }

  ghost predicate ValueAt(x: Instance, keys: MeasKeys, field: string, v: real) {
    Lists(x.keys, keys) && field in x.values && x.values[field] == v
  }

  ghost predicate InstanceHas(s: seq<Instance>, keys: MeasKeys, field: string, v: real) {
    exists i | 0 <= i < |s| :: ValueAt(s[i], keys, field, v)
  }

  ghost predicate NamedHas(o: Object, name: string, keys: MeasKeys, field: string, v: real) {
    o.name == name && InstanceHas(o.instances, keys, field, v)
  }

  ghost predicate ObjectHas(s: seq<Object>, name: string, keys: MeasKeys, field: string, v: real) {
    exists i | 0 <= i < |s| :: NamedHas(s[i], name, keys, field, v)
  }

  ghost predicate EventHas(m: Measurement, p: Path, v: real) {
    m.sourceName == p.vmId && m.lastMicros == p.micros && ObjectHas(m.objects, p.objectName, p.keys, p.field, v)
  }

  /** Some event of the set holds value v at path p. */
  ghost predicate SetHas(s: seq<Measurement>, p: Path, v: real) {
    exists i | 0 <= i < |s| :: EventHas(s[i], p, v)
  }

  ghost predicate Listed(x: Instance) { exists k :: Lists(x.keys, k) }

  ghost predicate SameKeys(x: Instance, y: Instance) { exists k :: Lists(x.keys, k) && Lists(y.keys, k) }

  /** One instance per key set. */
  ghost predicate UniqueInstances(s: seq<Instance>) {
    && (forall i | 0 <= i < |s| :: Listed(s[i]))
    && (forall i, j | 0 <= i < j < |s| :: !SameKeys(s[i], s[j]))
  }

  /** One object per name. */
  ghost predicate UniqueObjects(s: seq<Object>) {
    && (forall i | 0 <= i < |s| :: UniqueInstances(s[i].instances))
    && (forall i, j | 0 <= i < j < |s| :: s[i].name != s[j].name)
  }

  /** One event per source and microsecond. */
  ghost predicate UniqueEvents(s: seq<Measurement>) {
    && (forall i | 0 <= i < |s| :: UniqueObjects(s[i].objects))
    && (forall i, j | 0 <= i < j < |s| :: s[i].sourceName != s[j].sourceName || s[i].lastMicros != s[j].lastMicros)
  }

  lemma ListsDetermine(jk: seq<Key>, a: MeasKeys, b: MeasKeys)
    requires Lists(jk, a) && Lists(jk, b)
    ensures a == b
  {
    MatchIffSame(a, b, jk);
  }

  /** What the search for an instance finds: the one that lists the keys, if there is one. */
  lemma InstanceFound(s: seq<Instance>, c: Call, i: nat)
    requires UniqueInstances(s) && i < |s|
    ensures Lists(s[i].keys, c.keys) <==> i == IndexOf(s, HasKeys(c))
  {
    var n := IndexOf(s, HasKeys(c));
    assert Listed(s[i]);
    var k :| Lists(s[i].keys, k);
    MatchIffSame(c.keys, k, s[i].keys);
    assert HasKeys(c)(s[i]) == Matches(c.keys, s[i].keys);
    if n < i {
      assert HasKeys(c)(s[n]) && Listed(s[n]);
      var m :| Lists(s[n].keys, m);
      MatchIffSame(c.keys, m, s[n].keys);
      assert !SameKeys(s[n], s[i]);
    }
  }

  /** r is s with entry n changed or appended. */
  ghost predicate ChangedAt<T(!new)>(s: seq<T>, r: seq<T>, n: nat) {
    && n <= |s| && n < |r| && |r| == (if n < |s| then |s| else |s| + 1)
    && forall i | 0 <= i < |s| && i != n :: r[i] == s[i]
  }

  /** The one entry for the call's keys, and the entry it becomes. */
  ghost predicate InstanceChanged(s: seq<Instance>, r: seq<Instance>, c: Call, n: nat, base: map<string, real>) {
    && ChangedAt(s, r, n)
    && (forall i | 0 <= i < |s| :: Lists(s[i].keys, c.keys) <==> i == n)
    && (n < |s| ==> s[n].values == base) && (n == |s| ==> base == map[])
    && Lists(r[n].keys, c.keys) && r[n].values == base[c.field := c.value]
  }

  lemma InstanceReplaced(s: seq<Instance>, c: Call) returns (n: nat, base: map<string, real>)
    requires UniqueInstances(s) && Lists(c.listing, c.keys)
    ensures InstanceChanged(s, SetInstance(s, c), c, n, base)
  {
    n := IndexOf(s, HasKeys(c));
    base := if n < |s| then s[n].values else map[];
    forall i | 0 <= i < |s| ensures Lists(s[i].keys, c.keys) <==> i == n { InstanceFound(s, c, i); }
  }

  lemma OwnInstance(s: seq<Instance>, r: seq<Instance>, c: Call, n: nat, base: map<string, real>, f: string, v: real)
    requires InstanceChanged(s, r, c, n, base)
    ensures InstanceHas(r, c.keys, f, v) <==> if f == c.field then v == c.value else InstanceHas(s, c.keys, f, v)
  {
    assert ValueAt(r[n], c.keys, c.field, c.value);
    assert n < |s| && f != c.field ==> (ValueAt(r[n], c.keys, f, v) <==> ValueAt(s[n], c.keys, f, v));
  }

  lemma OtherInstance(s: seq<Instance>, r: seq<Instance>, c: Call, n: nat, base: map<string, real>,
                      k: MeasKeys, f: string, v: real)
    requires InstanceChanged(s, r, c, n, base) && k != c.keys
    ensures InstanceHas(r, k, f, v) <==> InstanceHas(s, k, f, v)
  {
    if Lists(r[n].keys, k) { ListsDetermine(r[n].keys, k, c.keys); }
    if n < |s| && Lists(s[n].keys, k) { ListsDetermine(s[n].keys, k, c.keys); }
    forall i | 0 <= i < |s| ensures ValueAt(s[i], k, f, v) ==> ValueAt(r[i], k, f, v) {}
  }

  lemma InstanceStep(s: seq<Instance>, c: Call, k: MeasKeys, f: string, v: real)
    requires UniqueInstances(s) && Lists(c.listing, c.keys)
    ensures InstanceHas(SetInstance(s, c), k, f, v) <==>
            if k == c.keys && f == c.field then v == c.value else InstanceHas(s, k, f, v)
  {
    var n, base := InstanceReplaced(s, c);
    if k == c.keys {
      OwnInstance(s, SetInstance(s, c), c, n, base, f, v);
    } else {
      OtherInstance(s, SetInstance(s, c), c, n, base, k, f, v);
    }
  }

  lemma InstancesStayUnique(s: seq<Instance>, c: Call)
    requires UniqueInstances(s) && Lists(c.listing, c.keys)
    ensures UniqueInstances(SetInstance(s, c))
  {
    var r, n := SetInstance(s, c), IndexOf(s, HasKeys(c));
    forall i | 0 <= i < |s| ensures Lists(s[i].keys, c.keys) <==> i == n { InstanceFound(s, c, i); }
    assert Lists(r[n].keys, c.keys);
    forall k | Lists(r[n].keys, k) ensures k == c.keys { ListsDetermine(r[n].keys, k, c.keys); }
    forall i, j | 0 <= i < j < |r| ensures !SameKeys(r[i], r[j]) {
      assert i != n && j != n ==> !SameKeys(s[i], s[j]);
    }
  }

  /** The one entry for the call's object, and the entry it becomes. */
  ghost predicate ObjectChanged(s: seq<Object>, r: seq<Object>, c: Call, n: nat, base: seq<Instance>) {
    && ChangedAt(s, r, n)
    && (forall i | 0 <= i < |s| :: s[i].name == c.objectName <==> i == n)
    && (n < |s| ==> s[n].instances == base) && (n == |s| ==> base == [])
    && r[n] == Object(c.objectName, SetInstance(base, c))
  }

  lemma ObjectFound(s: seq<Object>, c: Call) returns (n: nat, base: seq<Instance>)
    requires UniqueObjects(s)
    ensures ObjectChanged(s, SetObject(s, c), c, n, base) && UniqueInstances(base)
  {
    n := IndexOf(s, HasName(c));
    base := if n < |s| then s[n].instances else [];
    forall i | 0 <= i < |s| ensures s[i].name == c.objectName <==> i == n {
      assert HasName(c)(s[i]) == (s[i].name == c.objectName);
    }
    var o := if n < |s| then s[n] else Object(c.objectName, []);
    assert SetInObject(c)(o) == Object(c.objectName, SetInstance(base, c));
  }

  lemma ObjectHasAfter(s: seq<Object>, r: seq<Object>, c: Call, n: nat, base: seq<Instance>,
                       o: string, k: MeasKeys, f: string, v: real)
    requires ObjectChanged(s, r, c, n, base)
    ensures ObjectHas(r, o, k, f, v) <==>
            if o == c.objectName then InstanceHas(SetInstance(base, c), k, f, v) else ObjectHas(s, o, k, f, v)
    ensures o == c.objectName ==> (ObjectHas(s, o, k, f, v) <==> InstanceHas(base, k, f, v))
  {
    assert NamedHas(r[n], o, k, f, v) <==> o == c.objectName && InstanceHas(SetInstance(base, c), k, f, v);
    assert n < |s| ==> (NamedHas(s[n], o, k, f, v) <==> o == c.objectName && InstanceHas(base, k, f, v));
    forall i | 0 <= i < |s| && i != n ensures NamedHas(r[i], o, k, f, v) <==> NamedHas(s[i], o, k, f, v) {}
  }

  lemma ObjectStep(s: seq<Object>, c: Call, o: string, k: MeasKeys, f: string, v: real)
    requires UniqueObjects(s) && Lists(c.listing, c.keys)
    ensures ObjectHas(SetObject(s, c), o, k, f, v) <==>
            if o == c.objectName && k == c.keys && f == c.field then v == c.value else ObjectHas(s, o, k, f, v)
  {
    var n, base := ObjectFound(s, c);
    ObjectHasAfter(s, SetObject(s, c), c, n, base, o, k, f, v);
    InstanceStep(base, c, k, f, v);
  }

  lemma ObjectsStayUnique(s: seq<Object>, c: Call)
    requires UniqueObjects(s) && Lists(c.listing, c.keys)
    ensures UniqueObjects(SetObject(s, c))
  {
    var n, base := ObjectFound(s, c);
    InstancesStayUnique(base, c);
    UniqueAfter(s, SetObject(s, c), c, n, base);
  }

  lemma UniqueAfter(s: seq<Object>, r: seq<Object>, c: Call, n: nat, base: seq<Instance>)
    requires UniqueObjects(s) && ObjectChanged(s, r, c, n, base) && UniqueInstances(SetInstance(base, c))
    ensures UniqueObjects(r)
  {}

  function EventKey(m: Measurement): (string, int) { (m.sourceName, m.lastMicros) }

  ghost predicate HasEvent(s: seq<Measurement>, e: (string, int)) {
    exists i | 0 <= i < |s| :: EventKey(s[i]) == e
  }

  /** The list of events as the flat reference sees it. */
  ghost predicate Refines(s: seq<Measurement>, f: Flat) {
    && UniqueEvents(s)
    && (forall e :: e in f.events <==> HasEvent(s, e))
    && (forall p, v :: SetHas(s, p, v) <==> p in f.values && f.values[p] == v)
  }

  /** The one event for the call, and the event it becomes. */
  ghost predicate EventChanged(s: seq<Measurement>, r: seq<Measurement>, c: Call, n: nat, base: seq<Object>) {
    && ChangedAt(s, r, n)
    && (forall i | 0 <= i < |s| :: (s[i].sourceName == c.vmId && s[i].lastMicros == Micros(c.timestamp)) <==> i == n)
    && (n < |s| ==> s[n].objects == base) && (n == |s| ==> base == [])
    && r[n] == Measurement(c.vmId, Micros(c.timestamp), SetObject(base, c))
  }

  lemma EventFound(s: seq<Measurement>, c: Call) returns (n: nat, base: seq<Object>)
    requires UniqueEvents(s) && Faithful(c) && SetAdditional(s, c).1
    ensures EventChanged(s, SetAdditional(s, c).0, c, n, base) && UniqueObjects(base)
  {
    n := IndexOf(s, IsFor(c));
    base := if n < |s| then s[n].objects else [];
    forall i | 0 <= i < |s| ensures (s[i].sourceName == c.vmId && s[i].lastMicros == Micros(c.timestamp)) <==> i == n {
      assert IsFor(c)(s[i]) == (s[i].lastMicros == Micros(c.timestamp) && s[i].sourceName == c.vmId);
    }
  }

  lemma EventHasAfter(s: seq<Measurement>, r: seq<Measurement>, c: Call, n: nat, base: seq<Object>, p: Path, v: real)
    requires EventChanged(s, r, c, n, base)
    ensures SetHas(r, p, v) <==>
            if p.vmId == c.vmId && p.micros == Micros(c.timestamp)
            then ObjectHas(SetObject(base, c), p.objectName, p.keys, p.field, v) else SetHas(s, p, v)
    ensures p.vmId == c.vmId && p.micros == Micros(c.timestamp) ==>
            (SetHas(s, p, v) <==> ObjectHas(base, p.objectName, p.keys, p.field, v))
  {
    var here := p.vmId == c.vmId && p.micros == Micros(c.timestamp);
    assert EventHas(r[n], p, v) <==> here && ObjectHas(SetObject(base, c), p.objectName, p.keys, p.field, v);
    assert n < |s| ==> (EventHas(s[n], p, v) <==> here && ObjectHas(base, p.objectName, p.keys, p.field, v));
    forall i | 0 <= i < |s| && i != n ensures EventHas(r[i], p, v) <==> EventHas(s[i], p, v) {}
  }

  lemma EventStep(s: seq<Measurement>, c: Call, p: Path, v: real)
    requires UniqueEvents(s) && Faithful(c) && SetAdditional(s, c).1
    ensures SetHas(SetAdditional(s, c).0, p, v) <==> if p == PathOf(c) then v == c.value else SetHas(s, p, v)
  {
    var n, base := EventFound(s, c);
    EventHasAfter(s, SetAdditional(s, c).0, c, n, base, p, v);
    ObjectStep(base, c, p.objectName, p.keys, p.field, v);
  }

  lemma UniqueEventsAfter(s: seq<Measurement>, r: seq<Measurement>, c: Call, n: nat, base: seq<Object>)
    requires UniqueEvents(s) && EventChanged(s, r, c, n, base) && UniqueObjects(SetObject(base, c))
    ensures UniqueEvents(r)
  {}

  lemma EventsAfter(s: seq<Measurement>, r: seq<Measurement>, c: Call, n: nat, base: seq<Object>, x: (string, int))
    requires EventChanged(s, r, c, n, base)
    ensures HasEvent(r, x) <==> HasEvent(s, x) || x == (c.vmId, Micros(c.timestamp))
  {
    if HasEvent(s, x) {
      var i :| 0 <= i < |s| && EventKey(s[i]) == x;
      assert EventKey(r[i]) == x;
    }
    assert EventKey(r[n]) == (c.vmId, Micros(c.timestamp));
  }

  lemma EventExists(s: seq<Measurement>, c: Call)
    ensures IndexOf(s, IsFor(c)) < |s| <==> HasEvent(s, (c.vmId, Micros(c.timestamp)))
  {
    forall i | 0 <= i < |s| ensures IsFor(c)(s[i]) <==> EventKey(s[i]) == (c.vmId, Micros(c.timestamp)) {}
  }

  /** A call fails exactly when one of its three names is empty, or there is no event of its source
      and microsecond yet and the factory fails; then nothing changes. */
  lemma CallFailsIff(s: seq<Measurement>, c: Call)
    ensures var (r, ok) := SetAdditional(s, c);
            && (!ok <==>
                  || c.vmId == "" || c.objectName == "" || c.field == ""
                  || (c.created.None? && !HasEvent(s, (c.vmId, Micros(c.timestamp)))))
            && (!ok ==> r == s)
  {
    EventExists(s, c);
  }

  lemma StepRefines(s: seq<Measurement>, f: Flat, c: Call)
    requires Refines(s, f) && Faithful(c)
    ensures SetAdditional(s, c).1 == SetFlat(f, c).1
    ensures Refines(SetAdditional(s, c).0, SetFlat(f, c).0)
  {
    var (r, ok) := SetAdditional(s, c);
    var (g, _) := SetFlat(f, c);
    EventExists(s, c);
    if ok {
      var n, base := EventFound(s, c);
      ObjectsStayUnique(base, c);
      UniqueEventsAfter(s, r, c, n, base);
      forall p, v ensures SetHas(r, p, v) <==> p in g.values && g.values[p] == v {
        EventStep(s, c, p, v);
      }
      forall x ensures x in g.events <==> HasEvent(r, x) {
        EventsAfter(s, r, c, n, base, x);
      }
    }
  }

  function Build(s: seq<Measurement>, calls: seq<Call>): (seq<Measurement>, seq<bool>) {
    if calls == [] then (s, []) else
    var (s1, oks) := Build(s, calls[..|calls| - 1]);
    var (s2, ok) := SetAdditional(s1, calls[|calls| - 1]);
    (s2, oks + [ok])
  }

  function BuildFlat(f: Flat, calls: seq<Call>): (Flat, seq<bool>) {
    if calls == [] then (f, []) else
    var (f1, oks) := BuildFlat(f, calls[..|calls| - 1]);
    var (f2, ok) := SetFlat(f1, calls[|calls| - 1]);
    (f2, oks + [ok])
  }

  /** After any calls the nested set has one event per source and microsecond, one object per
      name, one instance per key set, and holds exactly the values of the flat map: the last
      one set at each path. The calls also fail alike. */
  lemma {:induction false} BuilderRefinesFlatMap(calls: seq<Call>)
    requires forall c <- calls :: Faithful(c)
    ensures Build([], calls).1 == BuildFlat(Flat({}, map[]), calls).1
    ensures Refines(Build([], calls).0, BuildFlat(Flat({}, map[]), calls).0)
  {
    if calls != [] {
      var n := |calls| - 1;
      BuilderRefinesFlatMap(calls[..n]);
      StepRefines(Build([], calls[..n]).0, BuildFlat(Flat({}, map[]), calls[..n]).0, calls[n]);
    }
  }

  /******* The factory of CollectMetrics *******/

  /** It stamps one configured source name, whatever the vmId, unless it fails. */
  predicate InTree(c: Call, sourceName: string) {
    Creates(c) ==> c.created.value == Measurement(sourceName, Micros(c.timestamp), [])
  }

  function SingleValue(c: Call, sourceName: string): Measurement {
    Measurement(sourceName, Micros(c.timestamp),
                [Object(c.objectName, [Instance(c.listing, map[c.field := c.value])])])
  }

  function SingleValues(calls: seq<Call>, sourceName: string): (r: seq<Measurement>)
    ensures forall m <- r :: m.sourceName == sourceName
  {
    if calls == [] then [] else
    var c := calls[|calls| - 1];
    SingleValues(calls[..|calls| - 1], sourceName) + if Creates(c) then [SingleValue(c, sourceName)] else []
  }

  /** If no call is for the configured source name, every call that does not fail makes an event
      of its own with the single value set. */
  lemma {:induction false} OneEventPerCall(calls: seq<Call>, sourceName: string)
    requires forall c <- calls :: InTree(c, sourceName) && c.vmId != sourceName
    ensures Build([], calls).0 == SingleValues(calls, sourceName)
  {
    if calls != [] {
      var n := |calls| - 1;
      OneEventPerCall(calls[..n], sourceName);
      NewEvent(SingleValues(calls[..n], sourceName), calls[n], sourceName);
    }
  }

  lemma NewEvent(s: seq<Measurement>, c: Call, sourceName: string)
    requires InTree(c, sourceName) && c.vmId != sourceName
    requires forall i | 0 <= i < |s| :: s[i].sourceName == sourceName
    ensures SetAdditional(s, c) == if Creates(c) then (s + [SingleValue(c, sourceName)], true) else (s, false)
  {
    forall i | 0 <= i < |s| ensures !IsFor(c)(s[i]) {}
    assert SetInstance([], c) == [SetValue(c)(Instance(c.listing, map[]))];
    assert SetObject([], c) == [SetInObject(c)(Object(c.objectName, []))];
  }

  predicate CreatesAt(c: Call, t: int) { Creates(c) && Micros(c.timestamp) == t }

  ghost predicate HasCall(calls: seq<Call>, t: int) {
    exists i | 0 <= i < |calls| :: CreatesAt(calls[i], t)
  }

  lemma HasCallSnoc(calls: seq<Call>, c: Call, t: int)
    ensures HasCall(calls + [c], t) <==> HasCall(calls, t) || CreatesAt(c, t)
  {
    var all := calls + [c];
    assert all[|calls|] == c && forall i | 0 <= i < |calls| :: all[i] == calls[i];
  }

  /** What runs with this factory keep: its one source name, and the microseconds of the calls. */
  ghost predicate Stamped(s: seq<Measurement>, calls: seq<Call>, sourceName: string) {
    && (forall m <- s :: m.sourceName == sourceName)
    && (forall t :: HasEvent(s, (sourceName, t)) <==> HasCall(calls, t))
  }

  lemma InTreeStep(s: seq<Measurement>, calls: seq<Call>, c: Call, sourceName: string)
    requires InTree(c, sourceName) && Stamped(s, calls, sourceName)
    ensures Stamped(SetAdditional(s, c).0, calls + [c], sourceName)
    ensures var r := SetAdditional(s, c).0;
            if !Creates(c) || (c.vmId == sourceName && HasEvent(s, (sourceName, Micros(c.timestamp))))
            then |r| == |s| && forall i | 0 <= i < |s| :: EventKey(r[i]) == EventKey(s[i])
            else |r| == |s| + 1 && r[..|s|] == s && EventKey(r[|s|]) == (sourceName, Micros(c.timestamp))
  {
    var r, t := SetAdditional(s, c).0, Micros(c.timestamp);
    EventExists(s, c);
    assert HasEvent(s, (c.vmId, t)) ==> c.vmId == sourceName;
    forall u ensures HasEvent(r, (sourceName, u)) <==> HasCall(calls + [c], u) {
      HasCallSnoc(calls, c, u);
      forall i | 0 <= i < |s| ensures EventKey(r[i]) == EventKey(s[i]) {}
      assert |s| < |r| ==> EventKey(r[|s|]) == (sourceName, t);
    }
  }

  lemma {:induction false} InTreeRun(calls: seq<Call>, sourceName: string)
    requires forall c <- calls :: InTree(c, sourceName)
    ensures Stamped(Build([], calls).0, calls, sourceName)
  {
    if calls != [] {
      var init, c := calls[..|calls| - 1], calls[|calls| - 1];
      InTreeRun(init, sourceName);
      InTreeStep(Build([], init).0, init, c, sourceName);
      assert calls == init + [c];
    }
  }

  lemma {:induction false} FlatHasEvent(calls: seq<Call>, c: Call)
    requires c in calls && Creates(c)
    ensures (c.vmId, Micros(c.timestamp)) in BuildFlat(Flat({}, map[]), calls).0.events
  {
    var n := |calls| - 1;
    if c in calls[..n] {
      FlatHasEvent(calls[..n], c);
    }
  }

  /** With this factory the set refines the flat map exactly when every call that it serves is
      for the configured source name. */
  lemma InTreeRefinesIff(calls: seq<Call>, sourceName: string)
    requires forall c <- calls :: InTree(c, sourceName) && Lists(c.listing, c.keys)
    ensures Refines(Build([], calls).0, BuildFlat(Flat({}, map[]), calls).0)
            <==> forall c <- calls :: Creates(c) ==> c.vmId == sourceName
  {
    var s := Build([], calls).0;
    InTreeRun(calls, sourceName);
    if forall c <- calls :: Creates(c) ==> c.vmId == sourceName {
      BuilderRefinesFlatMap(calls);
    } else {
      var c :| c in calls && Creates(c) && c.vmId != sourceName;
      FlatHasEvent(calls, c);
      assert !HasEvent(s, (c.vmId, Micros(c.timestamp)));
    }
  }

  ghost predicate DistinctEvents(s: seq<Measurement>) {
    forall i, j | 0 <= i < j < |s| :: EventKey(s[i]) != EventKey(s[j])
  }

  /** Every call that is not the first of its microsecond is for the configured source name. */
  ghost predicate RepeatsAreFor(calls: seq<Call>, sourceName: string) {
    forall i, j | 0 <= i < j < |calls| :: RepeatFits(calls[i], calls[j], sourceName)
  }

  predicate RepeatFits(b: Call, c: Call, sourceName: string) {
    Creates(c) && CreatesAt(b, Micros(c.timestamp)) ==> c.vmId == sourceName
  }

  /** And it has one event per source and microsecond exactly when every call for another name
      is the first one of its microsecond. */
  lemma {:induction false} InTreeDistinctIff(calls: seq<Call>, sourceName: string)
    requires forall c <- calls :: InTree(c, sourceName)
    ensures DistinctEvents(Build([], calls).0) <==> RepeatsAreFor(calls, sourceName)
  {
    if calls != [] {
      var init, c := calls[..|calls| - 1], calls[|calls| - 1];
      InTreeDistinctIff(init, sourceName);
      InTreeRun(init, sourceName);
      DistinctAfter(Build([], init).0, init, c, sourceName);
      RepeatsStep(init, c, sourceName);
      assert calls == init + [c];
    }
  }

  lemma DistinctAfter(s: seq<Measurement>, init: seq<Call>, c: Call, sourceName: string)
    requires InTree(c, sourceName) && Stamped(s, init, sourceName)
    ensures DistinctEvents(SetAdditional(s, c).0) <==>
            && DistinctEvents(s)
            && (!Creates(c) || c.vmId == sourceName || !HasCall(init, Micros(c.timestamp)))
  {
    var key := (sourceName, Micros(c.timestamp));
    InTreeStep(s, init, c, sourceName);
    DistinctStep(s, SetAdditional(s, c).0, key, !Creates(c) || (c.vmId == sourceName && HasEvent(s, key)));
  }

  lemma DistinctStep(s: seq<Measurement>, r: seq<Measurement>, key: (string, int), found: bool)
    requires if found then |r| == |s| && forall i | 0 <= i < |s| :: EventKey(r[i]) == EventKey(s[i])
             else |r| == |s| + 1 && r[..|s|] == s && EventKey(r[|s|]) == key
    ensures DistinctEvents(r) <==> DistinctEvents(s) && (found || !HasEvent(s, key))
  {
    if !found {
      forall i | 0 <= i < |s| ensures r[i] == s[i] { assert r[..|s|][i] == s[i]; }
    }
  }

  lemma RepeatsStep(init: seq<Call>, c: Call, sourceName: string)
    ensures RepeatsAreFor(init + [c], sourceName) <==>
            && RepeatsAreFor(init, sourceName)
            && (!Creates(c) || c.vmId == sourceName || !HasCall(init, Micros(c.timestamp)))
  {
    var calls, n := init + [c], |init|;
    assert calls[n] == c && forall i | 0 <= i < n :: calls[i] == init[i];
    if RepeatsAreFor(calls, sourceName) {
      forall i, j | 0 <= i < j < n ensures RepeatFits(init[i], init[j], sourceName) {
        assert RepeatFits(calls[i], calls[j], sourceName);
      }
      forall i | 0 <= i < n ensures RepeatFits(init[i], c, sourceName) {
        assert RepeatFits(calls[i], calls[n], sourceName);
      }
    }
  }
}
