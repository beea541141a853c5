/** Setting a metric by a path of field names (VESPA/ves-agent/metrics/set.go): a value tree of
    structs, pointers and slices, where a composite key selects the entry of a slice. */
module FieldPath {
  import opened Prelude
  import MeasurementSet

  type MeasKeys = MeasurementSet.MeasKeys

  /** Types of other kinds and struct types have a name. */
  datatype Type =
    | TFloat
    | TString
    | TOther(name: string)
    | TPtr(elem: Type)
    | TStruct(name: string, types: map<string, Type>)
    | TSlice(elem: Type)

  /** A nil pointer and a slice know the type of what they would hold. */
  datatype Value =
    | Float(r: real)
    | Str(s: string)
    | Other(name: string, id: int)
    | Nil(to: Type)
    | Ptr(target: Value)
    | Struct(name: string, fields: map<string, Value>)
    | Slice(of: Type, items: seq<Value>)

  function Zero(t: Type): Value {
    match t
    case TFloat => Float(0.0)
    case TString => Str("")
    case TOther(name) => Other(name, 0)
    case TPtr(e) => Nil(e)
    case TStruct(name, ts) => Struct(name, map n | n in ts :: Zero(ts[n]))
    case TSlice(e) => Slice(e, [])
  }

  predicate HasType(v: Value, t: Type)
    decreases v
  {
    match v
    case Float(_) => t.TFloat?
    case Str(_) => t.TString?
    case Other(name, _) => t == TOther(name)
    case Nil(e) => t == TPtr(e)
    case Ptr(w) => t.TPtr? && HasType(w, t.elem)
    case Struct(name, fs) =>
      t.TStruct? && t.name == name && fs.Keys == t.types.Keys && forall n <- fs :: HasType(fs[n], t.types[n])
    case Slice(e, items) => t == TSlice(e) && forall i | 0 <= i < |items| :: HasType(items[i], e)
  }

  lemma ZeroHasType(t: Type)
    ensures HasType(Zero(t), t)
  {}

  /******* What reflect prints *******/

  function TypeName(t: Type): string {
    match t
    case TFloat => "float64"
    case TString => "string"
    case TOther(name) => name
    case TPtr(e) => "*" + TypeName(e)
    case TStruct(name, _) => name
    case TSlice(e) => "[]" + TypeName(e)
  }

  function NameOf(v: Value): string {
    match v
    case Float(_) => "float64"
    case Str(_) => "string"
    case Other(name, _) => name
    case Nil(e) => "*" + TypeName(e)
    case Ptr(w) => "*" + NameOf(w)
    case Struct(name, _) => name
    case Slice(e, _) => "[]" + TypeName(e)
  }

  /** `reflect.Value.String`: the text of a string, a placeholder with the type for all else. */
  function Text(v: Value): string { if v.Str? then v.s else "<" + NameOf(v) + " Value>" }

  lemma TypedName(v: Value, t: Type)
    requires HasType(v, t)
    ensures NameOf(v) == TypeName(t)
  {}

  /******* Reading and writing *******/

  /** A key only constrains the fields that the entry has. */
  predicate Selects(keys: MeasKeys, entry: Value) {
    entry.Struct? && forall k <- keys :: k in entry.fields ==> Text(entry.fields[k]) == keys[k]
  }

  /** The first selected entry, or the length if there is none. */
  function FirstSelected(items: seq<Value>, keys: MeasKeys): (i: nat)
    ensures i <= |items| && (i < |items| ==> Selects(keys, items[i]))
    ensures forall j | 0 <= j < i :: !Selects(keys, items[j])
  {
    MeasurementSet.IndexOf(items, v => Selects(keys, v))
  }

  /** `sliceSearch`: all entries, and of each all keys, in whatever order. */
  method SliceSearch(items: seq<Value>, keys: MeasKeys) returns (i: nat)
    requires forall v <- items :: v.Struct?
    ensures i == FirstSelected(items, keys)
    ensures i <= |items| && (i < |items| ==> Carries(items[i], keys))
    ensures forall m | 0 <= m < i :: Contradicts(items[m], keys)
  {
    i := 0;
    while i < |items|
      invariant i <= |items| && forall j | 0 <= j < i :: !Selects(keys, items[j]) && Contradicts(items[j], keys)
    {
      var entry, todo, same := items[i], keys.Keys, true;
      assert entry in items;
      while todo != {} && same
        invariant todo <= keys.Keys
        invariant same ==> forall k <- keys :: k in todo || (k in entry.fields ==> Text(entry.fields[k]) == keys[k])
        invariant !same ==> !Selects(keys, entry)
      {
        var k :| k in todo;
        todo := todo - {k};
        same := k !in entry.fields || Text(entry.fields[k]) == keys[k];
      }
      SelectedCarries(entry, keys);
      if same {
        return;
      }
      i := i + 1;
    }
  }

  /** The keys can be written into a new entry. */
  predicate KeysFit(t: Type, keys: MeasKeys) {
    t.TStruct? && forall k <- keys :: k in t.types ==> t.types[k] == TString
  }

  /** `sliceAppendNew`: the zero entry with the key fields that it has. */
  function NewEntry(t: Type, keys: MeasKeys): Value
    requires t.TStruct?
  {
    Struct(t.name, map n | n in t.types :: if n in keys then Str(keys[n]) else Zero(t.types[n]))
  }

  /** The slice with an entry that the keys select, and its index. */
  function Ensure(of: Type, items: seq<Value>, keys: MeasKeys): (seq<Value>, nat)
    requires of.TStruct?
  {
    var i := FirstSelected(items, keys);
    (if i < |items| then items else items + [NewEntry(of, keys)], i)
  }

  /** Reflection cannot look for fields in an entry that is no struct, nor write a key into a
      field that is no string. */
  predicate Unusable(v: Value, keys: MeasKeys)
    requires v.Slice?
  {
    !v.of.TStruct? || (FirstSelected(v.items, keys) == |v.items| && !KeysFit(v.of, keys))
  }

  /** What such a slice is left as: without keys, a zero entry is appended before the panic. */
  function LeftByPanic(v: Value, keys: MeasKeys): Value
    requires v.Slice?
  {
    if !v.of.TStruct? && keys == map[] && v.items == [] then Slice(v.of, [Zero(v.of)]) else v
  }

  datatype Outcome = Done | Failed | Panic

  function TypeDepth(t: Type): nat { if t.TPtr? then 1 + TypeDepth(t.elem) else 0 }

  /** Pointers to go through before anything else. */
  function PtrDepth(v: Value): nat {
    match v
    case Ptr(w) => 1 + PtrDepth(w)
    case Nil(e) => 1 + TypeDepth(e)
    case _ => 0
  }

  lemma ZeroDepth(t: Type)
    ensures PtrDepth(Zero(t)) == TypeDepth(t)
  {}

  /** `setField`: the value afterwards, also where it fails or reflection panics on the way. */
  function SetField(v: Value, path: seq<string>, x: real, keys: MeasKeys): (Value, Outcome)
    decreases |path|, 1 + PtrDepth(v)
  {
    if v.Ptr? then
      var (w, o) := SetField(v.target, path, x, keys);
      (Ptr(w), o)
    else if v.Nil? then
      ZeroDepth(v.to);
      var (w, o) := SetField(Zero(v.to), path, x, keys);
      (Ptr(w), o)
    else if path == [] then
      if v.Float? then (Float(x), Done) else (v, Failed)
    else if v.Slice? then
      if Unusable(v, keys) then (LeftByPanic(v, keys), Panic) else
      var (items, i) := Ensure(v.of, v.items, keys);
      var (w, o) := SetEntry(items[i], path, x, keys);
      (Slice(v.of, items[i := w]), o)
    else SetEntry(v, path, x, keys)
  }

  /** The named field of a struct. */
  function SetEntry(v: Value, path: seq<string>, x: real, keys: MeasKeys): (Value, Outcome)
    requires path != []
    decreases |path|, 0
  {
    if v.Struct? && path[0] in v.fields then
      var (w, o) := SetField(v.fields[path[0]], path[1..], x, keys);
      (v.(fields := v.fields[path[0] := w]), o)
    else (v, Failed)
  }

  /** Reads the float at a path, with keys that select slice entries. */
  function Get(v: Value, path: seq<string>, keys: MeasKeys): Option<real>
    decreases v
  {
    match v
    case Ptr(w) => Get(w, path, keys)
    case Float(r) => if path == [] then Some(r) else None
    case Struct(_, fs) => if path != [] && path[0] in fs then Get(fs[path[0]], path[1..], keys) else None
    case Slice(_, items) =>
      var i := FirstSelected(items, keys);
      if path != [] && i < |items| then Get(items[i], path, keys) else None
    case Nil(_) => None
    case Str(_) => None
    case Other(_, _) => None
  }

  /******* When a path can be set *******/

  /** The path leads to a float in every value of the type. */
  predicate Resolves(t: Type, path: seq<string>)
    decreases t
  {
    match t
    case TPtr(e) => Resolves(e, path)
    case TFloat => path == []
    case TStruct(_, ts) => path != [] && path[0] in ts && Resolves(ts[path[0]], path[1..])
    case TSlice(e) => path != [] && e.TStruct? && path[0] in e.types && Resolves(e.types[path[0]], path[1..])
    case TString => false
    case TOther(_) => false
  }

  /** In every slice along the path, the keys name string fields or no field. */
  predicate Fits(t: Type, path: seq<string>, keys: MeasKeys)
    decreases t
  {
    match t
    case TPtr(e) => Fits(e, path, keys)
    case TStruct(_, ts) => path != [] && path[0] in ts ==> Fits(ts[path[0]], path[1..], keys)
    case TSlice(e) =>
      path != [] ==> KeysFit(e, keys) && (path[0] in e.types ==> Fits(e.types[path[0]], path[1..], keys))
    case TFloat => true
    case TString => true
    case TOther(_) => true
  }

  lemma NewEntryFits(t: Type, keys: MeasKeys)
    requires KeysFit(t, keys)
    ensures HasType(NewEntry(t, keys), t) && Selects(keys, NewEntry(t, keys))
  {
    forall n | n in t.types ensures HasType(Zero(t.types[n]), t.types[n]) { ZeroHasType(t.types[n]); }
  }

  lemma EnsureTyped(v: Value, keys: MeasKeys)
    requires v.Slice? && HasType(v, TSlice(v.of)) && !Unusable(v, keys)
    ensures var (e, i) := Ensure(v.of, v.items, keys);
            && i < |e| && v.items <= e && |e| == (if i < |v.items| then |v.items| else |v.items| + 1)
            && (forall j | 0 <= j < |e| :: HasType(e[j], v.of))
            && Selects(keys, e[i]) && (forall j | 0 <= j < i :: !Selects(keys, e[j]))
  {
    if FirstSelected(v.items, keys) == |v.items| {
      NewEntryFits(v.of, keys);
    }
  }

  /** Setting keeps the type, whatever its outcome. It succeeds only on a path that leads to a
      float, fails only on one that does not, and panics only where the keys do not fit. */
  lemma {:induction false} SetByType(v: Value, t: Type, path: seq<string>, x: real, keys: MeasKeys)
    requires HasType(v, t)
    ensures var (n, o) := SetField(v, path, x, keys);
            && HasType(n, t)
            && (o == Done ==> Resolves(t, path))
            && (o == Failed ==> !Resolves(t, path))
            && (o == Panic ==> !Fits(t, path, keys))
    decreases |path|, 1 + PtrDepth(v)
  {
    if v.Ptr? {
      SetByType(v.target, t.elem, path, x, keys);
    } else if v.Nil? {
      ZeroDepth(v.to);
      ZeroHasType(v.to);
      SetByType(Zero(v.to), t.elem, path, x, keys);
    } else if path != [] && v.Slice? && !Unusable(v, keys) {
      EnsureTyped(v, keys);
      var (items, i) := Ensure(v.of, v.items, keys);
      EntryByType(items[i], v.of, path, x, keys);
    } else if path != [] && v.Slice? {
      ZeroHasType(v.of);
    } else if path != [] && v.Struct? {
      EntryByType(v, t, path, x, keys);
    }
  }

  lemma {:induction false} EntryByType(v: Value, t: Type, path: seq<string>, x: real, keys: MeasKeys)
    requires HasType(v, t) && t.TStruct? && path != []
    ensures var (n, o) := SetEntry(v, path, x, keys);
            && HasType(n, t)
            && (o == Done ==> path[0] in t.types && Resolves(t.types[path[0]], path[1..]))
            && (o == Failed ==> !(path[0] in t.types && Resolves(t.types[path[0]], path[1..])))
            && (o == Panic ==> path[0] in t.types && !Fits(t.types[path[0]], path[1..], keys))
    decreases |path|, 0
  {
    if path[0] in t.types {
      SetByType(v.fields[path[0]], t.types[path[0]], path[1..], x, keys);
    }
  }

  /** Where the keys do not fit, setting the zero value panics. */
  lemma {:induction false} ZeroPanics(t: Type, path: seq<string>, x: real, keys: MeasKeys)
    requires !Fits(t, path, keys)
    ensures SetField(Zero(t), path, x, keys).1 == Panic
    decreases t
  {
    match t {
      case TPtr(e) =>
        ZeroPanics(e, path, x, keys);
      case TStruct(_, ts) =>
        ZeroPanics(ts[path[0]], path[1..], x, keys);
      case TSlice(e) =>
        if KeysFit(e, keys) {
          var ts := e.types;
          assert NewEntry(e, keys).fields[path[0]] == Zero(ts[path[0]]);
          ZeroPanics(ts[path[0]], path[1..], x, keys);
        }
    }
  }

  /** No value of the type makes a set panic, exactly when the keys fit along the path. */
  lemma PanicsIffUnfit(t: Type, path: seq<string>, x: real, keys: MeasKeys)
    ensures (exists v :: HasType(v, t) && SetField(v, path, x, keys).1 == Panic) <==> !Fits(t, path, keys)
  {
    if Fits(t, path, keys) {
      forall v | HasType(v, t) ensures SetField(v, path, x, keys).1 != Panic { SetByType(v, t, path, x, keys); }
    } else {
      ZeroHasType(t);
      ZeroPanics(t, path, x, keys);
    }
  }

  /** With fitting keys, whether a path can be set is a matter of the type alone. */
  lemma SetIffResolves(v: Value, t: Type, path: seq<string>, x: real, keys: MeasKeys)
    requires HasType(v, t) && Fits(t, path, keys)
    ensures SetField(v, path, x, keys).1 == if Resolves(t, path) then Done else Failed
  {
    SetByType(v, t, path, x, keys);
  }

  /******* Reading back *******/

  /** Setting a field keeps what the entry's key fields show: a string cannot be set, and any
      other field shows its type only. */
  lemma StaysSelected(v: Value, t: Type, path: seq<string>, x: real, keys: MeasKeys, others: MeasKeys)
    requires HasType(v, t) && t.TStruct? && path != []
    ensures Selects(others, SetEntry(v, path, x, keys).0) <==> Selects(others, v)
  {
    var name, n := path[0], SetEntry(v, path, x, keys).0;
    if name in v.fields {
      SetByType(v.fields[name], t.types[name], path[1..], x, keys);
      TypedName(v.fields[name], t.types[name]);
      TypedName(n.fields[name], t.types[name]);
      forall k | k in v.fields ensures Text(n.fields[k]) == Text(v.fields[k]) {}
    }
  }

  lemma FoundAgain(items: seq<Value>, i: nat, of: Type, path: seq<string>, x: real, keys: MeasKeys)
    requires i < |items| && HasType(items[i], of) && of.TStruct? && path != []
    requires Selects(keys, items[i]) && (forall j | 0 <= j < i :: !Selects(keys, items[j]))
    ensures FirstSelected(items[i := SetEntry(items[i], path, x, keys).0], keys) == i
  {
    StaysSelected(items[i], of, path, x, keys, keys);
    var after := items[i := SetEntry(items[i], path, x, keys).0];
    var r := FirstSelected(after, keys);
    assert Selects(keys, after[i]) && r <= i;
  }

  /** After a successful set, reading the same path with the same keys gives the value. */
  lemma {:induction false} GetAfterSet(v: Value, t: Type, path: seq<string>, x: real, keys: MeasKeys)
    requires HasType(v, t) && SetField(v, path, x, keys).1 == Done
    ensures Get(SetField(v, path, x, keys).0, path, keys) == Some(x)
    decreases |path|, 1 + PtrDepth(v)
  {
    if v.Ptr? {
      GetAfterSet(v.target, t.elem, path, x, keys);
    } else if v.Nil? {
      ZeroDepth(v.to);
      ZeroHasType(v.to);
      GetAfterSet(Zero(v.to), t.elem, path, x, keys);
    } else if path != [] && v.Slice? {
      EnsureTyped(v, keys);
      var (items, i) := Ensure(v.of, v.items, keys);
      GetAfterSetEntry(items[i], v.of, path, x, keys);
      FoundAgain(items, i, v.of, path, x, keys);
    } else if path != [] {
      GetAfterSetEntry(v, t, path, x, keys);
    }
  }

  lemma {:induction false} GetAfterSetEntry(v: Value, t: Type, path: seq<string>, x: real, keys: MeasKeys)
    requires HasType(v, t) && t.TStruct? && path != [] && SetEntry(v, path, x, keys).1 == Done
    ensures Get(SetEntry(v, path, x, keys).0, path, keys) == Some(x)
    decreases |path|, 0
  {
    GetAfterSet(v.fields[path[0]], t.types[path[0]], path[1..], x, keys);
  }

  /******* What the keys select *******/

  /** The entry has the keys' values in all string fields that they name. */
  predicate Carries(entry: Value, keys: MeasKeys) {
    entry.Struct? &&
    forall k <- keys :: k in entry.fields && entry.fields[k].Str? ==> entry.fields[k].s == keys[k]
  }

  /** The entry has something else in a field that the keys name. */
  predicate Contradicts(entry: Value, keys: MeasKeys) {
    !entry.Struct? || exists k <- keys :: k in entry.fields && entry.fields[k] != Str(keys[k])
  }

  /** On the way along an address, every entry of a slice that is entered carries the keys. */
  predicate EntersKeyed(n: Value, a: seq<Step>, keys: MeasKeys)
    decreases |a|
  {
    if a == [] then true
    else match a[0]
      case Deref => n.Ptr? && EntersKeyed(n.target, a[1..], keys)
      case Field(name) => n.Struct? && name in n.fields && EntersKeyed(n.fields[name], a[1..], keys)
      case Index(i) => n.Slice? && i < |n.items| && Carries(n.items[i], keys) && EntersKeyed(n.items[i], a[1..], keys)
  }

  /** On the way along an address, as far as it exists, every entry before the one entered, and every
      entry at all where a new one will be, contradicts the keys. */
  predicate EntersFirst(v: Value, a: seq<Step>, keys: MeasKeys)
    decreases |a|
  {
    if a == [] then true
    else match a[0]
      case Deref => v.Ptr? ==> EntersFirst(v.target, a[1..], keys)
      case Field(name) => v.Struct? && name in v.fields && EntersFirst(v.fields[name], a[1..], keys)
      case Index(i) =>
        && v.Slice? && i <= |v.items| && (forall m | 0 <= m < i :: Contradicts(v.items[m], keys))
        && (i < |v.items| ==> EntersFirst(v.items[i], a[1..], keys))
  }

  lemma SelectedCarries(entry: Value, keys: MeasKeys)
    ensures Selects(keys, entry) ==> Carries(entry, keys)
    ensures !Selects(keys, entry) ==> Contradicts(entry, keys)
  {}

  /** A set enters, in every slice on its way, an entry that carries the keys: the first one that
      does not contradict them, or a new one if all do. */
  lemma {:induction false} SetEntersSelected(v: Value, t: Type, path: seq<string>, x: real, keys: MeasKeys)
    requires HasType(v, t)
    ensures EntersKeyed(SetField(v, path, x, keys).0, Target(v, path, keys), keys)
    ensures EntersFirst(v, Target(v, path, keys), keys)
    decreases |path|, 2 + PtrDepth(v)
  {
    if v.Ptr? {
      SetEntersSelected(v.target, t.elem, path, x, keys);
      PrefixOfCons([], Deref, Target(v.target, path, keys));
    } else if v.Nil? {
      ZeroDepth(v.to);
      ZeroHasType(v.to);
      SetEntersSelected(Zero(v.to), t.elem, path, x, keys);
      PrefixOfCons([], Deref, Target(Zero(v.to), path, keys));
    } else if path != [] && v.Slice? && !Unusable(v, keys) {
      SliceEntersSelected(v, path, x, keys);
    } else if path != [] && v.Struct? {
      EntryEntersSelected(v, t, path, x, keys);
    } else {
      assert path != [] && !v.Slice? ==> EntryTarget(v, path, keys) == [];
    }
  }

  lemma {:induction false} SliceEntersSelected(v: Value, path: seq<string>, x: real, keys: MeasKeys)
    requires v.Slice? && HasType(v, TSlice(v.of)) && path != [] && !Unusable(v, keys)
    ensures EntersKeyed(SetField(v, path, x, keys).0, Target(v, path, keys), keys)
    ensures EntersFirst(v, Target(v, path, keys), keys)
    decreases |path|, 1
  {
    EnsureTyped(v, keys);
    var (items, i) := Ensure(v.of, v.items, keys);
    EntryEntersSelected(items[i], v.of, path, x, keys);
    PrefixOfCons([], Index(i), EntryTarget(items[i], path, keys));
    StaysSelected(items[i], v.of, path, x, keys, keys);
    SelectedCarries(SetEntry(items[i], path, x, keys).0, keys);
    forall m | 0 <= m < i ensures Contradicts(v.items[m], keys) { SelectedCarries(v.items[m], keys); }
  }

  lemma {:induction false} EntryEntersSelected(v: Value, t: Type, path: seq<string>, x: real, keys: MeasKeys)
    requires HasType(v, t) && t.TStruct? && path != []
    ensures EntersKeyed(SetEntry(v, path, x, keys).0, EntryTarget(v, path, keys), keys)
    ensures EntersFirst(v, EntryTarget(v, path, keys), keys)
    decreases |path|, 0
  {
    if path[0] in v.fields {
      SetEntersSelected(v.fields[path[0]], t.types[path[0]], path[1..], x, keys);
      PrefixOfCons([], Field(path[0]), Target(v.fields[path[0]], path[1..], keys));
    }
  }

  /** A key that names a field that is no string selects an entry only with the text that reflection
      prints for the field's type. */
  lemma PlaceholderKeys(entry: Value, keys: MeasKeys, k: string)
    requires Selects(keys, entry) && k in keys && k in entry.fields && !entry.fields[k].Str?
    ensures keys[k] == "<" + NameOf(entry.fields[k]) + " Value>"
    ensures entry.fields[k].Float? ==> keys[k] == "<float64 Value>"
  {}

  /** Entries that are no structs panic; only an empty slice, without keys, has grown by then. */
  lemma NoStructsPanic(of: Type, items: seq<Value>, path: seq<string>, x: real, keys: MeasKeys)
    requires !of.TStruct? && path != []
    ensures var (n, o) := SetField(Slice(of, items), path, x, keys);
            && o == Panic && n.Slice? && n.of == of && items <= n.items
            && (if |items| + |keys| == 0 then |n.items| == 1 && HasType(n.items[0], of) && IsZero(n.items[0])
                else n.items == items)
  {
    ZeroHasType(of);
    ZeroIsZero(of);
  }

  /** Two key sets give different values to a string field of the entries. */
  predicate TellApart(t: Type, k1: MeasKeys, k2: MeasKeys) {
    t.TStruct? && exists k <- k1 :: k in k2 && k1[k] != k2[k] && k in t.types && t.types[k] == TString
  }

  /** They do so in some slice along the path. */
  predicate Differ(t: Type, path: seq<string>, k1: MeasKeys, k2: MeasKeys)
    decreases t
  {
    match t
    case TPtr(e) => Differ(e, path, k1, k2)
    case TStruct(_, ts) => path != [] && path[0] in ts && Differ(ts[path[0]], path[1..], k1, k2)
    case TSlice(e) =>
      && path != [] && e.TStruct?
      && (TellApart(e, k1, k2) || (path[0] in e.types && Differ(e.types[path[0]], path[1..], k1, k2)))
    case TFloat => false
    case TString => false
    case TOther(_) => false
  }

  lemma NotBoth(entry: Value, t: Type, k1: MeasKeys, k2: MeasKeys)
    requires HasType(entry, t) && TellApart(t, k1, k2)
    ensures !(Selects(k1, entry) && Selects(k2, entry))
  {
    var k :| k in k1 && k in k2 && k1[k] != k2[k] && k in t.types && t.types[k] == TString;
    assert HasType(entry.fields[k], TString);
  }

  /** A path that goes through a slice reads nothing from a zero value. */
  lemma {:induction false} NothingInZero(t: Type, path: seq<string>, k1: MeasKeys, k2: MeasKeys)
    requires Differ(t, path, k1, k2)
    ensures Get(Zero(t), path, k2) == None
    decreases t
  {
    match t {
      case TPtr(e) =>
      case TStruct(_, ts) => NothingInZero(ts[path[0]], path[1..], k1, k2);
      case TSlice(e) =>
    }
  }

  lemma NothingInNew(t: Type, path: seq<string>, k1: MeasKeys, k2: MeasKeys)
    requires KeysFit(t, k1) && path != [] && path[0] in t.types && Differ(t.types[path[0]], path[1..], k1, k2)
    ensures Get(NewEntry(t, k1), path, k2) == None
  {
    assert path[0] !in k1;
    assert NewEntry(t, k1).fields[path[0]] == Zero(t.types[path[0]]);
    NothingInZero(t.types[path[0]], path[1..], k1, k2);
  }

  lemma SameFirst(items: seq<Value>, i: nat, w: Value, keys: MeasKeys)
    requires i < |items| && (Selects(keys, w) <==> Selects(keys, items[i]))
    ensures FirstSelected(items[i := w], keys) == FirstSelected(items, keys)
  {
    forall j | 0 <= j < |items| ensures Selects(keys, items[i := w][j]) <==> Selects(keys, items[j]) {}
  }

  lemma AppendedFirst(items: seq<Value>, w: Value, keys: MeasKeys)
    ensures var i := FirstSelected(items, keys);
            FirstSelected(items + [w], keys) ==
            if i < |items| then i else if Selects(keys, w) then |items| else |items| + 1
  {
    var a, i := FirstSelected(items + [w], keys), FirstSelected(items, keys);
    assert (items + [w])[|items|] == w && forall j | 0 <= j < |items| :: (items + [w])[j] == items[j];
    if i < |items| {
      assert Selects(keys, (items + [w])[i]);
    }
  }

  /** Setting with one key set does not change what is read with another that differs from it, in a
      string field that both name, in some slice along the path. */
  lemma {:induction false} SetKeepsOthers(
    v: Value, t: Type, path: seq<string>, x: real, k1: MeasKeys, k2: MeasKeys)
    requires HasType(v, t) && Differ(t, path, k1, k2)
    ensures Get(SetField(v, path, x, k1).0, path, k2) == Get(v, path, k2)
    decreases |path|, 2 + PtrDepth(v)
  {
    if v.Ptr? {
      SetKeepsOthers(v.target, t.elem, path, x, k1, k2);
    } else if v.Nil? {
      ZeroDepth(v.to);
      ZeroHasType(v.to);
      SetKeepsOthers(Zero(v.to), t.elem, path, x, k1, k2);
      NothingInZero(v.to, path, k1, k2);
    } else if v.Slice? && !Unusable(v, k1) {
      SliceKeepsOthers(v, path, x, k1, k2);
    } else if v.Struct? {
      EntryKeepsOthers(v, t, path, x, k1, k2);
    }
  }

  lemma {:induction false} SliceKeepsOthers(v: Value, path: seq<string>, x: real, k1: MeasKeys, k2: MeasKeys)
    requires v.Slice? && HasType(v, TSlice(v.of)) && path != [] && !Unusable(v, k1)
    requires Differ(TSlice(v.of), path, k1, k2)
    ensures Get(SetField(v, path, x, k1).0, path, k2) == Get(v, path, k2)
    decreases |path|, 1
  {
    EnsureTyped(v, k1);
    var (items, i) := Ensure(v.of, v.items, k1);
    var w := SetEntry(items[i], path, x, k1).0;
    StaysSelected(items[i], v.of, path, x, k1, k2);
    if TellApart(v.of, k1, k2) {
      NotBoth(items[i], v.of, k1, k2);
    } else {
      EntryKeepsOthers(items[i], v.of, path, x, k1, k2);
      if i == |v.items| {
        NothingInNew(v.of, path, k1, k2);
      }
    }
    if i < |v.items| {
      ReplacedReads(v, i, w, path, k2);
    } else {
      AppendedReads(v, w, path, k2);
      assert items[i := w] == v.items + [w];
    }
  }

  lemma ReplacedReads(v: Value, i: nat, w: Value, path: seq<string>, keys: MeasKeys)
    requires v.Slice? && i < |v.items| && (Selects(keys, w) <==> Selects(keys, v.items[i]))
    requires Selects(keys, w) ==> Get(w, path, keys) == Get(v.items[i], path, keys)
    ensures Get(Slice(v.of, v.items[i := w]), path, keys) == Get(v, path, keys)
  {
    SameFirst(v.items, i, w, keys);
  }

  lemma AppendedReads(v: Value, w: Value, path: seq<string>, keys: MeasKeys)
    requires v.Slice? && (Selects(keys, w) ==> Get(w, path, keys) == None)
    ensures Get(Slice(v.of, v.items + [w]), path, keys) == Get(v, path, keys)
  {
    AppendedFirst(v.items, w, keys);
  }

  lemma {:induction false} EntryKeepsOthers(
    v: Value, t: Type, path: seq<string>, x: real, k1: MeasKeys, k2: MeasKeys)
    requires HasType(v, t) && t.TStruct? && path != [] && path[0] in t.types
    requires Differ(t.types[path[0]], path[1..], k1, k2)
    ensures Get(SetEntry(v, path, x, k1).0, path, k2) == Get(v, path, k2)
    decreases |path|, 0
  {
    SetKeepsOthers(v.fields[path[0]], t.types[path[0]], path[1..], x, k1, k2);
  }

  /******* What a set leaves alone *******/

  datatype Step = Field(name: string) | Index(i: nat) | Deref

  /** The value at an address in the tree. */
  function At(v: Value, a: seq<Step>): Option<Value>
    decreases |a|
  {
    if a == [] then Some(v)
    else if a[0].Deref? && v.Ptr? then At(v.target, a[1..])
    else if a[0].Field? && v.Struct? && a[0].name in v.fields then At(v.fields[a[0].name], a[1..])
    else if a[0].Index? && v.Slice? && a[0].i < |v.items| then At(v.items[a[0].i], a[1..])
    else None
  }

  /** The address that a set writes; where it does not succeed, the address at which it gives up. */
  function Target(v: Value, path: seq<string>, keys: MeasKeys): seq<Step>
    decreases |path|, 1 + PtrDepth(v)
  {
    if v.Ptr? then [Deref] + Target(v.target, path, keys)
    else if v.Nil? then
      ZeroDepth(v.to);
      [Deref] + Target(Zero(v.to), path, keys)
    else if path == [] then []
    else if v.Slice? then
      if Unusable(v, keys) then [] else
      var (items, i) := Ensure(v.of, v.items, keys);
      [Index(i)] + EntryTarget(items[i], path, keys)
    else EntryTarget(v, path, keys)
  }

  function EntryTarget(v: Value, path: seq<string>, keys: MeasKeys): seq<Step>
    requires path != []
    decreases |path|, 0
  {
    if v.Struct? && path[0] in v.fields
    then [Field(path[0])] + Target(v.fields[path[0]], path[1..], keys) else []
  }

  /** What may become of a value on the way to the target: a nil pointer is set, a slice in which
      no entry is selected gains one. */
  predicate OnTheWay(v: Value, n: Value, keys: MeasKeys) {
    match v
    case Float(_) => n.Float?
    case Str(_) => n == v
    case Other(_, _) => n == v
    case Nil(_) => n.Ptr?
    case Ptr(_) => n.Ptr?
    case Struct(name, fs) => n.Struct? && n.name == name && n.fields.Keys == fs.Keys
    case Slice(of, items) =>
      && n.Slice? && n.of == of && |items| <= |n.items| <= |items| + 1
      && (|items| < |n.items| ==> FirstSelected(items, keys) == |items|)
  }

  /** What the frame says of one address: all that is not on the way to the target is as before. */
  ghost predicate Kept(v: Value, n: Value, a: seq<Step>, target: seq<Step>, keys: MeasKeys) {
    At(v, a).Some? ==>
      && (!(a <= target) ==> At(n, a) == At(v, a))
      && (a <= target ==> At(n, a).Some? && OnTheWay(At(v, a).value, At(n, a).value, keys))
  }

  /** A set, successful or not, changes no existing value that does not lie on the way to its
      target; on the way it sets nil pointers and appends at most one entry to a slice; at the
      target, if it succeeds, is the value. */
  lemma {:induction false} SetFrame(v: Value, t: Type, path: seq<string>, x: real, keys: MeasKeys, a: seq<Step>)
    requires HasType(v, t)
    ensures var (n, o) := SetField(v, path, x, keys);
            && (o == Done ==> At(n, Target(v, path, keys)) == Some(Float(x)))
            && Kept(v, n, a, Target(v, path, keys), keys)
    decreases |path|, 2 + PtrDepth(v)
  {
    var tail := if a == [] then [] else a[1..];
    if v.Ptr? {
      SetFrame(v.target, t.elem, path, x, keys, tail);
      PtrFrame(v, SetField(v.target, path, x, keys).0, a, Target(v.target, path, keys), keys);
    } else if v.Nil? {
      ZeroDepth(v.to);
      ZeroHasType(v.to);
      SetFrame(Zero(v.to), t.elem, path, x, keys, tail);
      PtrFrame(v, SetField(Zero(v.to), path, x, keys).0, a, Target(Zero(v.to), path, keys), keys);
    } else if path != [] && v.Slice? && !Unusable(v, keys) {
      EnsureTyped(v, keys);
      var (items, i) := Ensure(v.of, v.items, keys);
      EntryFrame(items[i], v.of, path, x, keys, tail);
      SliceFrame(v, items, i, SetEntry(items[i], path, x, keys).0, a, EntryTarget(items[i], path, keys), keys);
    } else if path != [] && v.Slice? {
      PanicFrame(v, a, keys);
    } else if path != [] && v.Struct? {
      EntryFrame(v, t, path, x, keys, a);
    } else {
      assert path != [] && !v.Slice? ==> SetEntry(v, path, x, keys).0 == v;
      SameFrame(v, SetField(v, path, x, keys).0, a, keys);
    }
  }

  lemma {:induction false} EntryFrame(v: Value, t: Type, path: seq<string>, x: real, keys: MeasKeys, a: seq<Step>)
    requires HasType(v, t) && t.TStruct? && path != []
    ensures var (n, o) := SetEntry(v, path, x, keys);
            && (o == Done ==> At(n, EntryTarget(v, path, keys)) == Some(Float(x)))
            && Kept(v, n, a, EntryTarget(v, path, keys), keys)
    decreases |path|, 0
  {
    if path[0] in v.fields {
      var was := v.fields[path[0]];
      SetFrame(was, t.types[path[0]], path[1..], x, keys, if a == [] then [] else a[1..]);
      FieldFrame(v, path[0], SetField(was, path[1..], x, keys).0, a, Target(was, path[1..], keys), keys);
    }
  }

  lemma SameFrame(v: Value, n: Value, a: seq<Step>, keys: MeasKeys)
    requires !v.Nil? && (n == v || (v.Float? && n.Float?))
    ensures Kept(v, n, a, [], keys)
  {}

  lemma PanicFrame(v: Value, a: seq<Step>, keys: MeasKeys)
    requires v.Slice?
    ensures Kept(v, LeftByPanic(v, keys), a, [], keys)
  {}

  /** From the frame of the field to the frame of the struct. */
  lemma FieldFrame(v: Value, name: string, n: Value, a: seq<Step>, target: seq<Step>, keys: MeasKeys)
    requires v.Struct? && name in v.fields
    requires a != [] ==> Kept(v.fields[name], n, a[1..], target, keys)
    ensures var s := v.(fields := v.fields[name := n]);
            At(s, [Field(name)] + target) == At(n, target) && Kept(v, s, a, [Field(name)] + target, keys)
  {
    PrefixOfCons(a, Field(name), target);
  }

  /** From the frame of the target to the frame of the pointer. */
  lemma PtrFrame(v: Value, n: Value, a: seq<Step>, target: seq<Step>, keys: MeasKeys)
    requires v.Ptr? || v.Nil?
    requires v.Ptr? && a != [] ==> Kept(v.target, n, a[1..], target, keys)
    ensures At(Ptr(n), [Deref] + target) == At(n, target)
    ensures Kept(v, Ptr(n), a, [Deref] + target, keys)
  {
    PrefixOfCons(a, Deref, target);
  }

  /** From the frame of the entry to the frame of the slice. */
  lemma SliceFrame(v: Value, items: seq<Value>, i: nat, n: Value, a: seq<Step>, target: seq<Step>, keys: MeasKeys)
    requires v.Slice? && v.items <= items && i == FirstSelected(v.items, keys) < |items|
    requires |items| == if i < |v.items| then |v.items| else |v.items| + 1
    requires a != [] ==> Kept(items[i], n, a[1..], target, keys)
    ensures At(Slice(v.of, items[i := n]), [Index(i)] + target) == At(n, target)
    ensures Kept(v, Slice(v.of, items[i := n]), a, [Index(i)] + target, keys)
  {
    PrefixOfCons(a, Index(i), target);
    if a != [] && a[0].Index? && a[0].i < |v.items| {
      assert v.items[a[0].i] == items[a[0].i];
    }
  }

  lemma PrefixOfCons(a: seq<Step>, s: Step, target: seq<Step>)
    ensures ([s] + target)[1..] == target
    ensures a <= [s] + target <==> a == [] || (a[0] == s && a[1..] <= target)
  {
    if a != [] && a[0] == s && a[1..] <= target {
      assert a == [s] + a[1..];
    }
  }

  /******* What a set adds *******/

  /** Nothing is in it. */
  predicate IsZero(v: Value) {
    match v
    case Float(r) => r == 0.0
    case Str(s) => s == ""
    case Other(_, id) => id == 0
    case Nil(_) => true
    case Ptr(_) => false
    case Struct(_, fs) => forall n <- fs :: IsZero(fs[n])
    case Slice(_, items) => items == []
  }

  lemma ZeroIsZero(t: Type)
    ensures IsZero(Zero(t))
  {}

  predicate Blank(v: Value, keys: MeasKeys) { (v.Str? && v.s in keys.Values) || IsZero(v) }

  lemma {:induction false} BlankParts(t: Type, a: seq<Step>, keys: MeasKeys)
    requires At(Zero(t), a).Some?
    ensures Blank(At(Zero(t), a).value, keys)
    decreases |a|
  {
    if a == [] {
      ZeroIsZero(t);
    } else {
      BlankParts(t.types[a[0].name], a[1..], keys);
    }
  }

  lemma BlankEntryParts(t: Type, a: seq<Step>, keys: MeasKeys)
    requires t.TStruct? && a != [] && At(NewEntry(t, keys), a).Some?
    ensures Blank(At(NewEntry(t, keys), a).value, keys)
  {
    var name := a[0].name;
    if name !in keys {
      BlankParts(t.types[name], a[1..], keys);
    }
  }

  /** Off the way to the target, all that a set adds to the tree is zero or the text of a key. */
  ghost predicate AddsBlanks(v: Value, n: Value, a: seq<Step>, target: seq<Step>, keys: MeasKeys) {
    At(v, a).None? && At(n, a).Some? && !(a <= target) ==> Blank(At(n, a).value, keys)
  }

  lemma {:induction false} SetAddsBlanks(v: Value, t: Type, path: seq<string>, x: real, keys: MeasKeys, a: seq<Step>)
    requires HasType(v, t)
    ensures AddsBlanks(v, SetField(v, path, x, keys).0, a, Target(v, path, keys), keys)
    decreases |path|, 2 + PtrDepth(v)
  {
    var tail := if a == [] then [] else a[1..];
    if v.Ptr? {
      SetAddsBlanks(v.target, t.elem, path, x, keys, tail);
      PrefixOfCons(a, Deref, Target(v.target, path, keys));
    } else if v.Nil? {
      ZeroDepth(v.to);
      ZeroHasType(v.to);
      var z := Zero(v.to);
      PrefixOfCons(a, Deref, Target(z, path, keys));
      SetAddsBlanks(z, t.elem, path, x, keys, tail);
      SetFrame(z, t.elem, path, x, keys, tail);
      if At(z, tail).Some? { BlankParts(v.to, tail, keys); }
    } else if path != [] && v.Slice? && !Unusable(v, keys) {
      SliceAddsBlanks(v, path, x, keys, a);
    } else if path != [] && v.Slice? {
      if a != [] && v.items == [] && At(LeftByPanic(v, keys), a).Some? { BlankParts(v.of, a[1..], keys); }
    } else if path != [] && v.Struct? {
      EntryAddsBlanks(v, t, path, x, keys, a);
    }
  }

  lemma {:induction false} SliceAddsBlanks(v: Value, path: seq<string>, x: real, keys: MeasKeys, a: seq<Step>)
    requires v.Slice? && HasType(v, TSlice(v.of)) && path != [] && !Unusable(v, keys)
    ensures AddsBlanks(v, SetField(v, path, x, keys).0, a, Target(v, path, keys), keys)
    decreases |path|, 1
  {
    EnsureTyped(v, keys);
    var (items, i) := Ensure(v.of, v.items, keys);
    var target := EntryTarget(items[i], path, keys);
    PrefixOfCons(a, Index(i), target);
    if a != [] && a[0] == Index(i) {
      EntryAddsBlanks(items[i], v.of, path, x, keys, a[1..]);
      EntryFrame(items[i], v.of, path, x, keys, a[1..]);
      if i == |v.items| && a[1..] != [] && At(items[i], a[1..]).Some? { BlankEntryParts(v.of, a[1..], keys); }
    }
  }

  lemma {:induction false} EntryAddsBlanks(v: Value, t: Type, path: seq<string>, x: real, keys: MeasKeys, a: seq<Step>)
    requires HasType(v, t) && t.TStruct? && path != []
    ensures AddsBlanks(v, SetEntry(v, path, x, keys).0, a, EntryTarget(v, path, keys), keys)
    decreases |path|, 0
  {
    if path[0] in v.fields {
      var was := v.fields[path[0]];
      SetAddsBlanks(was, t.types[path[0]], path[1..], x, keys, if a == [] then [] else a[1..]);
      PrefixOfCons(a, Field(path[0]), Target(was, path[1..], keys));
    }
  }

  /******* The builder around it *******/

  /** A measurement event: its two stamps, and the struct of its fields. */
  datatype Event = Event(sourceName: string, lastMicros: int, fields: Value)

  datatype Builder = Builder(events: seq<Event>, valid: bool)

  /** `path` is the field list split at its dots, empty for an empty list; `created` is what the
      factory would return. */
  datatype SetCall = SetCall(
    path: seq<string>, vmId: string, micros: int, value: real, keys: MeasKeys, created: Option<Event>)

  function FindEvent(events: seq<Event>, c: SetCall): (i: nat)
    ensures i <= |events| && (i < |events| ==> events[i].sourceName == c.vmId && events[i].lastMicros == c.micros)
    ensures forall j | 0 <= j < i :: events[j].sourceName != c.vmId || events[j].lastMicros != c.micros
  {
    MeasurementSet.IndexOf(events, (e: Event) => e.lastMicros == c.micros && e.sourceName == c.vmId)
  }

  datatype SetOutcome = Stored | Rejected | Invalidated | Panicked

  /** `EventMeasurementSetBuilder.Set`; on a builder that is not valid the process exits. */
  function Set(b: Builder, c: SetCall): (Builder, SetOutcome)
    requires b.valid
  {
    if c.path == [] || c.vmId == "" then (b, Rejected) else
    var i := FindEvent(b.events, c);
    if i == |b.events| && c.created.None? then (b, Rejected) else
    var events := if i < |b.events| then b.events else b.events + [c.created.value];
    var (v, o) := SetField(events[i].fields, c.path, c.value, c.keys);
    if o == Failed then (Builder([], false), Invalidated)
    else (Builder(events[i := events[i].(fields := v)], true), if o == Done then Stored else Panicked)
  }

  /** All that can happen to a builder whose events have fields of type t. A rejected call changes
      nothing; with fitting keys any other call succeeds if the path leads to a float, and empties
      and invalidates the builder if not. A stored value is read back from the one event for the
      source and time; every other event is as before, and at most one event is new. */
  lemma SetLaws(b: Builder, c: SetCall, t: Type)
    requires b.valid && (forall e <- b.events :: HasType(e.fields, t))
    requires c.created.Some? ==> HasType(c.created.value.fields, t)
    ensures var (n, r) := Set(b, c);
            var i := FindEvent(b.events, c);
            && (r == Rejected <==> c.path == [] || c.vmId == "" || (i == |b.events| && c.created.None?))
            && (r == Rejected ==> n == b)
            && (r != Rejected && Fits(t, c.path, c.keys) ==> r == if Resolves(t, c.path) then Stored else Invalidated)
            && (r == Invalidated ==> n == Builder([], false))
            && (r in {Stored, Panicked} ==>
                  && n.valid && i < |n.events| == (if i < |b.events| then |b.events| else |b.events| + 1)
                  && (forall j | 0 <= j < |b.events| && j != i :: n.events[j] == b.events[j])
                  && (forall e <- n.events :: HasType(e.fields, t)))
            && (r == Stored ==> Get(n.events[i].fields, c.path, c.keys) == Some(c.value))
  {
    var i := FindEvent(b.events, c);
    if Set(b, c).1 != Rejected {
      var events := if i < |b.events| then b.events else b.events + [c.created.value];
      assert events[i] in events;
      SetByType(events[i].fields, t, c.path, c.value, c.keys);
      if SetField(events[i].fields, c.path, c.value, c.keys).1 == Done {
        GetAfterSet(events[i].fields, t, c.path, c.value, c.keys);
      }
    }
  }
}
