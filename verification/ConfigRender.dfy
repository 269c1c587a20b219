// Writing a configuration value down and parsing it again
// (src/cmscommon/conf_parser.py:40-42, src/cmscommon/conf_parser.py:95-124).
module ConfigRender {
  import opened Basics
  import opened ConfigTypes
  import opened ConfigParser

  // A value that can be written: nothing stands only where it is the default, and
  // fields that are never read have their default.
  ghost predicate Writable(v: Value, t: Type)
    decreases t
  {
    match t
    case TextType => v.Str?
    case IntegerType => v.Int? || v.Bool?
    case NumberType => v.Float?
    case FlagType => v.Bool?
    case Optional(of) => !of.Optional? && !v.Nothing? && Writable(v, of)
    case ListOf(of) => v.List? && forall i :: 0 <= i < |v.items| ==> Writable(v.items[i], of)
    case TupleOf(parts) => v.Tuple? && |v.items| == |parts| && forall i :: 0 <= i < |parts| ==> Writable(v.items[i], parts[i])
    case DictOf(of) => v.Dict? && forall k :: k in v.entries ==> Writable(v.entries[k], of)
    case Record(fields) =>
      v.Object?
      && (forall i :: 0 <= i < |fields| ==> AttributeWritable(v.attributes, t, i))
      && (forall k :: k in v.attributes ==> Names(fields, k))
  }

  ghost predicate AttributeWritable(m: map<string, Value>, t: Type, i: nat)
    requires t.Record? && i < |t.fields|
    decreases t, 0
  {
    var f := t.fields[i];
    if Written(m, f) then Writable(m[f.name], f.kind)
    else (f.name in m <==> f.default.Some?) && (f.name in m ==> m[f.name] == f.default.value) && (f.init ==> f.default.Some?)
  }

  // The fields that are written.
  predicate Written(m: map<string, Value>, f: Field) {
    f.init && f.name in m && !(m[f.name].Nothing? && f.default == Some(Nothing))
  }

  // No two fields that are read share a key.
  predicate NoCollision(fields: seq<Field>) {
    forall i, j :: 0 <= i < j < |fields| && fields[i].init && fields[j].init ==> KeyOf(fields[i].name) != KeyOf(fields[j].name)
  }

  ghost predicate Clear(t: Type)
    decreases t
  {
    match t
    case Optional(of) => Clear(of)
    case ListOf(of) => Clear(of)
    case TupleOf(parts) => forall i :: 0 <= i < |parts| ==> Clear(parts[i])
    case DictOf(of) => Clear(of)
    case Record(fields) =>
      && NoCollision(fields) && DistinctNames(fields)
      && (forall i :: 0 <= i < |fields| ==> Clear(fields[i].kind))
    case _ => true
  }

  ghost function Render(v: Value, t: Type): Toml
    requires Writable(v, t)
    decreases t, 1, 0
  {
    match t
    case TextType => Text(v.s)
    case IntegerType => if v.Bool? then Flag(v.b) else Integer(v.n)
    case NumberType => Number(v.x)
    case FlagType => Flag(v.b)
    case Optional(of) => Render(v, of)
    case ListOf(of) => Array(seq(|v.items|, i requires 0 <= i < |v.items| => Render(v.items[i], of)))
    case TupleOf(parts) => Array(seq(|parts|, i requires 0 <= i < |parts| => Render(v.items[i], parts[i])))
    case DictOf(of) => Table(map k | k in v.entries :: Render(v.entries[k], of))
    case Record(fields) => Table(RenderFields(v.attributes, t, |fields|))
  }

  // The table of the first n fields.
  ghost function RenderFields(m: map<string, Value>, t: Type, n: nat): map<string, Toml>
    requires t.Record? && n <= |t.fields| && forall i :: 0 <= i < n ==> AttributeWritable(m, t, i)
    decreases t, 0, n
  {
    if n == 0 then map[]
    else
      var f, less := t.fields[n - 1], RenderFields(m, t, n - 1);
      assert AttributeWritable(m, t, n - 1);
      if Written(m, f) then less[KeyOf(f.name) := Render(m[f.name], f.kind)] else less
  }

  lemma {:induction false} RenderFieldsAt(m: map<string, Value>, t: Type, n: nat, k: string)
    requires t.Record? && n <= |t.fields| && NoCollision(t.fields) && forall i :: 0 <= i < n ==> AttributeWritable(m, t, i)
    ensures k in RenderFields(m, t, n) <==> exists i :: 0 <= i < n && Written(m, t.fields[i]) && KeyOf(t.fields[i].name) == k
    ensures forall i :: 0 <= i < n && Written(m, t.fields[i]) && KeyOf(t.fields[i].name) == k ==>
              AttributeWritable(m, t, i) && RenderFields(m, t, n)[k] == Render(m[t.fields[i].name], t.fields[i].kind)
    decreases n
  {
    if n > 0 {
      RenderFieldsAt(m, t, n - 1, k);
      assert AttributeWritable(m, t, n - 1);
    }
  }

  // One field of the rendered table.
  lemma FieldRoundTrip(m: map<string, Value>, t: Type, i: nat)
    requires t.Record? && i < |t.fields| && NoCollision(t.fields) && forall j :: 0 <= j < |t.fields| ==> AttributeWritable(m, t, j)
    ensures var entries, f := RenderFields(m, t, |t.fields|), t.fields[i];
            && (Available(t.fields, entries, i) <==> Written(m, f))
            && (Written(m, f) ==> AttributeWritable(m, t, i) && entries[KeyOf(f.name)] == Render(m[f.name], f.kind))
  {
    var f := t.fields[i];
    RenderFieldsAt(m, t, |t.fields|, KeyOf(f.name));
    assert AttributeWritable(m, t, i);
  }

  lemma {:induction false} RenderConforms(v: Value, t: Type)
    requires Writable(v, t) && Clear(t)
    ensures Conforms(Render(v, t), t)
    decreases t
  {
    match t {
      case Optional(of) => RenderConforms(v, of);
      case ListOf(of) =>
        forall i | 0 <= i < |v.items| ensures Conforms(Render(v.items[i], of), of) {
          RenderConforms(v.items[i], of);
        }
      case TupleOf(parts) =>
        forall i | 0 <= i < |parts| ensures Conforms(Render(v.items[i], parts[i]), parts[i]) {
          RenderConforms(v.items[i], parts[i]);
        }
      case DictOf(of) =>
        forall k | k in v.entries ensures Conforms(Render(v.entries[k], of), of) {
          RenderConforms(v.entries[k], of);
        }
      case Record(fields) =>
        forall i | 0 <= i < |fields| ensures FieldConforms(t, RenderFields(v.attributes, t, |fields|), i) {
          FieldRoundTrip(v.attributes, t, i);
          assert AttributeWritable(v.attributes, t, i);
          if Written(v.attributes, fields[i]) {
            RenderConforms(v.attributes[fields[i].name], fields[i].kind);
          }
        }
      case _ =>
    }
  }

  lemma ListBack(d: Toml, t: Type, v: Value)
    requires t.ListOf? && Conforms(d, t) && v.List? && |d.items| == |v.items|
    requires forall i :: 0 <= i < |v.items| ==> Parsed(d.items[i], t.of) == Some(v.items[i])
    ensures Typed(d, t) == v
  {
    assert Typed(d, t).items == v.items;
  }

  lemma TupleBack(d: Toml, t: Type, v: Value)
    requires t.TupleOf? && Conforms(d, t) && v.Tuple? && |t.parts| == |v.items|
    requires forall i :: 0 <= i < |v.items| ==> Parsed(d.items[i], t.parts[i]) == Some(v.items[i])
    ensures Typed(d, t) == v
  {
    assert Typed(d, t).items == v.items;
  }

  lemma DictBack(d: Toml, t: Type, v: Value)
    requires t.DictOf? && Conforms(d, t) && v.Dict? && d.entries.Keys == v.entries.Keys
    requires forall k :: k in v.entries ==> Parsed(d.entries[k], t.of) == Some(v.entries[k])
    ensures Typed(d, t) == v
  {
    assert Typed(d, t).entries == v.entries;
  }

  // Writing a value down and parsing it gives the value back.
  lemma {:induction false} RoundTrip(v: Value, t: Type)
    requires Writable(v, t) && Clear(t)
    ensures Parsed(Render(v, t), t) == Some(v)
    decreases t
  {
    RenderConforms(v, t);
    var d := Render(v, t);
    match t {
      case Optional(of) => RoundTrip(v, of);
      case ListOf(of) =>
        forall i | 0 <= i < |v.items| ensures Parsed(d.items[i], of) == Some(v.items[i]) {
          RoundTrip(v.items[i], of);
        }
        ListBack(d, t, v);
      case TupleOf(parts) =>
        forall i | 0 <= i < |parts| ensures Parsed(d.items[i], parts[i]) == Some(v.items[i]) {
          RoundTrip(v.items[i], parts[i]);
        }
        TupleBack(d, t, v);
      case DictOf(of) =>
        forall k | k in v.entries ensures Parsed(d.entries[k], of) == Some(v.entries[k]) {
          RoundTrip(v.entries[k], of);
        }
        DictBack(d, t, v);
      case Record(fields) => RecordRoundTrip(v, t);
      case _ =>
    }
  }

  lemma {:induction false} RecordRoundTrip(v: Value, t: Type)
    requires Writable(v, t) && Clear(t) && t.Record? && Conforms(Render(v, t), t)
    ensures Typed(Render(v, t), t) == v
    decreases t, 0
  {
    var fields, m, entries := t.fields, v.attributes, RenderFields(v.attributes, t, |t.fields|);
    var given := Given(t, entries, |fields|);
    var after := Filled(fields, given);
    forall i | 0 <= i < |fields| ensures Lookup(after, fields[i].name) == Lookup(m, fields[i].name) {
      var f := fields[i];
      FieldRoundTrip(m, t, i);
      assert AttributeWritable(m, t, i) && FieldConforms(t, entries, i);
      GivenAt(t, entries, |fields|, f.name);
      FilledAt(fields, given, f.name);
      if Written(m, f) {
        RoundTrip(m[f.name], f.kind);
      }
    }
    forall k ensures Lookup(after, k) == Lookup(m, k) {
      FilledAt(fields, given, k);
    }
    assert forall k :: k in after <==> Lookup(after, k).Some?;
    assert after == m;
  }

  function Lookup(m: map<string, Value>, k: string): Option<Value> {
    if k in m then Some(m[k]) else None
  }

  // ----- two fields with one key -----

  // Both fields are read, under the same key.
  predicate Collide(fields: seq<Field>, i: nat, j: nat) {
    i < j < |fields| && fields[i].init && fields[j].init && KeyOf(fields[i].name) == KeyOf(fields[j].name)
  }

  // The later field never gets its key: if it has no default, no data conform.
  lemma CollidingFieldsNeverParse(d: Toml, t: Type, i: nat, j: nat)
    requires t.Record? && Collide(t.fields, i, j) && t.fields[j].default.None?
    ensures Parsed(d, t).None?
  {
    if d.Table? {
      assert !FieldConforms(t, d.entries, j);
    }
  }

  // If it has one, that is its value, whatever the table says under the key.
  lemma LaterFieldIsDefault(d: Toml, t: Type, i: nat, j: nat)
    requires t.Record? && DistinctNames(t.fields) && Collide(t.fields, i, j) && Conforms(d, t)
    ensures Lookup(Typed(d, t).attributes, t.fields[j].name) == t.fields[j].default && t.fields[j].default.Some?
  {
    var fields, f := t.fields, t.fields[j];
    var given := Given(t, d.entries, |fields|);
    assert FieldConforms(t, d.entries, j) && !Available(fields, d.entries, j);
    GivenAt(t, d.entries, |fields|, f.name);
    FilledAt(fields, given, f.name);
  }

  // So a value whose later field differs from its default comes back from no data
  // at all.
  lemma CollidingValueNeverComesBack(v: Value, t: Type, i: nat, j: nat, d: Toml)
    requires t.Record? && DistinctNames(t.fields) && Collide(t.fields, i, j)
    requires v.Object? && (t.fields[j].default.None? || Lookup(v.attributes, t.fields[j].name) != t.fields[j].default)
    ensures Parsed(d, t) != Some(v)
  {
    if Conforms(d, t) {
      LaterFieldIsDefault(d, t, i, j);
    }
  }
}
