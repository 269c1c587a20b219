// All the ways to write a configuration value down, as a relation between data and
// values, and that the parser reads exactly these
// (src/cmscommon/conf_parser.py:85-183).
module ConfigForms {
  import opened Basics
  import opened ConfigTypes
  import opened ConfigParser
  import opened ConfigRender

  // A field is given under its own name, or without the underscore if it ends in one.
  predicate Stands(key: string, name: string) {
    name == key + "_" || (name == key && !(name != "" && name[|name| - 1] == '_'))
  }

  // The key that the i-th field of a record finds in the table.
  predicate Finds(fields: seq<Field>, entries: map<string, Toml>, i: nat, key: string)
    requires i < |fields|
  {
    && fields[i].init && key in entries && Stands(key, fields[i].name)
    && forall j :: 0 <= j < i && fields[j].init ==> !Stands(key, fields[j].name)
  }

  // These data are a way to write this value of the type. A float may be written as an
  // integer or as a truth value, an integer as a truth value, which it then stays; a
  // field may be left out if it has a default, which is then its value.
  ghost predicate Writes(d: Toml, t: Type, v: Value)
    decreases t
  {
    match t
    case TextType => d.Text? && v == Str(d.s)
    case IntegerType => (d.Integer? && v == Int(d.n)) || (d.Flag? && v == Bool(d.b))
    case NumberType =>
      v.Float? && (d == Number(v.x) || (d.Integer? && d.n as real == v.x) || (d == Flag(true) && v.x == 1.0) || (d == Flag(false) && v.x == 0.0))
    case FlagType => d.Flag? && v == Bool(d.b)
    case Optional(of) => !of.Optional? && Writes(d, of, v)
    case ListOf(of) =>
      d.Array? && v.List? && |d.items| == |v.items| && forall i :: 0 <= i < |d.items| ==> Writes(d.items[i], of, v.items[i])
    case TupleOf(parts) =>
      d.Array? && v.Tuple? && |d.items| == |v.items| == |parts| && forall i :: 0 <= i < |parts| ==> Writes(d.items[i], parts[i], v.items[i])
    case DictOf(of) =>
      d.Table? && v.Dict? && d.entries.Keys == v.entries.Keys && forall k :: k in d.entries ==> Writes(d.entries[k], of, v.entries[k])
    case Record(fields) =>
      && d.Table? && v.Object?
      && (forall i :: 0 <= i < |fields| ==> WritesField(d.entries, t, i, v.attributes))
      && (forall k :: k in v.attributes ==> Names(fields, k))
  }

  ghost predicate WritesField(entries: map<string, Toml>, t: Type, i: nat, m: map<string, Value>)
    requires t.Record? && i < |t.fields|
    decreases t, 0
  {
    var f := t.fields[i];
    if exists key :: Finds(t.fields, entries, i, key) then
      f.name in m && forall key :: Finds(t.fields, entries, i, key) ==> Writes(entries[key], f.kind, m[f.name])
    else
      (f.init ==> f.default.Some?) && (if f.default.Some? then f.name in m && m[f.name] == f.default.value else f.name !in m)
  }

  // Fields of a record have different names.
  ghost predicate Named(t: Type)
    decreases t
  {
    match t
    case Optional(of) => Named(of)
    case ListOf(of) => Named(of)
    case TupleOf(parts) => forall i :: 0 <= i < |parts| ==> Named(parts[i])
    case DictOf(of) => Named(of)
    case Record(fields) => DistinctNames(fields) && forall i :: 0 <= i < |fields| ==> Named(fields[i].kind)
    case _ => true
  }

  lemma StandsIff(key: string, name: string)
    ensures Stands(key, name) <==> key == KeyOf(name)
  {
    if name == key + "_" {
      assert name[..|name| - 1] == key;
    }
    if name != "" && name[|name| - 1] == '_' {
      assert name == name[..|name| - 1] + "_";
    }
  }

  lemma FindsIff(fields: seq<Field>, entries: map<string, Toml>, i: nat, key: string)
    requires i < |fields|
    ensures Finds(fields, entries, i, key) <==> Available(fields, entries, i) && key == KeyOf(fields[i].name)
  {
    forall j | 0 <= j <= i ensures Stands(key, fields[j].name) <==> key == KeyOf(fields[j].name) {
      StandsIff(key, fields[j].name);
    }
  }

  lemma ScalarIs(d: Toml, t: Type, v: Value)
    requires t.TextType? || t.IntegerType? || t.NumberType? || t.FlagType?
    ensures Parsed(d, t) == Some(v) <==> Writes(d, t, v)
  {
  }

  // The same for the items of an array or a table is the same for the whole.
  lemma ListIs(d: Toml, t: Type, v: Value)
    requires t.ListOf?
    requires d.Array? && v.List? && |d.items| == |v.items| ==>
               forall i :: 0 <= i < |d.items| ==> (Parsed(d.items[i], t.of) == Some(v.items[i]) <==> Writes(d.items[i], t.of, v.items[i]))
    ensures Parsed(d, t) == Some(v) <==> Writes(d, t, v)
  {
    if Writes(d, t, v) {
      ListBack(d, t, v);
    }
  }

  lemma TupleIs(d: Toml, t: Type, v: Value)
    requires t.TupleOf?
    requires d.Array? && v.Tuple? && |d.items| == |v.items| == |t.parts| ==>
               forall i :: 0 <= i < |t.parts| ==> (Parsed(d.items[i], t.parts[i]) == Some(v.items[i]) <==> Writes(d.items[i], t.parts[i], v.items[i]))
    ensures Parsed(d, t) == Some(v) <==> Writes(d, t, v)
  {
    if Writes(d, t, v) {
      TupleBack(d, t, v);
    }
  }

  lemma DictIs(d: Toml, t: Type, v: Value)
    requires t.DictOf?
    requires d.Table? && v.Dict? && d.entries.Keys == v.entries.Keys ==>
               forall k :: k in d.entries ==> (Parsed(d.entries[k], t.of) == Some(v.entries[k]) <==> Writes(d.entries[k], t.of, v.entries[k]))
    ensures Parsed(d, t) == Some(v) <==> Writes(d, t, v)
  {
    if Writes(d, t, v) {
      DictBack(d, t, v);
    }
    if Parsed(d, t) == Some(v) {
      DictForth(d, t, v);
    }
  }

  lemma DictForth(d: Toml, t: Type, v: Value)
    requires t.DictOf? && Conforms(d, t) && Typed(d, t) == v
    ensures d.Table? && v.Dict? && d.entries.Keys == v.entries.Keys
    ensures forall k :: k in d.entries ==> Parsed(d.entries[k], t.of) == Some(v.entries[k])
  {
  }

  // Parsing gives a value exactly if the data are a way to write it.
  lemma {:induction false} ParsedIff(d: Toml, t: Type, v: Value)
    requires Named(t)
    ensures Parsed(d, t) == Some(v) <==> Writes(d, t, v)
    decreases t, 1
  {
    match t {
      case Optional(of) => ParsedIff(d, of, v);
      case ListOf(of) =>
        if d.Array? && v.List? && |d.items| == |v.items| {
          forall i | 0 <= i < |d.items| ensures Parsed(d.items[i], of) == Some(v.items[i]) <==> Writes(d.items[i], of, v.items[i]) {
            ParsedIff(d.items[i], of, v.items[i]);
          }
        }
        ListIs(d, t, v);
      case TupleOf(parts) =>
        if d.Array? && v.Tuple? && |d.items| == |v.items| == |parts| {
          forall i | 0 <= i < |parts| ensures Parsed(d.items[i], parts[i]) == Some(v.items[i]) <==> Writes(d.items[i], parts[i], v.items[i]) {
            ParsedIff(d.items[i], parts[i], v.items[i]);
          }
        }
        TupleIs(d, t, v);
      case DictOf(of) =>
        if d.Table? && v.Dict? && d.entries.Keys == v.entries.Keys {
          forall k | k in d.entries ensures Parsed(d.entries[k], of) == Some(v.entries[k]) <==> Writes(d.entries[k], of, v.entries[k]) {
            ParsedIff(d.entries[k], of, v.entries[k]);
          }
        }
        DictIs(d, t, v);
      case Record(fields) =>
        if d.Table? && v.Object? {
          RecordIff(d, t, v);
        }
      case _ => ScalarIs(d, t, v);
    }
  }

  // The value of the i-th field, as the parser takes it from a table that fits.
  ghost predicate FieldIs(entries: map<string, Toml>, t: Type, i: nat, m: map<string, Value>)
    requires t.Record? && i < |t.fields|
  {
    var f := t.fields[i];
    if Available(t.fields, entries, i) then f.name in m && Parsed(entries[KeyOf(f.name)], f.kind) == Some(m[f.name])
    else (f.init ==> f.default.Some?) && (if f.default.Some? then f.name in m && m[f.name] == f.default.value else f.name !in m)
  }

  lemma FieldIff(entries: map<string, Toml>, t: Type, i: nat, m: map<string, Value>)
    requires t.Record? && Named(t) && i < |t.fields|
    ensures FieldIs(entries, t, i, m) <==> WritesField(entries, t, i, m)
    decreases t, 0, i
  {
    var f := t.fields[i];
    forall key ensures Finds(t.fields, entries, i, key) <==> Available(t.fields, entries, i) && key == KeyOf(f.name) {
      FindsIff(t.fields, entries, i, key);
    }
    if Available(t.fields, entries, i) {
      assert Finds(t.fields, entries, i, KeyOf(f.name));
      if f.name in m {
        ParsedIff(entries[KeyOf(f.name)], f.kind, m[f.name]);
      }
    }
  }

  lemma RecordIff(d: Toml, t: Type, v: Value)
    requires t.Record? && Named(t) && d.Table? && v.Object?
    ensures Parsed(d, t) == Some(v) <==> Writes(d, t, v)
    decreases t, 0
  {
    forall i | 0 <= i < |t.fields| ensures FieldIs(d.entries, t, i, v.attributes) <==> WritesField(d.entries, t, i, v.attributes) {
      FieldIff(d.entries, t, i, v.attributes);
    }
    RecordIs(d, t, v);
  }

  lemma MisfitIn(d: Toml, t: Type) returns (i: nat)
    requires t.Record? && d.Table? && !Conforms(d, t)
    ensures i < |t.fields| && !FieldConforms(t, d.entries, i)
  {
    match t {
      case Record(fields) => i :| 0 <= i < |fields| && !FieldConforms(t, d.entries, i);
    }
  }

  lemma RecordIs(d: Toml, t: Type, v: Value)
    requires t.Record? && DistinctNames(t.fields) && d.Table? && v.Object?
    ensures Parsed(d, t) == Some(v) <==>
            (forall i :: 0 <= i < |t.fields| ==> FieldIs(d.entries, t, i, v.attributes))
            && forall k :: k in v.attributes ==> Names(t.fields, k)
  {
    if Conforms(d, t) {
      var m := Filled(t.fields, Given(t, d.entries, |t.fields|));
      assert Typed(d, t) == Object(m);
      FilledFits(d.entries, t, m);
      if (forall i :: 0 <= i < |t.fields| ==> FieldIs(d.entries, t, i, v.attributes)) && forall k :: k in v.attributes ==> Names(t.fields, k) {
        SameFields(d.entries, t, m, v.attributes);
      }
    } else {
      var i := MisfitIn(d, t);
      assert !FieldIs(d.entries, t, i, v.attributes);
    }
  }

  lemma FilledFits(entries: map<string, Toml>, t: Type, m: map<string, Value>)
    requires t.Record? && DistinctNames(t.fields) && forall i :: 0 <= i < |t.fields| ==> FieldConforms(t, entries, i)
    requires m == Filled(t.fields, Given(t, entries, |t.fields|))
    ensures forall i :: 0 <= i < |t.fields| ==> FieldIs(entries, t, i, m)
    ensures forall k :: k in m ==> Names(t.fields, k)
  {
    var given := Given(t, entries, |t.fields|);
    forall i | 0 <= i < |t.fields| ensures FieldIs(entries, t, i, m) {
      var f := t.fields[i];
      assert FieldConforms(t, entries, i);
      GivenAt(t, entries, |t.fields|, f.name);
      FilledAt(t.fields, given, f.name);
    }
    forall k | k in m ensures Names(t.fields, k) {
      FilledAt(t.fields, given, k);
    }
  }

  lemma SameFields(entries: map<string, Toml>, t: Type, a: map<string, Value>, b: map<string, Value>)
    requires t.Record? && forall i :: 0 <= i < |t.fields| ==> FieldIs(entries, t, i, a) && FieldIs(entries, t, i, b)
    requires (forall k :: k in a ==> Names(t.fields, k)) && forall k :: k in b ==> Names(t.fields, k)
    ensures a == b
  {
    forall k ensures (k in a <==> k in b) && (k in a ==> a[k] == b[k]) {
      if Names(t.fields, k) {
        var i :| 0 <= i < |t.fields| && t.fields[i].name == k;
        assert FieldIs(entries, t, i, a) && FieldIs(entries, t, i, b);
      }
    }
  }

  // Data are accepted exactly if they are a way to write some value.
  lemma AcceptedIff(d: Toml, t: Type)
    requires Named(t)
    ensures Conforms(d, t) <==> exists v :: Writes(d, t, v)
  {
    if Conforms(d, t) {
      ParsedIff(d, t, Typed(d, t));
      assert Writes(d, t, Typed(d, t));
    }
    forall v | Writes(d, t, v) ensures Conforms(d, t) {
      ParsedIff(d, t, v);
    }
  }
}
