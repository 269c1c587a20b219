// The type-directed parser of configuration data, and what it guarantees
// (src/cmscommon/conf_parser.py:85-183).
module ConfigParser {
  import opened Basics
  import opened ConfigTypes

  // What the parser gives for these data.
  function Parsed(d: Toml, t: Type): Option<Value> {
    if Conforms(d, t) then Some(Typed(d, t)) else None
  }

  // ----- the parser -----

  // The keys no field before the i-th has taken.
  ghost predicate Untaken(t: Type, all: map<string, Toml>, i: nat, left: map<string, Toml>)
    requires t.Record? && i <= |t.fields|
  {
    && (forall k :: k in left <==> k in all && forall j :: 0 <= j < i && t.fields[j].init ==> KeyOf(t.fields[j].name) != k)
    && (forall k :: k in left ==> left[k] == all[k])
  }

  method ParseConfigObj(d: Toml, t: Type) returns (r: Option<Value>)
    ensures r == Parsed(d, t)
    decreases t, 2
  {
    match t {
      case TextType => r := if d.Text? then Some(Str(d.s)) else None;
      case FlagType => r := if d.Flag? then Some(Bool(d.b)) else None;
      case IntegerType => r := if d.Flag? then Some(Bool(d.b)) else if d.Integer? then Some(Int(d.n)) else None;
      case NumberType =>
        r := if d.Number? then Some(Float(d.x)) else if d.Flag? then Some(Float(if d.b then 1.0 else 0.0))
             else if d.Integer? then Some(Float(d.n as real)) else None;
      case Optional(of) =>
        if of.Optional? {
          return None;
        }
        r := ParseConfigObj(d, of);
      case ListOf(of) => r := ParseList(d, t);
      case TupleOf(parts) => r := ParseTuple(d, t);
      case DictOf(of) => r := ParseDict(d, t);
      case Record(fields) => r := ParseRecord(d, t);
    }
  }

  method ParseList(d: Toml, t: Type) returns (r: Option<Value>)
    requires t.ListOf?
    ensures r == Parsed(d, t)
    decreases t, 0
  {
    if !d.Array? {
      return None;
    }
    var result: seq<Value> := [];
    var i := 0;
    while i < |d.items|
      invariant 0 <= i == |result| <= |d.items|
      invariant forall j :: 0 <= j < i ==> Conforms(d.items[j], t.of) && result[j] == Typed(d.items[j], t.of)
    {
      var v := ParseConfigObj(d.items[i], t.of);
      if v.None? {
        return None;
      }
      result := result + [v.value];
      i := i + 1;
    }
    assert List(result) == Typed(d, t);
    r := Some(List(result));
  }

  method ParseTuple(d: Toml, t: Type) returns (r: Option<Value>)
    requires t.TupleOf?
    ensures r == Parsed(d, t)
    decreases t, 0
  {
    if !d.Array? || |t.parts| != |d.items| {
      return None;
    }
    var result: seq<Value> := [];
    var i := 0;
    while i < |d.items|
      invariant 0 <= i == |result| <= |d.items|
      invariant forall j :: 0 <= j < i ==> Conforms(d.items[j], t.parts[j]) && result[j] == Typed(d.items[j], t.parts[j])
    {
      var v := ParseConfigObj(d.items[i], t.parts[i]);
      if v.None? {
        return None;
      }
      result := result + [v.value];
      i := i + 1;
    }
    assert Tuple(result) == Typed(d, t);
    r := Some(Tuple(result));
  }

  method ParseDict(d: Toml, t: Type) returns (r: Option<Value>)
    requires t.DictOf?
    ensures r == Parsed(d, t)
    decreases t, 0
  {
    if !d.Table? {
      return None;
    }
    var result: map<string, Value> := map[];
    var todo := d.entries.Keys;
    while todo != {}
      invariant Parted(d.entries.Keys, todo, result.Keys)
      invariant forall k :: k in result ==> Conforms(d.entries[k], t.of) && result[k] == Typed(d.entries[k], t.of)
      decreases |todo|
    {
      var k :| k in todo;
      PartOne(d.entries.Keys, todo, result.Keys, k);
      var v := ParseConfigObj(d.entries[k], t.of);
      if v.None? {
        return None;
      }
      assert result[k := v.value].Keys == result.Keys + {k};
      result := result[k := v.value];
      todo := todo - {k};
    }
    PartAll(d.entries.Keys, todo, result.Keys);
    DictIsTyped(d, t, result);
    r := Some(Dict(result));
  }

  lemma DictIsTyped(d: Toml, t: Type, result: map<string, Value>)
    requires t.DictOf? && d.Table? && result.Keys == d.entries.Keys
    requires forall k :: k in result ==> Conforms(d.entries[k], t.of) && result[k] == Typed(d.entries[k], t.of)
    ensures Conforms(d, t) && Typed(d, t) == Dict(result)
  {
  }

  lemma TakeKey(t: Type, all: map<string, Toml>, i: nat, left: map<string, Toml>)
    requires t.Record? && i < |t.fields| && Untaken(t, all, i, left)
    ensures t.fields[i].init ==> (KeyOf(t.fields[i].name) in left <==> Available(t.fields, all, i))
    ensures Untaken(t, all, i + 1, if t.fields[i].init then left - {KeyOf(t.fields[i].name)} else left)
  {
  }

  // One field: its key is taken out of the table.
  method ParseField(t: Type, i: nat, data: map<string, Toml>, given: map<string, Value>, ghost all: map<string, Toml>)
      returns (ok: bool, rest: map<string, Toml>, more: map<string, Value>)
    requires t.Record? && i < |t.fields| && Untaken(t, all, i, data)
    requires (forall j :: 0 <= j < i ==> FieldConforms(t, all, j)) && given == Given(t, all, i)
    ensures ok <==> FieldConforms(t, all, i)
    ensures ok ==> Untaken(t, all, i + 1, rest) && more == Given(t, all, i + 1)
    decreases t, 0
  {
    var field := t.fields[i];
    var key := KeyOf(field.name);
    TakeKey(t, all, i, data);
    rest, more := data, given;
    if field.init {
      if field.default.None? && key !in data {
        return false, rest, more;
      }
      if key in data {
        var v := ParseConfigObj(data[key], field.kind);
        if v.None? {
          return false, rest, more;
        }
        more := given[field.name := v.value];
        rest := data - {key};
      } else {
        assert data - {key} == data;
      }
    }
    ok := true;
  }

  // The fields in order; keys that are left over are ignored.
  method ParseRecord(d: Toml, t: Type) returns (r: Option<Value>)
    requires t.Record?
    ensures r == Parsed(d, t)
    decreases t, 1
  {
    if !d.Table? {
      return None;
    }
    var data, given: map<string, Value> := d.entries, map[];
    var i := 0;
    while i < |t.fields|
      invariant 0 <= i <= |t.fields| && Untaken(t, d.entries, i, data)
      invariant forall j :: 0 <= j < i ==> FieldConforms(t, d.entries, j)
      invariant given == Given(t, d.entries, i)
    {
      var ok;
      ok, data, given := ParseField(t, i, data, given, d.entries);
      if !ok {
        return None;
      }
      i := i + 1;
    }
    assert Conforms(d, t);
    assert Typed(d, t) == Object(Filled(t.fields, Given(t, d.entries, |t.fields|)));
    r := Some(Object(Filled(t.fields, given)));
  }

  // ----- soundness -----

  // The value inhabits the type; a truth value counts as an integer.
  ghost predicate Inhabits(v: Value, t: Type)
    decreases t
  {
    match t
    case TextType => v.Str?
    case IntegerType => v.Int? || v.Bool?
    case NumberType => v.Float?
    case FlagType => v.Bool?
    case Optional(of) => v.Nothing? || Inhabits(v, of)
    case ListOf(of) => v.List? && forall i :: 0 <= i < |v.items| ==> Inhabits(v.items[i], of)
    case TupleOf(parts) => v.Tuple? && |v.items| == |parts| && forall i :: 0 <= i < |parts| ==> Inhabits(v.items[i], parts[i])
    case DictOf(of) => v.Dict? && forall k :: k in v.entries ==> Inhabits(v.entries[k], of)
    case Record(fields) =>
      v.Object?
      && (forall i :: 0 <= i < |fields| && fields[i].init ==> fields[i].name in v.attributes)
      && (forall i :: 0 <= i < |fields| && fields[i].name in v.attributes ==> Inhabits(v.attributes[fields[i].name], fields[i].kind))
      && (forall k :: k in v.attributes ==> Names(fields, k))
  }

  predicate Names(fields: seq<Field>, k: string) {
    exists i :: 0 <= i < |fields| && fields[i].name == k
  }

  // Fields have different names, and defaults inhabit their types.
  ghost predicate WellFormed(t: Type)
    decreases t
  {
    match t
    case Optional(of) => WellFormed(of)
    case ListOf(of) => WellFormed(of)
    case TupleOf(parts) => forall i :: 0 <= i < |parts| ==> WellFormed(parts[i])
    case DictOf(of) => WellFormed(of)
    case Record(fields) =>
      && DistinctNames(fields)
      && (forall i :: 0 <= i < |fields| ==>
            WellFormed(fields[i].kind) && (fields[i].default.Some? ==> Inhabits(fields[i].default.value, fields[i].kind)))
    case _ => true
  }

  lemma {:induction false} GivenAt(t: Type, entries: map<string, Toml>, n: nat, k: string)
    requires t.Record? && n <= |t.fields| && forall i :: 0 <= i < n ==> FieldConforms(t, entries, i)
    requires DistinctNames(t.fields)
    ensures k in Given(t, entries, n) <==> exists i :: 0 <= i < n && t.fields[i].name == k && Available(t.fields, entries, i)
    ensures forall i :: 0 <= i < n && t.fields[i].name == k && Available(t.fields, entries, i) ==>
              FieldConforms(t, entries, i) && Given(t, entries, n)[k] == Typed(entries[KeyOf(k)], t.fields[i].kind)
    decreases n
  {
    if n > 0 {
      GivenAt(t, entries, n - 1, k);
      assert FieldConforms(t, entries, n - 1);
    }
  }

  lemma {:induction false} FilledAt(fields: seq<Field>, given: map<string, Value>, k: string)
    requires DistinctNames(fields)
    ensures k in Filled(fields, given) <==>
            exists i :: 0 <= i < |fields| && fields[i].name == k && (k in given || fields[i].default.Some?)
    ensures forall i :: 0 <= i < |fields| && fields[i].name == k && (k in given || fields[i].default.Some?) ==>
              Filled(fields, given)[k] == if k in given then given[k] else fields[i].default.value
  {
    if fields != [] {
      FilledAt(fields[..|fields| - 1], given, k);
    }
  }

  lemma {:induction false} TypedInhabits(d: Toml, t: Type)
    requires WellFormed(t) && Conforms(d, t)
    ensures Inhabits(Typed(d, t), t)
    decreases t
  {
    match t {
      case Optional(of) => TypedInhabits(d, of);
      case ListOf(of) =>
        forall i | 0 <= i < |d.items| ensures Inhabits(Typed(d.items[i], of), of) {
          TypedInhabits(d.items[i], of);
        }
      case TupleOf(parts) =>
        forall i | 0 <= i < |parts| ensures Inhabits(Typed(d.items[i], parts[i]), parts[i]) {
          TypedInhabits(d.items[i], parts[i]);
        }
      case DictOf(of) =>
        forall k | k in d.entries ensures Inhabits(Typed(d.entries[k], of), of) {
          TypedInhabits(d.entries[k], of);
        }
      case Record(fields) =>
        var given := Given(t, d.entries, |fields|);
        var m := Filled(fields, given);
        forall i | 0 <= i < |fields|
          ensures fields[i].init ==> fields[i].name in m
          ensures fields[i].name in m ==> Inhabits(m[fields[i].name], fields[i].kind)
        {
          assert FieldConforms(t, d.entries, i);
          GivenAt(t, d.entries, |fields|, fields[i].name);
          FilledAt(fields, given, fields[i].name);
          if Available(fields, d.entries, i) {
            TypedInhabits(d.entries[KeyOf(fields[i].name)], fields[i].kind);
          }
        }
        forall k | k in m ensures Names(fields, k) {
          FilledAt(fields, given, k);
        }
      case _ =>
    }
  }

  // Sound and complete: parsing succeeds exactly on data that conform, and what it
  // gives inhabits the type.
  method ParseConfig(d: Toml, t: Type) returns (r: Option<Value>)
    ensures r.Some? <==> Conforms(d, t)
    ensures r.Some? && WellFormed(t) ==> Inhabits(r.value, t)
  {
    r := ParseConfigObj(d, t);
    if r.Some? && WellFormed(t) {
      TypedInhabits(d, t);
    }
  }
}
