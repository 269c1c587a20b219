// Configuration values, the types they are checked against, and what it means
// for one to conform to the other (src/cmscommon/conf_parser.py:85-183).
module ConfigTypes {
  import opened Basics

  // What a configuration file holds.
  datatype Toml =
    | Text(s: string)
    | Integer(n: int)
    | Number(x: real)
    | Flag(b: bool)
    | Time
    | Array(items: seq<Toml>)
    | Table(entries: map<string, Toml>)

  datatype Type =
    | TextType
    | IntegerType
    | NumberType
    | FlagType
    | Optional(of: Type)
    | ListOf(of: Type)
    | TupleOf(parts: seq<Type>)
    | DictOf(of: Type)
    | Record(fields: seq<Field>)

  // A field of a record class. One that is not an init field is never read from
  // the file.
  datatype Field = Field(name: string, kind: Type, init: bool, default: Option<Value>)

  datatype Value =
    | Nothing
    | Str(s: string)
    | Int(n: int)
    | Float(x: real)
    | Bool(b: bool)
    | List(items: seq<Value>)
    | Tuple(items: seq<Value>)
    | Dict(entries: map<string, Value>)
    | Object(attributes: map<string, Value>)

  // The key of a field: its name without one trailing underscore.
  function KeyOf(name: string): string {
    if name != "" && name[|name| - 1] == '_' then name[..|name| - 1] else name
  }

  // The i-th field finds its key in the table: no earlier field has taken it.
  predicate Available(fields: seq<Field>, entries: map<string, Toml>, i: nat)
    requires i < |fields|
  {
    && fields[i].init && KeyOf(fields[i].name) in entries
    && forall j :: 0 <= j < i && fields[j].init ==> KeyOf(fields[j].name) != KeyOf(fields[i].name)
  }

  predicate DistinctNames(fields: seq<Field>) {
    forall i, j :: 0 <= i < j < |fields| ==> fields[i].name != fields[j].name
  }

  // The data fit the type.
  predicate Conforms(d: Toml, t: Type)
    decreases t
  {
    match t
    case TextType => d.Text?
    case IntegerType => d.Integer? || d.Flag?
    case NumberType => d.Number? || d.Integer? || d.Flag?
    case FlagType => d.Flag?
    case Optional(of) => !of.Optional? && Conforms(d, of)
    case ListOf(of) => d.Array? && forall i :: 0 <= i < |d.items| ==> Conforms(d.items[i], of)
    case TupleOf(parts) => d.Array? && |d.items| == |parts| && forall i :: 0 <= i < |parts| ==> Conforms(d.items[i], parts[i])
    case DictOf(of) => d.Table? && forall k :: k in d.entries ==> Conforms(d.entries[k], of)
    case Record(fields) => d.Table? && forall i :: 0 <= i < |fields| ==> FieldConforms(t, d.entries, i)
  }

  predicate FieldConforms(t: Type, entries: map<string, Toml>, i: nat)
    requires t.Record? && i < |t.fields|
    decreases t, 0
  {
    var f := t.fields[i];
    f.init ==> if Available(t.fields, entries, i) then Conforms(entries[KeyOf(f.name)], f.kind) else f.default.Some?
  }

  // The value that data of this type stand for.
  function Typed(d: Toml, t: Type): Value
    requires Conforms(d, t)
    decreases t, 1, 0
  {
    match t
    case TextType => Str(d.s)
    case IntegerType => if d.Flag? then Bool(d.b) else Int(d.n)
    case NumberType => Float(if d.Number? then d.x else if d.Flag? then (if d.b then 1.0 else 0.0) else d.n as real)
    case FlagType => Bool(d.b)
    case Optional(of) => Typed(d, of)
    case ListOf(of) => List(seq(|d.items|, i requires 0 <= i < |d.items| => Typed(d.items[i], of)))
    case TupleOf(parts) => Tuple(seq(|parts|, i requires 0 <= i < |parts| => Typed(d.items[i], parts[i])))
    case DictOf(of) => Dict(map k | k in d.entries :: Typed(d.entries[k], of))
    case Record(fields) => Object(Filled(fields, Given(t, d.entries, |fields|)))
  }

  // What the first n fields of a record are given by the table.
  function Given(t: Type, entries: map<string, Toml>, n: nat): map<string, Value>
    requires t.Record? && n <= |t.fields| && forall i :: 0 <= i < n ==> FieldConforms(t, entries, i)
    decreases t, 0, n
  {
    if n == 0 then map[]
    else
      var f, less := t.fields[n - 1], Given(t, entries, n - 1);
      assert FieldConforms(t, entries, n - 1);
      if Available(t.fields, entries, n - 1) then less[f.name := Typed(entries[KeyOf(f.name)], f.kind)] else less
  }

  // The defaults fill in for the rest.
  function Filled(fields: seq<Field>, given: map<string, Value>): map<string, Value> {
    if fields == [] then map[]
    else
      var f, less := fields[|fields| - 1], Filled(fields[..|fields| - 1], given);
      if f.name in given then less[f.name := given[f.name]]
      else if f.default.Some? then less[f.name := f.default.value]
      else less
  }
}
