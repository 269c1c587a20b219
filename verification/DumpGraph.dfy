// The graph of database objects a dump is made of, and what it means for a dump
// to be one of a part of it (src/cmscontrib/DumpExporter.py:263-387).
module DumpGraph {
  import opened DumpValues

  type Key = nat

  // A relationship holds nothing, an object, a list or a dictionary of objects.
  datatype Ref = NoRef | One(key: Key) | Many(keys: seq<Key>) | Named(named: map<string, Key>)

  datatype Object = Object(kind: string, columns: map<string, Value>, refs: map<string, Ref>)

  // The columns of a class with their types, and its relationships with the class
  // they lead to.
  datatype Class = Class(columns: map<string, ColumnType>, relationships: map<string, string>)

  type Schema = map<string, Class>

  type Db = map<Key, Object>

  function KeysOf(r: Ref): set<Key> {
    match r
    case NoRef => {}
    case One(k) => {k}
    case Many(ks) => set k | k in ks
    case Named(m) => m.Values
  }

  // The relationships that are written: all but those to the classes to skip.
  predicate Kept(schema: Schema, skip: set<string>, o: Object, name: string) {
    o.kind in schema && name in schema[o.kind].relationships && schema[o.kind].relationships[name] !in skip
  }

  function Neighbours(schema: Schema, skip: set<string>, o: Object): set<Key> {
    set n, k | n in o.refs && Kept(schema, skip, o, n) && k in KeysOf(o.refs[n]) :: k
  }

  predicate ObjectFits(schema: Schema, db: Db, o: Object) {
    && o.kind in schema
    && o.columns.Keys == schema[o.kind].columns.Keys && o.refs.Keys == schema[o.kind].relationships.Keys
    && (forall n :: n in o.columns ==> Holds(schema[o.kind].columns[n], o.columns[n]))
    && (forall n :: n in o.refs ==> KeysOf(o.refs[n]) <= db.Keys)
  }

  predicate Fits(schema: Schema, db: Db) {
    forall k :: k in db ==> ObjectFits(schema, db, db[k])
  }

  // Nothing in the set leads out of it.
  predicate Closed(schema: Schema, skip: set<string>, db: Db, s: set<Key>) {
    forall k :: k in s ==> k in db && Neighbours(schema, skip, db[k]) <= s
  }

  // The set is what can be reached from the roots: closed, and inside every
  // closed set with the roots in it.
  ghost predicate Reachable(schema: Schema, skip: set<string>, db: Db, roots: set<Key>, s: set<Key>) {
    && roots <= s && Closed(schema, skip, db, s)
    && forall t :: roots <= t && Closed(schema, skip, db, t) ==> s <= t
  }

  // Following a relationship to an object, unless the class it leads to is to be
  // skipped.
  predicate Follows(schema: Schema, skip: set<string>, db: Db, a: Key, b: Key) {
    a in db && db[a].kind in schema
    && exists n :: n in db[a].refs && n in schema[db[a].kind].relationships && schema[db[a].kind].relationships[n] !in skip
                   && StandsIn(db[a].refs[n], b)
  }

  predicate StandsIn(r: Ref, k: Key) {
    match r
    case NoRef => false
    case One(one) => k == one
    case Many(keys) => exists i :: 0 <= i < |keys| && keys[i] == k
    case Named(named) => exists n :: n in named && named[n] == k
  }

  lemma FollowsIff(schema: Schema, skip: set<string>, db: Db, a: Key, b: Key)
    requires a in db
    ensures Follows(schema, skip, db, a, b) <==> b in Neighbours(schema, skip, db[a])
  {
    forall r: Ref ensures StandsIn(r, b) <==> b in KeysOf(r) {
      if r.Named? && b in r.named.Values {
        var n :| n in r.named && r.named[n] == b;
      }
    }
  }

  // A way from one of the roots along relationships.
  predicate Trail(schema: Schema, skip: set<string>, db: Db, roots: set<Key>, p: seq<Key>) {
    p != [] && p[0] in roots && forall i :: 0 < i < |p| ==> Follows(schema, skip, db, p[i - 1], p[i])
  }

  ghost predicate Found(schema: Schema, skip: set<string>, db: Db, roots: set<Key>, k: Key) {
    exists p :: Trail(schema, skip, db, roots, p) && p[|p| - 1] == k
  }

  lemma {:induction false} TrailStays(schema: Schema, skip: set<string>, db: Db, roots: set<Key>, s: set<Key>, p: seq<Key>)
    requires roots <= s && Closed(schema, skip, db, s) && Trail(schema, skip, db, roots, p)
    ensures p[|p| - 1] in s
    decreases |p|
  {
    if |p| > 1 {
      var n := |p| - 1;
      assert forall i :: 0 < i < n ==> Follows(schema, skip, db, p[..n][i - 1], p[..n][i]);
      TrailStays(schema, skip, db, roots, s, p[..n]);
      FollowsIff(schema, skip, db, p[n - 1], p[n]);
    }
  }

  lemma FoundFurther(schema: Schema, skip: set<string>, db: Db, roots: set<Key>, a: Key, b: Key)
    requires Found(schema, skip, db, roots, a) && Follows(schema, skip, db, a, b)
    ensures Found(schema, skip, db, roots, b)
  {
    var p :| Trail(schema, skip, db, roots, p) && p[|p| - 1] == a;
    var q := p + [b];
    assert forall i :: 0 < i < |q| ==> Follows(schema, skip, db, q[i - 1], q[i]);
    assert Trail(schema, skip, db, roots, q);
  }

  // What can be reached is what there is a way to.
  lemma ReachableIsFound(schema: Schema, skip: set<string>, db: Db, roots: set<Key>, s: set<Key>)
    requires Reachable(schema, skip, db, roots, s)
    ensures forall k :: k in s <==> Found(schema, skip, db, roots, k)
  {
    var t := set k | k in s && Found(schema, skip, db, roots, k);
    forall k | k in roots ensures k in t {
      assert Trail(schema, skip, db, roots, [k]);
    }
    forall k | k in t ensures k in db && Neighbours(schema, skip, db[k]) <= t {
      forall b | b in Neighbours(schema, skip, db[k]) ensures b in t {
        FollowsIff(schema, skip, db, k, b);
        FoundFurther(schema, skip, db, roots, k, b);
      }
    }
    assert Closed(schema, skip, db, t);
    forall k | Found(schema, skip, db, roots, k) ensures k in s {
      var p :| Trail(schema, skip, db, roots, p) && p[|p| - 1] == k;
      TrailStays(schema, skip, db, roots, s, p);
    }
  }

  // ----- ids -----

  function Decimal(n: nat): (s: string)
    ensures s != "" && '0' <= s[0] <= '9'
  {
    if n < 10 then ['0' + n as char] else Decimal(n / 10) + ['0' + (n % 10) as char]
  }

  lemma {:induction false} DecimalInjective(m: nat, n: nat)
    requires Decimal(m) == Decimal(n)
    ensures m == n
    decreases m
  {
    var s, t := Decimal(m), Decimal(n);
    assert s[|s| - 1] == '0' + (m % 10) as char && t[|t| - 1] == '0' + (n % 10) as char;
    if m >= 10 && n >= 10 {
      assert s[..|s| - 1] == Decimal(m / 10) && t[..|t| - 1] == Decimal(n / 10);
      DecimalInjective(m / 10, n / 10);
    }
  }

  function DigitsValue(s: string): nat
    requires forall i :: 0 <= i < |s| ==> '0' <= s[i] <= '9'
  {
    if s == "" then 0 else 10 * DigitsValue(s[..|s| - 1]) + (s[|s| - 1] - '0') as nat
  }

  lemma {:induction false} DecimalValue(n: nat)
    ensures forall i :: 0 <= i < |Decimal(n)| ==> '0' <= Decimal(n)[i] <= '9'
    ensures DigitsValue(Decimal(n)) == n
  {
    var s := Decimal(n);
    if n < 10 {
      assert s[..|s| - 1] == "";
    } else {
      DecimalValue(n / 10);
      assert s[..|s| - 1] == Decimal(n / 10);
    }
  }

  type Ids = map<Key, string>

  predicate Distinct(order: seq<Key>) {
    forall i, j :: 0 <= i < j < |order| ==> order[i] != order[j]
  }

  // The keys have the numbers of their places in the order of discovery.
  ghost predicate Numbered(order: seq<Key>, ids: Ids) {
    && Distinct(order)
    && (forall k :: k in ids <==> k in order)
    && (forall i :: 0 <= i < |order| ==> order[i] in ids && ids[order[i]] == Decimal(i))
  }

  // What the exporter knows: its ids, in the order in which they were given.
  datatype Known = Known(order: seq<Key>, ids: Ids)

  // Ids were given to these keys, unless they had one, and to no others.
  ghost predicate Grew(a: Known, b: Known, keys: set<Key>) {
    a.order <= b.order && Extends(a.ids, b.ids) && b.ids.Keys == a.ids.Keys + keys
  }

  lemma GrewNothing(a: Known)
    ensures Grew(a, a, {})
  {
  }

  lemma GrewMore(a: Known, b: Known, c: Known, keys: set<Key>, more: set<Key>)
    requires Grew(a, b, keys) && Grew(b, c, more)
    ensures Grew(a, c, keys + more)
  {
  }

  lemma IdsDiffer(order: seq<Key>, ids: Ids, k: Key, l: Key)
    requires Numbered(order, ids) && k in ids && l in ids && ids[k] == ids[l]
    ensures k == l
  {
    var i :| 0 <= i < |order| && order[i] == k;
    var j :| 0 <= j < |order| && order[j] == l;
    DecimalInjective(i, j);
  }

  lemma {:induction false} DistinctSize(order: seq<Key>, s: set<Key>)
    requires Distinct(order) && forall k :: k in order ==> k in s
    ensures |order| <= |s|
    decreases |order|
  {
    if order != [] {
      var n := |order| - 1;
      forall k | k in order[..n] ensures k in s - {order[n]} {
      }
      DistinctSize(order[..n], s - {order[n]});
    }
  }

  // ----- what is written -----

  datatype IdRef = NoId | OneId(id: string) | ManyIds(ids: seq<string>) | NamedIds(named: map<string, string>)

  datatype Data = Data(kind: string, columns: map<string, Json>, refs: map<string, IdRef>)

  datatype Entry = Object_(data: Data) | Roots(ids: seq<string>) | Version(n: nat)

  type Dump = map<string, Entry>

  predicate RefWritten(j: IdRef, r: Ref, ids: Ids) {
    match r
    case NoRef => j == NoId
    case One(k) => k in ids && j == OneId(ids[k])
    case Many(ks) => j.ManyIds? && |j.ids| == |ks| && forall i :: 0 <= i < |ks| ==> ks[i] in ids && j.ids[i] == ids[ks[i]]
    case Named(m) => j.NamedIds? && j.named.Keys == m.Keys && forall n :: n in m ==> m[n] in ids && j.named[n] == ids[m[n]]
  }

  ghost predicate ColumnsWritten(schema: Schema, d: Data, o: Object)
    requires o.kind in schema && o.columns.Keys == schema[o.kind].columns.Keys
    requires forall n :: n in o.columns ==> Holds(schema[o.kind].columns[n], o.columns[n])
  {
    && d.columns.Keys == o.columns.Keys
    && forall n :: n in o.columns ==> d.columns[n] == Encode(schema[o.kind].columns[n], o.columns[n])
  }

  ghost predicate ObjectWritten(schema: Schema, skip: set<string>, db: Db, d: Data, o: Object, ids: Ids)
    requires ObjectFits(schema, db, o)
  {
    && d.kind == o.kind
    && ColumnsWritten(schema, d, o)
    && (forall n :: n in d.refs <==> n in o.refs && Kept(schema, skip, o, n))
    && (forall n :: n in d.refs ==> RefWritten(d.refs[n], o.refs[n], ids))
  }

  // More ids, none of them changed.
  predicate Extends(ids: Ids, more: Ids) {
    forall k :: k in ids ==> k in more && more[k] == ids[k]
  }

  lemma WrittenStays(schema: Schema, skip: set<string>, db: Db, d: Data, o: Object, ids: Ids, more: Ids)
    requires ObjectFits(schema, db, o) && ObjectWritten(schema, skip, db, d, o, ids) && Extends(ids, more)
    ensures ObjectWritten(schema, skip, db, d, o, more)
  {
  }

  predicate IsObject(dump: Dump, id: string) {
    id in dump && dump[id].Object_?
  }

  // Exactly the objects that can be reached from the roots are in the dump, each
  // once, under an id that no other object has.
  ghost predicate IsDumpOf(schema: Schema, skip: set<string>, db: Db, roots: set<Key>, ids: Ids, dump: Dump)
    requires Fits(schema, db)
  {
    && Reachable(schema, skip, db, roots, ids.Keys)
    && (forall k, l :: k in ids && l in ids && ids[k] == ids[l] ==> k == l)
    && (forall k :: k in ids ==> IsObject(dump, ids[k]) && k in db && ObjectWritten(schema, skip, db, dump[ids[k]].data, db[k], ids))
    && (forall id :: IsObject(dump, id) ==> !Underscored(id) && exists k :: k in ids && ids[k] == id)
    && (forall id :: id in dump && !IsObject(dump, id) ==> Underscored(id))
  }

  predicate Underscored(id: string) {
    id != "" && id[0] == '_'
  }
}
