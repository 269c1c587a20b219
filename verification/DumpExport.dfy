// The exporter: a worklist that gives every object an id when it is first seen
// (src/cmscontrib/DumpExporter.py:263-387).
module DumpExport {
  import opened Basics
  import opened DumpValues
  import opened DumpGraph

  class Exporter {
    const schema: Schema
    const skip: set<string>
    const db: Db
    // A dictionary keeps the order in which its keys were added.
    var ids: Ids
    var order: seq<Key>
    var queue: seq<Key>
    var data: Dump

    constructor (schema: Schema, skip: set<string>, db: Db)
      ensures this.schema == schema && this.skip == skip && this.db == db
      ensures ids == map[] && order == [] && queue == [] && data == map[]
    {
      this.schema, this.skip, this.db := schema, skip, db;
      ids, order, queue, data := map[], [], [], map[];
    }

    ghost function Now(): Known
      reads this
    {
      Known(order, ids)
    }

    // taken keys have left the queue, which is the rest of the order.
    ghost predicate Valid(taken: nat)
      reads this
    {
      Numbered(order, ids) && taken <= |order| && queue == order[taken..]
    }

    method GetId(k: Key, ghost taken: nat) returns (id: string)
      requires Valid(taken)
      modifies this`ids, this`order, this`queue
      ensures Valid(taken) && Grew(old(Now()), Now(), {k}) && id == ids[k]
    {
      if k !in ids {
        ids := ids[k := Decimal(|order|)];
        order, queue := order + [k], queue + [k];
      }
      id := ids[k];
    }

    method ExportRef(r: Ref, ghost taken: nat) returns (j: IdRef)
      requires Valid(taken)
      modifies this`ids, this`order, this`queue
      ensures Valid(taken) && Grew(old(Now()), Now(), KeysOf(r)) && RefWritten(j, r, ids)
    {
      match r {
        case NoRef => j := NoId;
        case One(k) =>
          var id := GetId(k, taken);
          j := OneId(id);
        case Many(keys) =>
          var list := GetIds(keys, taken);
          j := ManyIds(list);
        case Named(named) =>
          var table := GetNamed(named, taken);
          j := NamedIds(table);
      }
    }

    method GetIds(keys: seq<Key>, ghost taken: nat) returns (list: seq<string>)
      requires Valid(taken)
      modifies this`ids, this`order, this`queue
      ensures Valid(taken) && Grew(old(Now()), Now(), KeySet(keys)) && RefWritten(ManyIds(list), Many(keys), ids)
    {
      list := [];
      ghost var start := Now();
      var i := 0;
      GrewNothing(start);
      assert KeySet(keys[..i]) == {};
      while i < |keys|
        invariant 0 <= i == |list| <= |keys| && Valid(taken) && Grew(start, Now(), KeySet(keys[..i]))
        invariant IdsListed(list, keys[..i], ids)
      {
        ghost var before := Now();
        var id := GetId(keys[i], taken);
        GrewMore(start, before, Now(), KeySet(keys[..i]), {keys[i]});
        OneMoreKey(keys, i);
        ListedMore(list, keys, i, before.ids, ids);
        list := list + [id];
        i := i + 1;
      }
      assert keys[..i] == keys;
    }

    method GetNext(named: map<string, Key>, n: string, table: map<string, string>, ghost taken: nat, ghost start: Known, ghost done: set<string>)
        returns (more: map<string, string>)
      requires n in named && done <= named.Keys
      requires Valid(taken) && Grew(start, Now(), Targets(named, done)) && IdsNamed(table, named, done, ids)
      modifies this`ids, this`order, this`queue
      ensures Valid(taken) && Grew(start, Now(), Targets(named, done + {n})) && IdsNamed(more, named, done + {n}, ids)
    {
      ghost var before := Now();
      var id := GetId(named[n], taken);
      NameAdded(start, before, Now(), table, named, done, n);
      more := table[n := id];
    }

    method GetNamed(named: map<string, Key>, ghost taken: nat) returns (table: map<string, string>)
      requires Valid(taken)
      modifies this`ids, this`order, this`queue
      ensures Valid(taken) && Grew(old(Now()), Now(), KeysOf(Named(named))) && RefWritten(NamedIds(table), Named(named), ids)
    {
      table := map[];
      ghost var start, done := Now(), {};
      GrewNothing(start);
      assert Targets(named, done) == {};
      var todo := named.Keys;
      while todo != {}
        invariant Parted(named.Keys, todo, done)
        invariant Valid(taken) && Grew(start, Now(), Targets(named, done)) && IdsNamed(table, named, done, ids)
        decreases |todo|
      {
        var n :| n in todo;
        PartOne(named.Keys, todo, done, n);
        table := GetNext(named, n, table, taken, start, done);
        todo, done := todo - {n}, done + {n};
      }
      PartAll(named.Keys, todo, done);
      AllNamed(start, Now(), table, named, done);
    }

    method ExportNext(o: Object, n: string, refs: map<string, IdRef>, ghost taken: nat, ghost start: Known, ghost done: set<string>)
        returns (more: map<string, IdRef>)
      requires n in o.refs && done <= o.refs.Keys
      requires Valid(taken) && Grew(start, Now(), Across(o, done)) && RefsWritten(refs, o, done, ids)
      modifies this`ids, this`order, this`queue
      ensures Valid(taken) && Grew(start, Now(), Across(o, done + {n})) && RefsWritten(more, o, done + {n}, ids)
    {
      ghost var before := Now();
      var j := ExportRef(o.refs[n], taken);
      RefAdded(start, before, Now(), refs, o, done, n, j);
      more := refs[n := j];
    }

    method ExportObject(o: Object, ghost taken: nat) returns (d: Data)
      requires Valid(taken) && ObjectFits(schema, db, o)
      modifies this`ids, this`order, this`queue
      ensures Valid(taken) && Grew(old(Now()), Now(), Neighbours(schema, skip, o)) && ObjectWritten(schema, skip, db, d, o, ids)
      ensures forall n :: n in d.refs <==> n in o.refs && schema[o.kind].relationships[n] !in skip
    {
      var columns := map n | n in o.columns :: Encode(schema[o.kind].columns[n], o.columns[n]);
      var refs: map<string, IdRef> := map[];
      ghost var start, done := Now(), {};
      GrewNothing(start);
      assert Across(o, done) == {};
      var names := set n | n in o.refs && Kept(schema, skip, o, n);
      var todo := names;
      while todo != {}
        invariant Parted(names, todo, done)
        invariant Valid(taken) && Grew(start, Now(), Across(o, done)) && RefsWritten(refs, o, done, ids)
        decreases |todo|
      {
        var n :| n in todo;
        PartOne(names, todo, done, n);
        refs := ExportNext(o, n, refs, taken, start, done);
        todo, done := todo - {n}, done + {n};
      }
      PartAll(names, todo, done);
      d := Data(o.kind, columns, refs);
      AllAcross(schema, skip, db, o, names, d, ids);
    }

    // ----- the whole dump -----

    // Take the next object from the queue and write it.
    method ExportOne(ghost taken: nat)
      requires Fits(schema, db) && Valid(taken) && queue != [] && queue[0] in db
      requires AllWritten(schema, skip, db, Now(), data, taken)
      modifies this`ids, this`order, this`queue, this`data
      ensures Valid(taken + 1) && AllWritten(schema, skip, db, Now(), data, taken + 1)
      ensures Grew(old(Now()), Now(), Neighbours(schema, skip, db[old(queue[0])]))
      ensures SpecialKept(old(data), data)
    {
      var k := queue[0];
      assert order[taken] == k;
      queue := queue[1..];
      ghost var before := Now();
      var d := ExportObject(db[k], taken + 1);
      WriteOne(schema, skip, db, before, Now(), data, taken, d);
      SpecialStays(data, taken, Object_(d));
      data := data[ids[k] := Object_(d)];
    }

    method ExportStep(ghost roots: set<Key>, ghost taken: nat)
      requires Fits(schema, db) && Valid(taken) && queue != []
      requires Exploring(schema, skip, db, roots, Now(), taken) && AllWritten(schema, skip, db, Now(), data, taken)
      modifies this`ids, this`order, this`queue, this`data
      ensures Valid(taken + 1) && taken < |db|
      ensures Exploring(schema, skip, db, roots, Now(), taken + 1) && AllWritten(schema, skip, db, Now(), data, taken + 1)
      ensures SpecialKept(old(data), data) && Extends(old(ids), ids)
    {
      ghost var before := Now();
      FoundStored(before, db);
      assert order[taken] == queue[0];
      ExportOne(taken);
      ExploreOne(schema, skip, db, roots, before, Now(), taken);
    }

    method ExportQueue(ghost roots: set<Key>)
      requires Fits(schema, db) && Valid(0)
      requires Exploring(schema, skip, db, roots, Now(), 0) && AllWritten(schema, skip, db, Now(), data, 0)
      modifies this`ids, this`order, this`queue, this`data
      ensures IsDumpOf(schema, skip, db, roots, ids, data)
      ensures SpecialKept(old(data), data) && Extends(old(ids), ids)
    {
      ghost var taken := 0;
      while queue != []
        invariant Valid(taken) && taken <= |db|
        invariant Exploring(schema, skip, db, roots, Now(), taken) && AllWritten(schema, skip, db, Now(), data, taken)
        invariant SpecialKept(old(data), data) && Extends(old(ids), ids)
        decreases |db| - taken
      {
        ExportStep(roots, taken);
        taken := taken + 1;
      }
      AllExported(schema, skip, db, roots, Now(), data);
    }

    method ExportRoots(roots: seq<Key>)
      requires Fits(schema, db) && Valid(0) && order == [] && ids == map[] && data == map[]
      requires forall k :: k in roots ==> k in db
      modifies this`ids, this`order, this`queue, this`data
      ensures Valid(0) && Exploring(schema, skip, db, KeySet(roots), Now(), 0) && AllWritten(schema, skip, db, Now(), data, 0)
      ensures ListsRoots(data, KeySet(roots), ids)
    {
      var first := GetIds(roots, 0);
      assert ids.Keys == KeySet(roots);
      var list := RootIds(order, ids);
      RootsAre(order, ids, KeySet(roots));
      ghost var known := Now();
      RootsExplored(schema, skip, db, KeySet(roots), known, map["_objects" := Roots(list)], list);
      data := map["_objects" := Roots(list)];
      assert Now() == known;
    }

    // The dump of everything that can be reached from the roots.
    method DoExport(roots: seq<Key>, version: nat)
      requires Fits(schema, db) && Valid(0) && order == [] && ids == map[] && data == map[]
      requires forall k :: k in roots ==> k in db
      modifies this
      ensures IsDumpOf(schema, skip, db, KeySet(roots), ids, data)
      ensures ListsRoots(data, KeySet(roots), ids)
      ensures "_version" in data && data["_version"] == Version(version)
    {
      ExportRoots(roots);
      ghost var some := ids;
      ExportQueue(KeySet(roots));
      ListedStays(data["_objects"].ids, KeySet(roots), some, ids);
      VersionAdded(schema, skip, db, KeySet(roots), ids, data, version);
      data := data["_version" := Version(version)];
    }
  }

  ghost predicate IdsListed(list: seq<string>, keys: seq<Key>, ids: Ids) {
    |list| == |keys| && forall i :: 0 <= i < |keys| ==> keys[i] in ids && list[i] == ids[keys[i]]
  }

  lemma ListedMore(list: seq<string>, keys: seq<Key>, i: nat, before: Ids, ids: Ids)
    requires i < |keys| && IdsListed(list, keys[..i], before) && Extends(before, ids) && keys[i] in ids
    ensures IdsListed(list + [ids[keys[i]]], keys[..i + 1], ids)
  {
    assert keys[..i + 1] == keys[..i] + [keys[i]];
  }

  function KeySet(keys: seq<Key>): set<Key> {
    set k | k in keys
  }

  lemma OneMoreKey(keys: seq<Key>, i: nat)
    requires i < |keys|
    ensures KeySet(keys[..i + 1]) == KeySet(keys[..i]) + {keys[i]}
  {
    assert keys[..i + 1] == keys[..i] + [keys[i]];
  }

  ghost function Targets(named: map<string, Key>, names: set<string>): set<Key> {
    set n | n in names && n in named :: named[n]
  }

  ghost predicate IdsNamed(table: map<string, string>, named: map<string, Key>, names: set<string>, ids: Ids)
    requires names <= named.Keys
  {
    table.Keys == names && forall n :: n in names ==> named[n] in ids && table[n] == ids[named[n]]
  }

  lemma NamedMore(table: map<string, string>, named: map<string, Key>, names: set<string>, n: string, before: Ids, ids: Ids)
    requires names <= named.Keys && n in named && IdsNamed(table, named, names, before) && Extends(before, ids) && named[n] in ids
    ensures IdsNamed(table[n := ids[named[n]]], named, names + {n}, ids)
  {
  }

  lemma NameAdded(start: Known, before: Known, after: Known, table: map<string, string>, named: map<string, Key>, done: set<string>, n: string)
    requires Grew(start, before, Targets(named, done)) && n in named && Grew(before, after, {named[n]})
    requires done <= named.Keys && IdsNamed(table, named, done, before.ids)
    ensures Grew(start, after, Targets(named, done + {n})) && IdsNamed(table[n := after.ids[named[n]]], named, done + {n}, after.ids)
  {
    OneMoreName(named, done, n);
    GrewMore(start, before, after, Targets(named, done), {named[n]});
    NamedMore(table, named, done, n, before.ids, after.ids);
  }

  lemma OneMoreName(named: map<string, Key>, names: set<string>, n: string)
    requires n in named
    ensures Targets(named, names + {n}) == Targets(named, names) + {named[n]}
  {
  }

  lemma AllNamed(start: Known, now: Known, table: map<string, string>, named: map<string, Key>, done: set<string>)
    requires done == named.Keys && Grew(start, now, Targets(named, done)) && IdsNamed(table, named, done, now.ids)
    ensures Grew(start, now, KeysOf(Named(named))) && RefWritten(NamedIds(table), Named(named), now.ids)
  {
    assert Targets(named, named.Keys) == named.Values;
  }

  // The keys some relationships of an object hold.
  ghost function Across(o: Object, names: set<string>): set<Key> {
    set n, k | n in names && n in o.refs && k in KeysOf(o.refs[n]) :: k
  }

  ghost predicate RefsWritten(refs: map<string, IdRef>, o: Object, names: set<string>, ids: Ids)
    requires names <= o.refs.Keys
  {
    refs.Keys == names && forall n :: n in names ==> RefWritten(refs[n], o.refs[n], ids)
  }

  lemma RefStays(j: IdRef, r: Ref, ids: Ids, more: Ids)
    requires RefWritten(j, r, ids) && Extends(ids, more)
    ensures RefWritten(j, r, more)
  {
  }

  lemma AcrossMore(o: Object, names: set<string>, n: string)
    requires n in o.refs
    ensures Across(o, names + {n}) == Across(o, names) + KeysOf(o.refs[n])
  {
  }

  lemma RefAdded(start: Known, before: Known, after: Known, refs: map<string, IdRef>, o: Object, done: set<string>, n: string, j: IdRef)
    requires n in o.refs && done <= o.refs.Keys && Grew(start, before, Across(o, done)) && Grew(before, after, KeysOf(o.refs[n]))
    requires RefsWritten(refs, o, done, before.ids) && RefWritten(j, o.refs[n], after.ids)
    ensures Grew(start, after, Across(o, done + {n})) && RefsWritten(refs[n := j], o, done + {n}, after.ids)
  {
    AcrossMore(o, done, n);
    GrewMore(start, before, after, Across(o, done), KeysOf(o.refs[n]));
    forall m | m in done ensures RefWritten(refs[m], o.refs[m], after.ids) {
      RefStays(refs[m], o.refs[m], before.ids, after.ids);
    }
  }

  lemma AllAcross(schema: Schema, skip: set<string>, db: Db, o: Object, names: set<string>, d: Data, ids: Ids)
    requires ObjectFits(schema, db, o) && names == (set n | n in o.refs && Kept(schema, skip, o, n))
    requires RefsWritten(d.refs, o, names, ids) && d.kind == o.kind && ColumnsWritten(schema, d, o)
    ensures Across(o, names) == Neighbours(schema, skip, o) && ObjectWritten(schema, skip, db, d, o, ids)
  {
  }

  // The first keys of the order have their objects written, and nothing else is
  // written but what starts with an underscore.
  ghost predicate AllWritten(schema: Schema, skip: set<string>, db: Db, known: Known, data: Dump, taken: nat)
    requires Fits(schema, db)
  {
    && taken <= |known.order|
    && (forall i :: 0 <= i < taken ==> WrittenAt(schema, skip, db, known, data, i))
    && (forall id :: IsObject(data, id) ==> exists i :: 0 <= i < taken && id == Decimal(i))
    && (forall id :: id in data && !IsObject(data, id) ==> Underscored(id))
  }

  ghost predicate WrittenAt(schema: Schema, skip: set<string>, db: Db, known: Known, data: Dump, i: nat)
    requires Fits(schema, db) && i < |known.order|
  {
    && known.order[i] in db && IsObject(data, Decimal(i))
    && ObjectWritten(schema, skip, db, data[Decimal(i)].data, db[known.order[i]], known.ids)
  }

  lemma WriteOne(schema: Schema, skip: set<string>, db: Db, before: Known, after: Known, data: Dump, taken: nat, d: Data)
    requires Fits(schema, db) && AllWritten(schema, skip, db, before, data, taken)
    requires taken < |before.order| && before.order <= after.order && Extends(before.ids, after.ids)
    requires before.order[taken] in db && ObjectWritten(schema, skip, db, d, db[before.order[taken]], after.ids)
    ensures AllWritten(schema, skip, db, after, data[Decimal(taken) := Object_(d)], taken + 1)
  {
    var more := data[Decimal(taken) := Object_(d)];
    forall i | 0 <= i < taken + 1 ensures WrittenAt(schema, skip, db, after, more, i) {
      if i < taken {
        if Decimal(i) == Decimal(taken) {
          DecimalInjective(i, taken);
        }
        assert WrittenAt(schema, skip, db, before, data, i);
        WrittenStays(schema, skip, db, data[Decimal(i)].data, db[before.order[i]], before.ids, after.ids);
      }
    }
    forall id | IsObject(more, id) ensures exists i :: 0 <= i < taken + 1 && id == Decimal(i) {
      if id != Decimal(taken) {
        assert IsObject(data, id);
        var i :| 0 <= i < taken && id == Decimal(i);
      }
    }
  }

  function RootIds(order: seq<Key>, ids: Ids): seq<string>
    requires forall k :: k in order ==> k in ids
  {
    seq(|order|, i requires 0 <= i < |order| => ids[order[i]])
  }

  lemma FoundStored(known: Known, db: Db)
    requires Numbered(known.order, known.ids) && known.ids.Keys <= db.Keys
    ensures |known.order| <= |db| && forall k :: k in known.order ==> k in db
  {
    DistinctSize(known.order, db.Keys);
  }

  // These are the ids of exactly these keys.
  ghost predicate RootsListed(list: seq<string>, roots: set<Key>, ids: Ids) {
    && (forall k :: k in roots ==> k in ids && ids[k] in list)
    && (forall id :: id in list ==> exists k :: k in roots && k in ids && ids[k] == id)
  }

  ghost predicate ListsRoots(data: Dump, roots: set<Key>, ids: Ids) {
    "_objects" in data && data["_objects"].Roots? && RootsListed(data["_objects"].ids, roots, ids)
  }

  lemma RootsExplored(schema: Schema, skip: set<string>, db: Db, roots: set<Key>, known: Known, data: Dump, list: seq<string>)
    requires Fits(schema, db) && known.ids.Keys == roots <= db.Keys
    requires data == map["_objects" := Roots(list)] && RootsListed(list, roots, known.ids)
    ensures Exploring(schema, skip, db, roots, known, 0) && AllWritten(schema, skip, db, known, data, 0)
    ensures ListsRoots(data, roots, known.ids)
  {
    assert Underscored("_objects");
  }

  lemma RootsAre(order: seq<Key>, ids: Ids, roots: set<Key>)
    requires Numbered(order, ids) && ids.Keys == roots
    ensures RootsListed(RootIds(order, ids), roots, ids)
  {
    var list := RootIds(order, ids);
    forall k | k in ids ensures ids[k] in list {
      var i :| 0 <= i < |order| && order[i] == k;
      assert list[i] == ids[k];
    }
    forall id | id in list ensures exists k :: k in ids && ids[k] == id {
      var i :| 0 <= i < |list| && list[i] == id;
      assert order[i] in ids;
    }
  }

  lemma ListedStays(list: seq<string>, roots: set<Key>, ids: Ids, more: Ids)
    requires RootsListed(list, roots, ids) && Extends(ids, more)
    ensures RootsListed(list, roots, more)
  {
  }

  // Entries that are not objects stay as they are.
  predicate SpecialKept(before: Dump, after: Dump) {
    forall id :: id in before && Underscored(id) ==> id in after && after[id] == before[id]
  }

  lemma SpecialStays(data: Dump, n: nat, e: Entry)
    ensures SpecialKept(data, data[Decimal(n) := e])
  {
    assert !Underscored(Decimal(n));
  }

  lemma AllExported(schema: Schema, skip: set<string>, db: Db, roots: set<Key>, known: Known, data: Dump)
    requires Fits(schema, db) && Numbered(known.order, known.ids) && Exploring(schema, skip, db, roots, known, |known.order|)
    requires AllWritten(schema, skip, db, known, data, |known.order|)
    ensures IsDumpOf(schema, skip, db, roots, known.ids, data)
  {
    Explored(schema, skip, db, roots, known);
    forall k, l | k in known.ids && l in known.ids && known.ids[k] == known.ids[l] ensures k == l {
      IdsDiffer(known.order, known.ids, k, l);
    }
    forall k | k in known.ids
      ensures IsObject(data, known.ids[k]) && k in db && ObjectWritten(schema, skip, db, data[known.ids[k]].data, db[k], known.ids)
    {
      var i :| 0 <= i < |known.order| && known.order[i] == k;
      assert WrittenAt(schema, skip, db, known, data, i);
    }
    forall id | IsObject(data, id) ensures !Underscored(id) && exists k :: k in known.ids && known.ids[k] == id {
      var i :| 0 <= i < |known.order| && id == Decimal(i);
      assert known.order[i] in known.ids;
    }
  }

  lemma VersionAdded(schema: Schema, skip: set<string>, db: Db, roots: set<Key>, ids: Ids, data: Dump, version: nat)
    requires Fits(schema, db) && IsDumpOf(schema, skip, db, roots, ids, data)
    ensures IsDumpOf(schema, skip, db, roots, ids, data["_version" := Version(version)])
  {
    var more := data["_version" := Version(version)];
    assert Underscored("_version");
    forall id ensures IsObject(more, id) <==> IsObject(data, id) {
      if id == "_version" {
        assert Underscored(id);
      }
    }
  }

  // The keys found so far lie in every closed set with the roots, and what is next
  // to the ones taken has been found.
  ghost predicate Exploring(schema: Schema, skip: set<string>, db: Db, roots: set<Key>, known: Known, taken: nat) {
    && roots <= known.ids.Keys <= db.Keys && taken <= |known.order|
    && (forall i :: 0 <= i < taken ==> known.order[i] in db && Neighbours(schema, skip, db[known.order[i]]) <= known.ids.Keys)
    && (forall t :: roots <= t && Closed(schema, skip, db, t) ==> known.ids.Keys <= t)
  }

  lemma NeighboursStored(schema: Schema, skip: set<string>, db: Db, k: Key)
    requires Fits(schema, db) && k in db
    ensures Neighbours(schema, skip, db[k]) <= db.Keys
  {
    assert ObjectFits(schema, db, db[k]);
  }

  lemma ExploreOne(schema: Schema, skip: set<string>, db: Db, roots: set<Key>, before: Known, after: Known, taken: nat)
    requires Fits(schema, db) && Exploring(schema, skip, db, roots, before, taken) && Numbered(before.order, before.ids)
    requires taken < |before.order| && before.order[taken] in db && Grew(before, after, Neighbours(schema, skip, db[before.order[taken]]))
    ensures Exploring(schema, skip, db, roots, after, taken + 1)
  {
    var k := before.order[taken];
    NeighboursStored(schema, skip, db, k);
    assert k in before.ids;
    ExploredFurther(schema, skip, db, before, after, taken);
    forall t | roots <= t && Closed(schema, skip, db, t) ensures after.ids.Keys <= t {
      assert k in t;
    }
  }

  lemma ExploredFurther(schema: Schema, skip: set<string>, db: Db, before: Known, after: Known, taken: nat)
    requires taken < |before.order| && before.order[taken] in db && Grew(before, after, Neighbours(schema, skip, db[before.order[taken]]))
    requires forall i :: 0 <= i < taken ==> before.order[i] in db && Neighbours(schema, skip, db[before.order[i]]) <= before.ids.Keys
    ensures taken + 1 <= |after.order|
    ensures forall i :: 0 <= i < taken + 1 ==>
                          after.order[i] in db && Neighbours(schema, skip, db[after.order[i]]) <= after.ids.Keys
  {
    forall i | 0 <= i < taken + 1 ensures after.order[i] in db && Neighbours(schema, skip, db[after.order[i]]) <= after.ids.Keys {
      assert after.order[i] == before.order[i];
    }
  }

  lemma Explored(schema: Schema, skip: set<string>, db: Db, roots: set<Key>, known: Known)
    requires Exploring(schema, skip, db, roots, known, |known.order|) && Numbered(known.order, known.ids)
    ensures Reachable(schema, skip, db, roots, known.ids.Keys)
  {
    forall k | k in known.ids ensures k in db && Neighbours(schema, skip, db[k]) <= known.ids.Keys {
      var i :| 0 <= i < |known.order| && known.order[i] == k;
    }
  }
}
