// A dump that is imported again is a copy of the part of the database it was made
// of (src/cmscontrib/DumpExporter.py:154-158).
module DumpRoundTrip {
  import opened DumpValues
  import opened DumpGraph
  import opened DumpExport
  import opened DumpImport

  // What stands for each key after the import.
  type Copies = map<Key, Entity>

  function CopiesOf(ks: seq<Key>, copies: Copies): seq<Entity> {
    if ks == [] then []
    else
      var n := |ks| - 1;
      CopiesOf(ks[..n], copies) + if ks[n] in copies then [copies[ks[n]]] else []
  }

  // The relationship between the copies: what has no copy is left out.
  function CopyOf(r: Ref, copies: Copies): Link {
    match r
    case NoRef => NoLink
    case One(k) => if k in copies then LinkOne(copies[k]) else NoLink
    case Many(ks) => LinkMany(CopiesOf(ks, copies))
    case Named(m) => LinkNamed(map n | n in m && m[n] in copies :: copies[m[n]])
  }

  ghost predicate InTimeObject(schema: Schema, db: Db, o: Object, horizon: real)
    requires ObjectFits(schema, db, o)
  {
    forall n :: n in o.columns ==> InTime(schema[o.kind].columns[n], o.columns[n], horizon)
  }

  // The copy of one object: same class, same relationships between copies, and
  // the same columns exactly if all its dates are in time.
  ghost predicate CopiedObject(schema: Schema, skip: set<string>, db: Db, o: Object, horizon: real, copies: Copies, e: Entity)
    requires ObjectFits(schema, db, o)
    reads e
  {
    && e.kind == o.kind
    && (e.columns == o.columns <==> InTimeObject(schema, db, o, horizon))
    && e.refs == map n | n in o.refs && Kept(schema, skip, o, n) :: CopyOf(o.refs[n], copies)
  }

  // Different objects have different copies, and every copy is one of its object.
  ghost predicate IsCopy(schema: Schema, skip: set<string>, db: Db, horizon: real, copies: Copies)
    requires Fits(schema, db)
    reads copies.Values
  {
    && (forall k, l :: k in copies && l in copies && copies[k] == copies[l] ==> k == l)
    && (forall k :: k in copies ==> k in db && CopiedObject(schema, skip, db, db[k], horizon, copies, copies[k]))
  }

  // ----- one relationship -----

  ghost predicate Stand(ids: Ids, objs: Objs, copies: Copies) {
    forall k :: k in ids ==> (k in copies <==> ids[k] in objs) && (k in copies ==> copies[k] == objs[ids[k]])
  }

  lemma {:induction false} ManyCopied(list: seq<string>, ks: seq<Key>, ids: Ids, objs: Objs, copies: Copies)
    requires Stand(ids, objs, copies) && IdsListed(list, ks, ids)
    ensures Present(list, objs) == CopiesOf(ks, copies)
  {
    if ks != [] {
      var n := |ks| - 1;
      ManyCopied(list[..n], ks[..n], ids, objs, copies);
    }
  }

  lemma RefCopied(j: IdRef, r: Ref, ids: Ids, objs: Objs, copies: Copies)
    requires Stand(ids, objs, copies) && RefWritten(j, r, ids)
    ensures Resolve(j, objs) == CopyOf(r, copies)
  {
    match r {
      case Many(ks) => ManyCopied(j.ids, ks, ids, objs, copies);
      case Named(m) => NamedCopied(j.named, m, ids, objs, copies);
      case _ =>
    }
  }

  lemma NamedCopied(j: map<string, string>, m: map<string, Key>, ids: Ids, objs: Objs, copies: Copies)
    requires Stand(ids, objs, copies) && RefWritten(NamedIds(j), Named(m), ids)
    ensures (map n | n in j && j[n] in objs :: objs[j[n]]) == (map n | n in m && m[n] in copies :: copies[m[n]])
  {
  }

  // ----- one object -----

  lemma RefsCopied(schema: Schema, skip: set<string>, db: Db, d: Data, o: Object, ids: Ids, objs: Objs, copies: Copies)
    requires ObjectFits(schema, db, o) && ObjectWritten(schema, skip, db, d, o, ids) && Stand(ids, objs, copies)
    ensures Linked(schema, d, objs) == map n | n in o.refs && Kept(schema, skip, o, n) :: CopyOf(o.refs[n], copies)
  {
    var l := Linked(schema, d, objs);
    var r := map n | n in o.refs && Kept(schema, skip, o, n) :: CopyOf(o.refs[n], copies);
    forall n ensures n in l <==> n in r {
    }
    forall n | n in l ensures l[n] == r[n] {
      RefCopied(d.refs[n], o.refs[n], ids, objs, copies);
    }
  }

  lemma WrittenReadable(schema: Schema, skip: set<string>, db: Db, d: Data, o: Object, ids: Ids)
    requires ObjectFits(schema, db, o) && ObjectWritten(schema, skip, db, d, o, ids)
    ensures DataFits(schema, d)
  {
    forall n | n in d.columns && n in schema[d.kind].columns ensures Readable(schema[d.kind].columns[n], d.columns[n]) {
      DecodeEncodeIff(schema[o.kind].columns[n], o.columns[n], 0.0);
    }
  }

  lemma ColumnCopied(schema: Schema, d: Data, o: Object, horizon: real, n: string)
    requires o.kind in schema && o.columns.Keys == schema[o.kind].columns.Keys && n in o.columns
    requires forall m :: m in o.columns ==> Holds(schema[o.kind].columns[m], o.columns[m])
    requires d.kind == o.kind && ColumnsWritten(schema, d, o) && DataFits(schema, d)
    ensures n in Decoded(schema, d, horizon)
    ensures Decoded(schema, d, horizon)[n] == o.columns[n] <==> InTime(schema[o.kind].columns[n], o.columns[n], horizon)
  {
    DecodeEncodeIff(schema[o.kind].columns[n], o.columns[n], horizon);
  }

  lemma ColumnsCopied(schema: Schema, skip: set<string>, db: Db, d: Data, o: Object, ids: Ids, horizon: real)
    requires ObjectFits(schema, db, o) && ObjectWritten(schema, skip, db, d, o, ids) && DataFits(schema, d)
    ensures Decoded(schema, d, horizon) == o.columns <==> InTimeObject(schema, db, o, horizon)
  {
    var back := Decoded(schema, d, horizon);
    assert back.Keys == o.columns.Keys;
    forall n | n in o.columns
      ensures back[n] == o.columns[n] <==> InTime(schema[o.kind].columns[n], o.columns[n], horizon)
    {
      ColumnCopied(schema, d, o, horizon, n);
    }
    SameColumns(back, o.columns);
  }

  lemma SameColumns(a: map<string, Value>, b: map<string, Value>)
    requires a.Keys == b.Keys
    ensures a == b <==> forall n :: n in b ==> a[n] == b[n]
  {
  }

  lemma DumpReadable(schema: Schema, skip: set<string>, db: Db, roots: set<Key>, ids: Ids, dump: Dump)
    requires Fits(schema, db) && IsDumpOf(schema, skip, db, roots, ids, dump)
    ensures DumpFits(schema, dump)
  {
    forall id | id in dump && !Underscored(id) ensures dump[id].Object_? && DataFits(schema, dump[id].data) {
      assert IsObject(dump, id);
      var k :| k in ids && ids[k] == id;
      WrittenReadable(schema, skip, db, dump[id].data, db[k], ids);
    }
  }

  // ----- the whole -----

  function Standing(ids: Ids, objs: Objs): Copies {
    map k | k in ids && ids[k] in objs :: objs[ids[k]]
  }

  // Whatever classes the export skips and the import leaves out: what is imported
  // is a copy of what was exported and not left out.
  lemma ImportIsCopy(schema: Schema, skip: set<string>, db: Db, roots: set<Key>, ids: Ids, dump: Dump, horizon: real, objs: Objs)
    requires Fits(schema, db) && IsDumpOf(schema, skip, db, roots, ids, dump)
    requires AllImported(schema, dump, horizon, objs) && AllLinked(schema, dump, objs, objs.Keys)
    ensures IsCopy(schema, skip, db, horizon, Standing(ids, objs))
  {
    var copies := Standing(ids, objs);
    forall k | k in copies ensures k in db && CopiedObject(schema, skip, db, db[k], horizon, copies, copies[k]) {
      var d := dump[ids[k]].data;
      assert Imported(schema, dump, horizon, ids[k], objs[ids[k]]);
      assert IsLinked(schema, dump, objs, ids[k]);
      RefsCopied(schema, skip, db, d, db[k], ids, objs, copies);
      ColumnsCopied(schema, skip, db, d, db[k], ids, horizon);
    }
  }

  // Those whose class is not left out.
  function Imports(db: Db, s: set<Key>, drop: set<string>): set<Key>
    requires s <= db.Keys
  {
    set k | k in s && db[k].kind !in drop
  }

  // The imported objects are copies of exactly these keys, under some ids.
  ghost predicate CopiesExactly(schema: Schema, skip: set<string>, db: Db, horizon: real, keys: set<Key>, ids: Ids, objs: Objs)
    requires Fits(schema, db)
    reads objs.Values
  {
    var copies := Standing(ids, objs);
    StandingValues(ids, objs);
    copies.Keys == keys && copies.Values == objs.Values && IsCopy(schema, skip, db, horizon, copies)
  }

  lemma StandingValues(ids: Ids, objs: Objs)
    ensures Standing(ids, objs).Values <= objs.Values
  {
  }

  lemma AllStand(schema: Schema, skip: set<string>, db: Db, roots: set<Key>, ids: Ids, dump: Dump, drop: set<string>, objs: Objs)
    requires Fits(schema, db) && IsDumpOf(schema, skip, db, roots, ids, dump)
    requires forall id :: id in dump && !Underscored(id) ==> dump[id].Object_?
    requires forall id :: id in objs <==> id in dump && !Underscored(id) && dump[id].data.kind !in drop
    ensures Reachable(schema, skip, db, roots, ids.Keys) && ids.Keys <= db.Keys
    ensures Standing(ids, objs).Keys == Imports(db, ids.Keys, drop)
    ensures objs.Values == Standing(ids, objs).Values
  {
    forall k | k in ids ensures ids[k] in objs <==> db[k].kind !in drop {
      assert IsObject(dump, ids[k]);
    }
    StandingKeys(db, ids, drop, objs);
    forall id | id in objs ensures exists k :: k in ids && ids[k] == id {
      assert IsObject(dump, id);
    }
    SameValues(ids, objs);
  }

  lemma StandingKeys(db: Db, ids: Ids, drop: set<string>, objs: Objs)
    requires ids.Keys <= db.Keys && forall k :: k in ids ==> (ids[k] in objs <==> db[k].kind !in drop)
    ensures Standing(ids, objs).Keys == Imports(db, ids.Keys, drop)
  {
  }

  lemma SameValues(ids: Ids, objs: Objs)
    requires forall id :: id in objs ==> exists k :: k in ids && ids[k] == id
    ensures objs.Values == Standing(ids, objs).Values
  {
    var copies := Standing(ids, objs);
    forall e | e in objs.Values ensures e in copies.Values {
      var id :| id in objs && objs[id] == e;
      var k :| k in ids && ids[k] == id;
      assert copies[k] == e;
    }
  }

  // ----- nothing left out -----

  // The link mirrors the relationship, object by object.
  ghost predicate Mirrors(r: Ref, l: Link, copies: Copies)
    requires KeysOf(r) <= copies.Keys
  {
    match r
    case NoRef => l == NoLink
    case One(k) => assert k in KeysOf(r); l == LinkOne(copies[k])
    case Many(ks) =>
      l.LinkMany? && |l.many| == |ks| && forall i :: 0 <= i < |ks| ==> (assert ks[i] in KeysOf(r); l.many[i] == copies[ks[i]])
    case Named(m) =>
      l.LinkNamed? && l.named.Keys == m.Keys && forall n :: n in m ==> (assert m[n] in KeysOf(r); l.named[n] == copies[m[n]])
  }

  lemma {:induction false} AllCopies(ks: seq<Key>, copies: Copies)
    requires forall k :: k in ks ==> k in copies
    ensures |CopiesOf(ks, copies)| == |ks|
    ensures forall i :: 0 <= i < |ks| ==> ks[i] in copies && CopiesOf(ks, copies)[i] == copies[ks[i]]
  {
    if ks != [] {
      AllCopies(ks[..|ks| - 1], copies);
    }
  }

  lemma CopyMirrors(r: Ref, copies: Copies)
    requires KeysOf(r) <= copies.Keys
    ensures Mirrors(r, CopyOf(r, copies), copies)
  {
    match r {
      case NoRef =>
      case One(k) => assert k in KeysOf(r);
      case Many(ks) =>
        assert forall k :: k in ks ==> k in KeysOf(r);
        AllCopies(ks, copies);
      case Named(m) =>
        assert forall n :: n in m ==> m[n] in KeysOf(r);
    }
  }

  // When the import leaves no class out, the copy is an isomorphic graph: every
  // relationship of every object is mirrored, cycles and shared objects included.
  lemma FullCopyMirrors(schema: Schema, skip: set<string>, db: Db, horizon: real, copies: Copies, k: Key, n: string)
    requires Fits(schema, db) && IsCopy(schema, skip, db, horizon, copies) && Closed(schema, skip, db, copies.Keys)
    requires k in copies && k in db && n in db[k].refs && Kept(schema, skip, db[k], n)
    ensures KeysOf(db[k].refs[n]) <= copies.Keys
    ensures n in copies[k].refs && Mirrors(db[k].refs[n], copies[k].refs[n], copies)
  {
    forall x | x in KeysOf(db[k].refs[n]) ensures x in copies.Keys {
      assert x in Neighbours(schema, skip, db[k]);
    }
    CopyMirrors(db[k].refs[n], copies);
    assert CopiedObject(schema, skip, db, db[k], horizon, copies, copies[k]);
  }
}
