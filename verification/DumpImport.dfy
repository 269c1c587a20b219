// The importer: first every object without its relationships, then the
// relationships between them (src/cmscontrib/DumpImporter.py:265-293,
// src/cmscontrib/DumpImporter.py:382-457).
module DumpImport {
  import opened Basics
  import opened DumpValues
  import opened DumpGraph

  class Entity {
    const kind: string
    const columns: map<string, Value>
    var refs: map<string, Link>

    constructor (kind: string, columns: map<string, Value>)
      ensures this.kind == kind && this.columns == columns && refs == map[]
    {
      this.kind, this.columns, refs := kind, columns, map[];
    }
  }

  datatype Link = NoLink | LinkOne(one: Entity) | LinkMany(many: seq<Entity>) | LinkNamed(named: map<string, Entity>)

  type Objs = map<string, Entity>

  // ----- what an import does -----

  // The dump can be read with this schema.
  predicate DataFits(schema: Schema, d: Data) {
    && d.kind in schema
    && forall n :: n in d.columns && n in schema[d.kind].columns ==> Readable(schema[d.kind].columns[n], d.columns[n])
  }

  predicate DumpFits(schema: Schema, dump: Dump) {
    forall id :: id in dump && !Underscored(id) ==> dump[id].Object_? && DataFits(schema, dump[id].data)
  }

  function Decoded(schema: Schema, d: Data, horizon: real): map<string, Value>
    requires DataFits(schema, d)
  {
    map n | n in schema[d.kind].columns.Keys && n in d.columns :: Decode(schema[d.kind].columns[n], d.columns[n], horizon)
  }

  // References to objects that are not there are dropped.
  function Present(ids: seq<string>, objs: Objs): seq<Entity> {
    if ids == [] then []
    else
      var n := |ids| - 1;
      Present(ids[..n], objs) + if ids[n] in objs then [objs[ids[n]]] else []
  }

  function Resolve(j: IdRef, objs: Objs): Link {
    match j
    case NoId => NoLink
    case OneId(id) => if id in objs then LinkOne(objs[id]) else NoLink
    case ManyIds(ids) => LinkMany(Present(ids, objs))
    case NamedIds(m) => LinkNamed(map n | n in m && m[n] in objs :: objs[m[n]])
  }

  function Linked(schema: Schema, d: Data, objs: Objs): map<string, Link>
    requires d.kind in schema
  {
    map n | n in schema[d.kind].relationships.Keys && n in d.refs :: Resolve(d.refs[n], objs)
  }

  predicate Imported(schema: Schema, dump: Dump, horizon: real, id: string, e: Entity) {
    id in dump && !Underscored(id) && dump[id].Object_? && DataFits(schema, dump[id].data)
    && e.kind == dump[id].data.kind && e.columns == Decoded(schema, dump[id].data, horizon)
  }

  ghost predicate AllImported(schema: Schema, dump: Dump, horizon: real, objs: Objs) {
    && (forall id :: id in objs ==> Imported(schema, dump, horizon, id, objs[id]))
    && (forall a, b :: a in objs && b in objs && objs[a] == objs[b] ==> a == b)
  }

  ghost predicate AllLinked(schema: Schema, dump: Dump, objs: Objs, done: set<string>)
    reads objs.Values
  {
    forall id :: id in done ==> id in objs && IsLinked(schema, dump, objs, id)
  }

  ghost predicate IsLinked(schema: Schema, dump: Dump, objs: Objs, id: string)
    requires id in objs
    reads objs[id]
  {
    IsObject(dump, id) && dump[id].data.kind in schema && objs[id].refs == Linked(schema, dump[id].data, objs)
  }

  method ImportObject(schema: Schema, d: Data, horizon: real) returns (e: Entity)
    requires DataFits(schema, d)
    ensures fresh(e) && e.kind == d.kind && e.columns == Decoded(schema, d, horizon)
  {
    var args := Decoded(schema, d, horizon);
    e := new Entity(d.kind, args);
  }

  // The first pass.
  method ImportObjects(schema: Schema, dump: Dump, horizon: real) returns (objs: Objs)
    requires DumpFits(schema, dump)
    ensures AllImported(schema, dump, horizon, objs) && fresh(objs.Values)
    ensures forall id :: id in objs <==> id in dump && !Underscored(id)
  {
    objs := map[];
    var todo := dump.Keys;
    ghost var done: set<string> := {};
    while todo != {}
      invariant Parted(dump.Keys, todo, done)
      invariant AllImported(schema, dump, horizon, objs) && fresh(objs.Values)
      invariant forall id :: id in objs <==> id in done && !Underscored(id)
      decreases |todo|
    {
      var id :| id in todo;
      PartOne(dump.Keys, todo, done, id);
      if !Underscored(id) {
        var e := ImportObject(schema, dump[id].data, horizon);
        ImportedOne(schema, dump, horizon, objs, id, e);
        objs := objs[id := e];
      }
      todo, done := todo - {id}, done + {id};
    }
    PartAll(dump.Keys, todo, done);
  }

  lemma ImportedOne(schema: Schema, dump: Dump, horizon: real, objs: Objs, id: string, e: Entity)
    requires AllImported(schema, dump, horizon, objs) && Imported(schema, dump, horizon, id, e)
    requires id !in objs && e !in objs.Values
    ensures AllImported(schema, dump, horizon, objs[id := e]) && objs[id := e].Values == objs.Values + {e}
  {
    var more := objs[id := e];
    forall a | a in objs ensures objs[a] != e && more[a] == objs[a] {
      assert objs[a] in objs.Values;
    }
    assert more[id] in more.Values;
    forall x | x in objs.Values ensures x in more.Values {
      var a :| a in objs && objs[a] == x;
      assert more[a] == x;
    }
  }

  // Objects of these classes are left out.
  function Dropped(objs: Objs, drop: set<string>): Objs {
    map id | id in objs && objs[id].kind !in drop :: objs[id]
  }

  lemma DroppedImported(schema: Schema, dump: Dump, horizon: real, objs: Objs, drop: set<string>)
    requires AllImported(schema, dump, horizon, objs)
    ensures AllImported(schema, dump, horizon, Dropped(objs, drop)) && Dropped(objs, drop).Values <= objs.Values
  {
  }

  method AddRelationships(schema: Schema, dump: Dump, objs: Objs, horizon: real, id: string, ghost done: set<string>)
    requires AllImported(schema, dump, horizon, objs) && id in objs && done <= objs.Keys && id !in done
    requires AllLinked(schema, dump, objs, done)
    modifies objs[id]
    ensures AllLinked(schema, dump, objs, done + {id})
  {
    objs[id].refs := Linked(schema, dump[id].data, objs);
  }

  // The second pass.
  method LinkObjects(schema: Schema, dump: Dump, objs: Objs, horizon: real)
    requires AllImported(schema, dump, horizon, objs)
    modifies objs.Values
    ensures AllLinked(schema, dump, objs, objs.Keys)
  {
    var todo := objs.Keys;
    ghost var done: set<string> := {};
    while todo != {}
      invariant Parted(objs.Keys, todo, done)
      invariant AllLinked(schema, dump, objs, done)
      decreases |todo|
    {
      var id :| id in todo;
      PartOne(objs.Keys, todo, done, id);
      assert objs[id] in objs.Values;
      AddRelationships(schema, dump, objs, horizon, id, done);
      todo, done := todo - {id}, done + {id};
    }
    PartAll(objs.Keys, todo, done);
  }

  method DoImport(schema: Schema, dump: Dump, horizon: real, drop: set<string>) returns (objs: Objs)
    requires DumpFits(schema, dump)
    ensures AllImported(schema, dump, horizon, objs) && fresh(objs.Values)
    ensures forall id :: id in objs <==> id in dump && !Underscored(id) && dump[id].data.kind !in drop
    ensures forall id :: id in objs <==> id in dump && (id == "" || id[0] != '_') && dump[id].data.kind !in drop
    ensures AllLinked(schema, dump, objs, objs.Keys)
  {
    var all := ImportObjects(schema, dump, horizon);
    DroppedImported(schema, dump, horizon, all, drop);
    objs := Dropped(all, drop);
    LinkObjects(schema, dump, objs, horizon);
  }
}
