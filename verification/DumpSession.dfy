// What the database session persists of an import: the top-level objects are
// added one by one, and with them what their relationships lead to
// (src/cmscontrib/DumpImporter.py:295-317).
module DumpSession {
  import opened DumpGraph
  import opened DumpExport
  import opened DumpImport
  import opened DumpRoundTrip

  // The objects that a link holds.
  function Held(l: Link): set<Entity> {
    match l
    case NoLink => {}
    case LinkOne(e) => {e}
    case LinkMany(es) => set e | e in es
    case LinkNamed(m) => m.Values
  }

  function Onward(e: Entity): set<Entity>
    reads e
  {
    set n, x | n in e.refs && x in Held(e.refs[n]) :: x
  }

  // Nothing in the set leads out of it.
  ghost predicate Sealed(s: set<Entity>)
    reads s
  {
    forall e :: e in s ==> Onward(e) <= s
  }

  // The set is what can be reached from these objects.
  ghost predicate Cascaded(all: set<Entity>, roots: set<Entity>, s: set<Entity>)
    requires s <= all
    reads all
  {
    && roots <= s && Sealed(s)
    && forall t :: t <= all && roots <= t && Sealed(t) ==> s <= t
  }

  // ----- adding to the session -----

  // In the middle of a cascade: what has been added leads to what has been added
  // or is still to do, and all of it lies in every sealed set with the roots.
  ghost predicate Spreading(all: set<Entity>, roots: set<Entity>, s: set<Entity>, todo: set<Entity>)
    requires s <= all
    reads all
  {
    && roots <= s + todo <= all
    && (forall e :: e in s ==> Onward(e) <= s + todo)
    && (forall t :: t <= all && roots <= t && Sealed(t) ==> s + todo <= t)
  }

  lemma SpreadOne(all: set<Entity>, roots: set<Entity>, s: set<Entity>, todo: set<Entity>, e: Entity)
    requires Sealed(all) && s <= all && Spreading(all, roots, s, todo) && e in todo
    ensures Spreading(all, roots, s + {e}, todo + Onward(e) - (s + {e}))
  {
    var more := todo + Onward(e) - (s + {e});
    assert s + {e} + more == s + todo + Onward(e);
    forall t | t <= all && roots <= t && Sealed(t) ensures s + {e} + more <= t {
      assert e in t;
    }
  }

  // What session.add does: the object and everything it leads to.
  method Add(e: Entity, ghost all: set<Entity>, ghost roots: set<Entity>, session: set<Entity>) returns (more: set<Entity>)
    requires Sealed(all) && session <= all && e in all && Cascaded(all, roots, session)
    ensures more <= all && Cascaded(all, roots + {e}, more)
  {
    more := session;
    var todo := {e} - session;
    AddRoot(all, roots, session, e);
    while todo != {}
      invariant more <= all && Spreading(all, roots + {e}, more, todo) && more !! todo
      decreases |all - more|
    {
      var x :| x in todo;
      SpreadStep(all, roots + {e}, more, todo, x);
      more := more + {x};
      todo := todo + Onward(x) - more;
    }
    SpreadEnd(all, roots + {e}, more);
  }

  lemma SpreadStep(all: set<Entity>, roots: set<Entity>, s: set<Entity>, todo: set<Entity>, x: Entity)
    requires Sealed(all) && s <= all && Spreading(all, roots, s, todo) && s !! todo && x in todo
    ensures var more, left := s + {x}, todo + Onward(x) - (s + {x});
            more <= all && Spreading(all, roots, more, left) && more !! left && |all - more| < |all - s|
  {
    SpreadOne(all, roots, s, todo, x);
    Fewer(all, s, x);
  }

  lemma SpreadEnd(all: set<Entity>, roots: set<Entity>, s: set<Entity>)
    requires s <= all && Spreading(all, roots, s, {})
    ensures Cascaded(all, roots, s)
  {
    assert s + {} == s;
  }

  lemma Fewer(all: set<Entity>, s: set<Entity>, x: Entity)
    requires x in all && x !in s
    ensures |all - (s + {x})| < |all - s|
  {
    assert all - (s + {x}) < all - s;
    SmallerSet(all - (s + {x}), all - s);
  }

  lemma SmallerSet(a: set<Entity>, b: set<Entity>)
    requires a < b
    ensures |a| < |b|
  {
    assert b == a + (b - a);
  }

  lemma AddRoot(all: set<Entity>, roots: set<Entity>, s: set<Entity>, e: Entity)
    requires s <= all && e in all && Cascaded(all, roots, s)
    ensures Spreading(all, roots + {e}, s, {e} - s)
  {
    forall t | t <= all && roots + {e} <= t && Sealed(t) ensures s + ({e} - s) <= t {
    }
  }

  // The top-level objects that have not been left out.
  function Roots(list: seq<string>, objs: Objs): set<Entity> {
    set id | id in list && id in objs :: objs[id]
  }

  method AddToSession(list: seq<string>, objs: Objs) returns (session: set<Entity>)
    requires Sealed(objs.Values)
    ensures session <= objs.Values && Cascaded(objs.Values, Roots(list, objs), session)
  {
    session := {};
    var i := 0;
    assert Roots(list[..0], objs) == {};
    while i < |list|
      invariant 0 <= i <= |list| && session <= objs.Values
      invariant Cascaded(objs.Values, Roots(list[..i], objs), session)
    {
      RootsMore(list, i, objs);
      if list[i] in objs {
        session := Add(objs[list[i]], objs.Values, Roots(list[..i], objs), session);
      }
      i := i + 1;
    }
    assert list[..i] == list;
  }

  lemma RootsMore(list: seq<string>, i: nat, objs: Objs)
    requires i < |list|
    ensures Roots(list[..i + 1], objs) == Roots(list[..i], objs) + if list[i] in objs then {objs[list[i]]} else {}
  {
    assert list[..i + 1] == list[..i] + [list[i]];
  }

  // ----- the same on the keys of the exported database -----

  // Nothing in the set leads out of it to an object that is kept.
  predicate ClosedAmong(schema: Schema, skip: set<string>, db: Db, kept: set<Key>, s: set<Key>) {
    forall k :: k in s ==> k in db && Neighbours(schema, skip, db[k]) * kept <= s
  }

  // The set is what can be reached from the roots by way of kept objects only.
  ghost predicate ReachableAmong(schema: Schema, skip: set<string>, db: Db, roots: set<Key>, kept: set<Key>, s: set<Key>) {
    && roots * kept <= s <= kept && ClosedAmong(schema, skip, db, kept, s)
    && forall t: set<Key> :: roots * kept <= t && ClosedAmong(schema, skip, db, kept, t) ==> s <= t
  }

  function CopiesIn(copies: Copies, s: set<Key>): set<Entity> {
    set k | k in s && k in copies :: copies[k]
  }

  lemma {:induction false} CopyOfMany(ks: seq<Key>, copies: Copies, e: Entity)
    ensures e in CopiesOf(ks, copies) <==> exists k :: k in ks && k in copies && copies[k] == e
  {
    if ks != [] {
      var n := |ks| - 1;
      CopyOfMany(ks[..n], copies, e);
      assert ks == ks[..n] + [ks[n]];
    }
  }

  lemma ManyHeld(ks: seq<Key>, copies: Copies)
    ensures (set e | e in CopiesOf(ks, copies)) == CopiesIn(copies, set k | k in ks)
  {
    forall e | e in CopiesOf(ks, copies) ensures e in CopiesIn(copies, set k | k in ks) {
      CopyOfMany(ks, copies, e);
    }
    forall e | e in CopiesIn(copies, set k | k in ks) ensures e in CopiesOf(ks, copies) {
      CopyOfMany(ks, copies, e);
    }
  }

  lemma NamedHeld(m: map<string, Key>, copies: Copies)
    ensures (map n | n in m && m[n] in copies :: copies[m[n]]).Values == CopiesIn(copies, m.Values)
  {
    var l := map n | n in m && m[n] in copies :: copies[m[n]];
    forall e | e in CopiesIn(copies, m.Values) ensures e in l.Values {
      var k :| k in m.Values && k in copies && copies[k] == e;
      var n :| n in m && m[n] == k;
      assert l[n] == e;
    }
  }

  lemma RefHeld(r: Ref, copies: Copies)
    ensures Held(CopyOf(r, copies)) == CopiesIn(copies, KeysOf(r))
  {
    match r {
      case NoRef =>
      case One(k) =>
      case Many(ks) => ManyHeld(ks, copies);
      case Named(m) => NamedHeld(m, copies);
    }
  }

  // The copy of an object leads to the copies of its neighbours.
  lemma OnwardIsCopies(schema: Schema, skip: set<string>, db: Db, horizon: real, copies: Copies, k: Key)
    requires Fits(schema, db) && IsCopy(schema, skip, db, horizon, copies) && k in copies && k in db
    ensures Onward(copies[k]) == CopiesIn(copies, Neighbours(schema, skip, db[k]))
  {
    var e, o := copies[k], db[k];
    assert CopiedObject(schema, skip, db, o, horizon, copies, e);
    forall x | x in Onward(e) ensures x in CopiesIn(copies, Neighbours(schema, skip, o)) {
      var n :| n in e.refs && x in Held(e.refs[n]);
      RefHeld(o.refs[n], copies);
    }
    forall x | x in CopiesIn(copies, Neighbours(schema, skip, o)) ensures x in Onward(e) {
      var j :| j in Neighbours(schema, skip, o) && j in copies && copies[j] == x;
      var n :| n in o.refs && Kept(schema, skip, o, n) && j in KeysOf(o.refs[n]);
      RefHeld(o.refs[n], copies);
      assert x in Held(e.refs[n]);
    }
  }

  lemma CopiesSealed(schema: Schema, skip: set<string>, db: Db, horizon: real, copies: Copies)
    requires Fits(schema, db) && IsCopy(schema, skip, db, horizon, copies)
    ensures Sealed(copies.Values)
  {
    forall e | e in copies.Values ensures Onward(e) <= copies.Values {
      var k :| k in copies && copies[k] == e;
      OnwardIsCopies(schema, skip, db, horizon, copies, k);
    }
  }

  // The keys whose copies are in the session.
  function SessionKeys(copies: Copies, session: set<Entity>): set<Key> {
    set k | k in copies && copies[k] in session
  }

  lemma SessionCopies(copies: Copies, session: set<Entity>)
    requires session <= copies.Values
    ensures CopiesIn(copies, SessionKeys(copies, session)) == session
  {
    forall e | e in session ensures e in CopiesIn(copies, SessionKeys(copies, session)) {
      var k :| k in copies && copies[k] == e;
    }
  }

  lemma SealedKeys(schema: Schema, skip: set<string>, db: Db, horizon: real, copies: Copies, session: set<Entity>)
    requires Fits(schema, db) && IsCopy(schema, skip, db, horizon, copies) && session <= copies.Values && Sealed(session)
    ensures ClosedAmong(schema, skip, db, copies.Keys, SessionKeys(copies, session))
  {
    forall k | k in SessionKeys(copies, session)
      ensures k in db && Neighbours(schema, skip, db[k]) * copies.Keys <= SessionKeys(copies, session)
    {
      OnwardIsCopies(schema, skip, db, horizon, copies, k);
      forall j | j in Neighbours(schema, skip, db[k]) * copies.Keys ensures copies[j] in session {
        assert copies[j] in Onward(copies[k]);
      }
    }
  }

  lemma KeysSealed(schema: Schema, skip: set<string>, db: Db, horizon: real, copies: Copies, t: set<Key>)
    requires Fits(schema, db) && IsCopy(schema, skip, db, horizon, copies) && ClosedAmong(schema, skip, db, copies.Keys, t)
    ensures Sealed(CopiesIn(copies, t)) && CopiesIn(copies, t) <= copies.Values
  {
    forall e | e in CopiesIn(copies, t) ensures Onward(e) <= CopiesIn(copies, t) {
      var k :| k in t && k in copies && copies[k] == e;
      OnwardIsCopies(schema, skip, db, horizon, copies, k);
    }
  }

  // The session holds the copies of exactly the kept objects that can be reached
  // from the kept roots by way of kept objects.
  lemma SessionIsReachable(schema: Schema, skip: set<string>, db: Db, horizon: real, copies: Copies, roots: set<Key>, session: set<Entity>)
    requires Fits(schema, db) && IsCopy(schema, skip, db, horizon, copies) && session <= copies.Values
    requires Cascaded(copies.Values, CopiesIn(copies, roots), session)
    ensures ReachableAmong(schema, skip, db, roots, copies.Keys, SessionKeys(copies, session))
    ensures session == CopiesIn(copies, SessionKeys(copies, session))
  {
    var s := SessionKeys(copies, session);
    SessionCopies(copies, session);
    SealedKeys(schema, skip, db, horizon, copies, session);
    forall k | k in roots * copies.Keys ensures k in s {
      assert copies[k] in CopiesIn(copies, roots);
    }
    forall t: set<Key> | roots * copies.Keys <= t && ClosedAmong(schema, skip, db, copies.Keys, t) ensures s <= t {
      KeysSealed(schema, skip, db, horizon, copies, t);
      assert CopiesIn(copies, roots) <= CopiesIn(copies, t);
      InjectiveKeys(schema, skip, db, horizon, copies, session, t);
    }
  }

  lemma InjectiveKeys(schema: Schema, skip: set<string>, db: Db, horizon: real, copies: Copies, session: set<Entity>, t: set<Key>)
    requires Fits(schema, db) && IsCopy(schema, skip, db, horizon, copies) && session <= CopiesIn(copies, t)
    ensures SessionKeys(copies, session) <= t
  {
    forall k | k in SessionKeys(copies, session) ensures k in t {
      var j :| j in t && j in copies && copies[j] == copies[k];
    }
  }

  // When no class is left out, that is everything.
  lemma AllReachable(schema: Schema, skip: set<string>, db: Db, roots: set<Key>, kept: set<Key>, s: set<Key>)
    requires Reachable(schema, skip, db, roots, kept) && ReachableAmong(schema, skip, db, roots, kept, s)
    ensures s == kept
  {
    forall k | k in s ensures Neighbours(schema, skip, db[k]) <= s {
      assert Neighbours(schema, skip, db[k]) <= kept;
    }
    assert Closed(schema, skip, db, s);
  }

  lemma RootCopies(list: seq<string>, roots: set<Key>, ids: Ids, objs: Objs)
    requires RootsListed(list, roots, ids)
    ensures Roots(list, objs) == CopiesIn(Standing(ids, objs), roots)
  {
    var copies := Standing(ids, objs);
    forall e | e in Roots(list, objs) ensures e in CopiesIn(copies, roots) {
      var id :| id in list && id in objs && objs[id] == e;
      var k :| k in roots && k in ids && ids[k] == id;
      assert copies[k] == e;
    }
    forall e | e in CopiesIn(copies, roots) ensures e in Roots(list, objs) {
      var k :| k in roots && k in copies && copies[k] == e;
      assert ids[k] in list;
    }
  }

  // ----- export, import and session together -----

  // Of what can be reached from the roots the import has copies of what is not of
  // a class left out, and the session holds what can be reached from the roots
  // among these.
  ghost predicate ComesBack(schema: Schema, skip: set<string>, db: Db, horizon: real, roots: set<Key>, drop: set<string>,
                            s: set<Key>, p: set<Key>, ids: Ids, objs: Objs, session: set<Entity>)
    requires Fits(schema, db)
    reads objs.Values
  {
    && s <= db.Keys && Reachable(schema, skip, db, roots, s)
    && CopiesExactly(schema, skip, db, horizon, Imports(db, s, drop), ids, objs)
    && ReachableAmong(schema, skip, db, roots, Imports(db, s, drop), p)
    && session == CopiesIn(Standing(ids, objs), p)
  }

  method ExportAndImport(schema: Schema, db: Db, roots: seq<Key>, skip: set<string>, drop: set<string>, version: nat, horizon: real)
      returns (objs: Objs, session: set<Entity>)
    requires Fits(schema, db) && forall k :: k in roots ==> k in db
    ensures fresh(objs.Values) && session <= objs.Values
    ensures exists s, p, ids :: ComesBack(schema, skip, db, horizon, KeySet(roots), drop, s, p, ids, objs, session)
  {
    var exporter := new Exporter(schema, skip, db);
    exporter.DoExport(roots, version);
    ghost var ids := exporter.ids;
    DumpReadable(schema, skip, db, KeySet(roots), ids, exporter.data);
    objs := DoImport(schema, exporter.data, horizon, drop);
    ImportIsCopy(schema, skip, db, KeySet(roots), ids, exporter.data, horizon, objs);
    AllStand(schema, skip, db, KeySet(roots), ids, exporter.data, drop, objs);
    session := AddCopies(schema, skip, db, horizon, roots, exporter.data["_objects"].ids, ids, objs);
    ghost var p := SessionKeys(Standing(ids, objs), session);
    assert ComesBack(schema, skip, db, horizon, KeySet(roots), drop, ids.Keys, p, ids, objs, session);
  }

  method AddCopies(ghost schema: Schema, ghost skip: set<string>, ghost db: Db, ghost horizon: real, ghost roots: seq<Key>,
                   list: seq<string>, ghost ids: Ids, objs: Objs) returns (session: set<Entity>)
    requires Fits(schema, db) && IsCopy(schema, skip, db, horizon, Standing(ids, objs)) && Standing(ids, objs).Values == objs.Values
    requires RootsListed(list, KeySet(roots), ids)
    ensures session <= objs.Values
    ensures var copies := Standing(ids, objs);
            && ReachableAmong(schema, skip, db, KeySet(roots), copies.Keys, SessionKeys(copies, session))
            && session == CopiesIn(copies, SessionKeys(copies, session))
  {
    CopiesSealed(schema, skip, db, horizon, Standing(ids, objs));
    session := AddToSession(list, objs);
    RootCopies(list, KeySet(roots), ids, objs);
    SessionIsReachable(schema, skip, db, horizon, Standing(ids, objs), KeySet(roots), session);
  }
}
