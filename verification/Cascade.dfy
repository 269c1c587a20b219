// The cascade of Store.delete, one dragged entity at a time: the steps of its
// loop, on values.
module Cascade {
  import opened Entities

  // The callbacks a store fires.
  datatype Fired =
    | Created(ref: Ref, item: Entity)
    | Updated(ref: Ref, was: Entity, item: Entity)
    | Deleted(ref: Ref, was: Entity)

  ghost function Survivors(rows: Rows, root: Ref): Rows {
    map r | r in rows && !Doomed(rows, root, r) :: rows[r]
  }

  predicate Resolves(rows: Rows, e: Entity, besides: Ref, allowed: bool) {
    forall q :: q in Refs(e) ==> q in rows || (q == besides && allowed)
  }

  // Entities of a rank below n refer to stored entities.
  predicate LowerClosed(rows: Rows, n: nat) {
    forall x :: x in rows && Rank(x.kind) < n ==> Consistent(rows, rows[x])
  }

  // The same in the middle of the loop: those still to do may refer to root.
  predicate LowerClosedBut(rows: Rows, root: Ref, todo: set<Ref>) {
    forall x :: x in rows && Rank(x.kind) < Rank(root.kind) ==> Resolves(rows, rows[x], root, x in todo)
  }

  // Gone so far: root, and what goes down with a referrer that is done.
  ghost predicate Down(rows: Rows, root: Ref, todo: set<Ref>, r: Ref) {
    r == root || DownVia(rows, root, todo, r)
  }

  ghost predicate DownVia(rows: Rows, root: Ref, todo: set<Ref>, r: Ref) {
    exists o :: o in rows && root in Refs(rows[o]) && o !in todo && Doomed(rows, o, r)
  }

  ghost function Left(rows: Rows, root: Ref, todo: set<Ref>): Rows {
    map r | r in rows && !Down(rows, root, todo, r) :: rows[r]
  }

  function Dependents(rows: Rows, kind: Kind): set<Ref> {
    set r | r in rows && r.kind in Depends(kind)
  }

  lemma NoneDown(rows: Rows, root: Ref)
    requires Typed(rows) && root in rows
    ensures Left(rows, root, Dependents(rows, root.kind)) == rows - {root}
    ensures Dependents(rows, root.kind) <= (rows - {root}).Keys
  {
    forall o | o in rows && root in Refs(rows[o]) ensures o in Dependents(rows, root.kind) {
      WiringComplete(rows[o], root);
    }
    assert root !in Dependents(rows, root.kind);
  }

  lemma AllDown(rows: Rows, root: Ref)
    requires Typed(rows)
    ensures Left(rows, root, {}) == Survivors(rows, root)
  {
    forall r | r in rows && r != root ensures Down(rows, root, {}, r) <==> Doomed(rows, root, r) {
      DoomedThrough(rows, root, r);
      if DoomedVia(rows, root, r) {
        var o :| o in rows && root in Refs(rows[o]) && Doomed(rows, o, r);
        assert DownVia(rows, root, {}, r);
      }
    }
  }

  // A dependent that does not refer to root is left alone.
  lemma SkipDependent(rows: Rows, root: Ref, todo: set<Ref>, o: Ref)
    requires o in rows && root !in Refs(rows[o])
    ensures Left(rows, root, todo - {o}) == Left(rows, root, todo)
  {
    forall r ensures DownVia(rows, root, todo - {o}, r) <==> DownVia(rows, root, todo, r) {
      if DownVia(rows, root, todo - {o}, r) {
        var x :| x in rows && root in Refs(rows[x]) && x !in todo - {o} && Doomed(rows, x, r);
        assert x !in todo;
      }
      if DownVia(rows, root, todo, r) {
        var x :| x in rows && root in Refs(rows[x]) && x !in todo && Doomed(rows, x, r);
        assert x !in todo - {o};
      }
    }
  }

  lemma DownMore(rows: Rows, root: Ref, todo: set<Ref>, o: Ref, r: Ref)
    requires o in rows && root in Refs(rows[o])
    ensures DownVia(rows, root, todo - {o}, r) <==> DownVia(rows, root, todo, r) || Doomed(rows, o, r)
  {
    if DownVia(rows, root, todo - {o}, r) {
      var x :| x in rows && root in Refs(rows[x]) && x !in todo - {o} && Doomed(rows, x, r);
      assert x == o || x !in todo;
    }
    if Doomed(rows, o, r) {
      assert o !in todo - {o};
    }
    if DownVia(rows, root, todo, r) {
      var x :| x in rows && root in Refs(rows[x]) && x !in todo && Doomed(rows, x, r);
      assert x !in todo - {o};
    }
  }

  // A dependent that refers to root takes its own cascade along.
  lemma DragDependent(rows: Rows, root: Ref, todo: set<Ref>, o: Ref, now: Rows)
    requires Typed(rows) && now == Left(rows, root, todo)
    requires o in now && root in Refs(rows[o]) && LowerClosed(now, Rank(o.kind))
    ensures Survivors(now, o) == Left(rows, root, todo - {o})
  {
    forall r ensures r in Survivors(now, o) <==> r in Left(rows, root, todo - {o}) {
      DownMore(rows, root, todo, o, r);
      if r in now {
        DoomedAmongRest(rows, now, o, r);
      }
    }
  }

  lemma SurvivorsResolve(rows: Rows, o: Ref, x: Ref, q: Ref)
    requires Typed(rows) && x in Survivors(rows, o) && q in Refs(rows[x]) && q in rows
    ensures q in Survivors(rows, o)
  {
    WiringComplete(rows[x], q);
  }

  lemma DragKeepsClosed(now: Rows, root: Ref, todo: set<Ref>, o: Ref)
    requires Typed(now) && LowerClosedBut(now, root, todo) && o in now
    ensures LowerClosedBut(Survivors(now, o), root, todo - {o})
  {
    var rest := Survivors(now, o);
    forall x | x in rest && Rank(x.kind) < Rank(root.kind) ensures Resolves(rest, rest[x], root, x in todo - {o}) {
      forall q | q in Refs(rest[x]) ensures q in rest || (q == root && x in todo - {o}) {
        if q in now {
          SurvivorsResolve(now, o, x, q);
        } else {
          assert Doomed(now, o, o);
        }
      }
    }
  }

  // Those still to do survive the cascade of another entity of their rank.
  lemma TodoSurvives(now: Rows, todo: set<Ref>, o: Ref)
    requires o in todo && todo <= now.Keys && forall x :: x in todo ==> Rank(x.kind) == Rank(o.kind)
    ensures todo - {o} <= Survivors(now, o).Keys
  {
    forall x | x in todo - {o} ensures !Doomed(now, o, x) {
      if Doomed(now, o, x) {
        DoomedRank(now, o, x);
      }
    }
  }

  lemma SameRank(kind: Kind, a: Ref, b: Ref)
    requires a.kind in Depends(kind) && b.kind in Depends(kind)
    ensures Rank(a.kind) == Rank(b.kind) < Rank(kind)
  {
  }

  lemma FinallyClosed(rows: Rows, root: Ref)
    requires LowerClosedBut(rows, root, {})
    ensures LowerClosed(rows, Rank(root.kind))
  {
    forall x | x in rows && Rank(x.kind) < Rank(root.kind) ensures Consistent(rows, rows[x]) {
      assert Resolves(rows, rows[x], root, false);
    }
  }

  lemma StartClosed(rows: Rows, root: Ref)
    requires Typed(rows) && root in rows && LowerClosed(rows, Rank(root.kind))
    ensures LowerClosedBut(rows - {root}, root, Dependents(rows, root.kind))
  {
    var rest := rows - {root};
    forall x | x in rest && Rank(x.kind) < Rank(root.kind)
      ensures Resolves(rest, rest[x], root, x in Dependents(rows, root.kind))
    {
      assert Consistent(rows, rows[x]);
      if root in Refs(rows[x]) {
        WiringComplete(rows[x], root);
      }
    }
  }

  // ----- the delete callbacks -----

  // They are fired for exactly these entities, once each, and for no entity
  // before one that refers to it.
  ghost predicate Logged(rows: Rows, gone: set<Ref>, ds: seq<Fired>) {
    && (forall i :: 0 <= i < |ds| ==> ds[i].Deleted? && ds[i].ref in gone && ds[i].ref in rows && ds[i].was == rows[ds[i].ref])
    && (forall r :: r in gone ==> exists i :: 0 <= i < |ds| && ds[i].ref == r)
    && (forall i, j :: 0 <= i < j < |ds| ==> ds[i].ref != ds[j].ref && ds[i].ref !in Refs(ds[j].was))
  }

  lemma LoggedConcat(rows: Rows, now: Rows, g: set<Ref>, ds: seq<Fired>, h: set<Ref>, es: seq<Fired>)
    requires Logged(rows, g, ds) && Logged(now, h, es)
    requires forall x :: x in now ==> x in rows && rows[x] == now[x]
    requires g !! now.Keys
    requires forall x, q :: x in h && x in now && q in Refs(now[x]) ==> q !in g
    ensures Logged(rows, g + h, ds + es)
  {
    var all := ds + es;
    forall r | r in g + h ensures exists i :: 0 <= i < |all| && all[i].ref == r {
      if r in g {
        var i :| 0 <= i < |ds| && ds[i].ref == r;
        assert all[i].ref == r;
      } else {
        var i :| 0 <= i < |es| && es[i].ref == r;
        assert all[|ds| + i].ref == r;
      }
    }
  }

  // Below the dependents everything resolves, also in the middle of the loop.
  lemma ClosedBelow(rows: Rows, root: Ref, todo: set<Ref>, o: Ref)
    requires LowerClosedBut(rows, root, todo) && o in todo
    requires forall x :: x in todo ==> x.kind in Depends(root.kind)
    ensures LowerClosed(rows, Rank(o.kind))
  {
    forall x | x in rows && Rank(x.kind) < Rank(o.kind) ensures Consistent(rows, rows[x]) {
      SameRank(root.kind, o, o);
      assert Resolves(rows, rows[x], root, x in todo);
      if x in todo {
        SameRank(root.kind, x, o);
      }
    }
  }

  ghost function Gone(rows: Rows, root: Ref): set<Ref> {
    set r | r in rows && Doomed(rows, root, r)
  }

  lemma SurvivorsKeys(rows: Rows, root: Ref)
    ensures Survivors(rows, root).Keys == rows.Keys - Gone(rows, root)
  {
  }

  // In the middle of the loop nothing that is left refers to what is gone.
  lemma NothingRefersToGone(rows: Rows, now: Rows, root: Ref, todo: set<Ref>, x: Ref, q: Ref)
    requires Typed(now) && LowerClosedBut(now, root, todo)
    requires x in now && Rank(x.kind) < Rank(root.kind) && q in Refs(now[x])
    ensures q !in rows.Keys - now.Keys - {root}
  {
    assert Resolves(now, now[x], root, x in todo);
  }

  // One more dependent done: its callbacks are appended.
  lemma DragLogged(rows: Rows, now: Rows, root: Ref, todo: set<Ref>, o: Ref, ds: seq<Fired>, es: seq<Fired>)
    requires Typed(rows) && Typed(now) && LowerClosedBut(now, root, todo)
    requires forall x :: x in now ==> x in rows && rows[x] == now[x]
    requires o in now && Rank(o.kind) < Rank(root.kind) && root !in now
    requires Logged(rows, rows.Keys - now.Keys - {root}, ds) && Logged(now, Gone(now, o), es)
    ensures Logged(rows, rows.Keys - Survivors(now, o).Keys - {root}, ds + es)
  {
    var g, h := rows.Keys - now.Keys - {root}, Gone(now, o);
    forall x, q | x in h && x in now && q in Refs(now[x]) ensures q !in g {
      if x != o {
        DoomedRank(now, o, x);
      }
      NothingRefersToGone(rows, now, root, todo, x, q);
    }
    LoggedConcat(rows, now, g, ds, h, es);
    SurvivorsKeys(now, o);
    assert g + h == rows.Keys - Survivors(now, o).Keys - {root};
  }

  // The callbacks for root come last.
  lemma RootLogged(rows: Rows, root: Ref, ds: seq<Fired>)
    requires Typed(rows) && root in rows
    requires Logged(rows, rows.Keys - Survivors(rows, root).Keys - {root}, ds)
    ensures Logged(rows, Gone(rows, root), ds + [Deleted(root, rows[root])])
  {
    var g := rows.Keys - Survivors(rows, root).Keys - {root};
    SurvivorsKeys(rows, root);
    var e := [Deleted(root, rows[root])];
    var all := ds + e;
    assert all[|ds|].ref == root;
    forall i | 0 <= i < |ds| ensures ds[i].ref != root && ds[i].ref !in Refs(rows[root]) {
      assert ds[i].ref in g;
      DoomedRank(rows, root, ds[i].ref);
      if ds[i].ref in Refs(rows[root]) {
        WiringComplete(rows[root], ds[i].ref);
      }
    }
    forall r | r in Gone(rows, root) ensures exists i :: 0 <= i < |all| && all[i].ref == r {
      if r != root {
        assert r in g;
        var i :| 0 <= i < |ds| && ds[i].ref == r;
        assert all[i].ref == r;
      }
    }
  }

  // Who survives, and that no survivor names what is gone, on the fields of the
  // entities.
  lemma SurvivorsOnFields(rows: Rows, root: Ref)
    requires Typed(rows)
    ensures forall r :: r in Survivors(rows, root) <==> r in rows && !Falls(rows, root, r)
    ensures forall r :: r in Survivors(rows, root) ==> !Names(rows[r], root)
  {
    forall r ensures Doomed(rows, root, r) <==> Falls(rows, root, r) {
      DoomedIffFalls(rows, root, r);
    }
    forall r | r in Survivors(rows, root) ensures !Names(rows[r], root) {
      if Names(rows[r], root) {
        NamedFalls(rows, root, r, root);
      }
    }
  }

  // ----- delete_list -----

  lemma WithoutKeysOnFields(rows: Rows, kind: Kind, done: set<string>)
    requires Typed(rows)
    ensures forall r :: r in WithoutKeys(rows, kind, done) <==> r in rows && forall k :: k in done ==> !Falls(rows, Ref(kind, k), r)
  {
    forall k, r ensures Doomed(rows, Ref(kind, k), r) <==> Falls(rows, Ref(kind, k), r) {
      DoomedIffFalls(rows, Ref(kind, k), r);
    }
  }

  // What is left when these entities of a kind have been deleted.
  ghost function WithoutKeys(rows: Rows, kind: Kind, done: set<string>): Rows {
    map r | r in rows && !DownWith(rows, kind, done, r) :: rows[r]
  }

  ghost predicate DownWith(rows: Rows, kind: Kind, done: set<string>, r: Ref) {
    exists k :: k in done && Doomed(rows, Ref(kind, k), r)
  }

  lemma WithoutNoKeys(rows: Rows, kind: Kind)
    ensures WithoutKeys(rows, kind, {}) == rows
  {
  }

  lemma WithoutOneMore(rows: Rows, kind: Kind, done: set<string>, k: string)
    requires Typed(rows) && k !in done && Ref(kind, k) in rows
    requires Closed(WithoutKeys(rows, kind, done))
    ensures Ref(kind, k) in WithoutKeys(rows, kind, done)
    ensures Survivors(WithoutKeys(rows, kind, done), Ref(kind, k)) == WithoutKeys(rows, kind, done + {k})
  {
    var now, o := WithoutKeys(rows, kind, done), Ref(kind, k);
    if DownWith(rows, kind, done, o) {
      var x :| x in done && Doomed(rows, Ref(kind, x), o);
      DoomedRank(rows, Ref(kind, x), o);
    }
    forall x, q | x in now && q in Refs(now[x]) ensures q in now {
      assert Consistent(now, now[x]);
    }
    forall r ensures r in Survivors(now, o) <==> r in WithoutKeys(rows, kind, done + {k}) {
      DownWithMore(rows, kind, done, k, r);
      if r in now {
        DoomedAmongRest(rows, now, o, r);
      }
    }
  }

  lemma DownWithMore(rows: Rows, kind: Kind, done: set<string>, k: string, r: Ref)
    ensures DownWith(rows, kind, done + {k}, r) <==> DownWith(rows, kind, done, r) || Doomed(rows, Ref(kind, k), r)
  {
    if DownWith(rows, kind, done, r) {
      var x :| x in done && Doomed(rows, Ref(kind, x), r);
      assert x in done + {k};
    }
  }

  // The callbacks so far, in the middle of deleting a list.
  ghost predicate Emptied(rows: Rows, kind: Kind, done: set<string>, now: Rows, ds: seq<Fired>) {
    now == WithoutKeys(rows, kind, done) && Logged(rows, rows.Keys - now.Keys, ds)
  }

  lemma EmptiedNone(rows: Rows, kind: Kind)
    ensures Emptied(rows, kind, {}, rows, [])
  {
    WithoutNoKeys(rows, kind);
    assert rows.Keys - rows.Keys == {};
  }

  lemma EmptiedKey(rows: Rows, kind: Kind, done: set<string>, now: Rows, ds: seq<Fired>, k: string)
    requires Typed(rows) && Closed(now) && Emptied(rows, kind, done, now, ds) && k !in done && Ref(kind, k) in rows
    ensures Ref(kind, k) in now
  {
    WithoutOneMore(rows, kind, done, k);
  }

  lemma EmptiedMore(rows: Rows, kind: Kind, done: set<string>, now: Rows, ds: seq<Fired>, k: string, next: Rows, es: seq<Fired>)
    requires Typed(rows) && Closed(now) && Emptied(rows, kind, done, now, ds) && k !in done && Ref(kind, k) in rows
    requires next == Survivors(now, Ref(kind, k)) && Logged(now, Gone(now, Ref(kind, k)), es)
    ensures Emptied(rows, kind, done + {k}, next, ds + es)
  {
    WithoutOneMore(rows, kind, done, k);
    LoggedOn(rows, now, Ref(kind, k), ds, es);
  }

  lemma LoggedOn(rows: Rows, now: Rows, ref: Ref, ds: seq<Fired>, es: seq<Fired>)
    requires Closed(now) && (forall x :: x in now ==> x in rows && rows[x] == now[x]) && ref in now
    requires Logged(rows, rows.Keys - now.Keys, ds) && Logged(now, Gone(now, ref), es)
    ensures Logged(rows, rows.Keys - Survivors(now, ref).Keys, ds + es)
  {
    var g, h := rows.Keys - now.Keys, Gone(now, ref);
    forall x, q | x in h && x in now && q in Refs(now[x]) ensures q !in g {
      assert Consistent(now, now[x]);
    }
    LoggedConcat(rows, now, g, ds, h, es);
    SurvivorsKeys(now, ref);
    assert g + h == rows.Keys - Survivors(now, ref).Keys;
  }
}
