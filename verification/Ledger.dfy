// What the scoring store knows of the stored entities, and how every store
// operation keeps that knowledge up to date, on values.
module Ledgers {
  import opened Basics
  import opened ScoreReplay
  import opened ScoreOps
  import opened ScoreIndex
  import opened ScoreAgreement
  import opened ScoringStores
  import opened Entities
  import opened Cascade

  // ----- the tables the scoring store depends on -----

  function KeysOf(rows: Rows, kind: Kind): set<string> {
    set r | r in rows && r.kind == kind :: r.key
  }

  function SubsIn(rows: Rows): Subs
    requires Typed(rows)
  {
    map k | k in KeysOf(rows, SubmissionKind) :: rows[Ref(SubmissionKind, k)].sub
  }

  function ChsIn(rows: Rows): Chs
    requires Typed(rows)
  {
    map k | k in KeysOf(rows, SubchangeKind) :: rows[Ref(SubchangeKind, k)].change
  }

  function ModesIn(rows: Rows): Modes
    requires Typed(rows)
  {
    map k | k in KeysOf(rows, TaskKind) :: rows[Ref(TaskKind, k)].mode
  }

  lemma KeyIn(rows: Rows, kind: Kind, k: string)
    ensures k in KeysOf(rows, kind) <==> Ref(kind, k) in rows
  {
  }

  lemma TablesReferenced(rows: Rows)
    requires Typed(rows) && Closed(rows)
    ensures WellKeyed(ChsIn(rows)) && Referenced(SubsIn(rows), ChsIn(rows))
    ensures forall k :: k in SubsIn(rows) ==> SubsIn(rows)[k].task in ModesIn(rows)
  {
    forall k | k in ChsIn(rows) ensures ChsIn(rows)[k].key == k && ChsIn(rows)[k].submission in SubsIn(rows) {
      KeyIn(rows, SubchangeKind, k);
      assert Consistent(rows, rows[Ref(SubchangeKind, k)]);
      KeyIn(rows, SubmissionKind, ChsIn(rows)[k].submission);
    }
    forall k | k in SubsIn(rows) ensures SubsIn(rows)[k].task in ModesIn(rows) {
      KeyIn(rows, SubmissionKind, k);
      assert Consistent(rows, rows[Ref(SubmissionKind, k)]);
      KeyIn(rows, TaskKind, SubsIn(rows)[k].task);
    }
  }

  // What the scoring store has been told of: the submissions and changes, the
  // score modes, and the scores its listener started from. While nothing
  // irregular has happened the scores are those of exactly these tables.
  datatype Ledger = Ledger(live: Subs, listed: Chs, modes: Modes, regular: bool, start: Index)

  ghost predicate Balanced(l: Ledger, idx: Index, notices: seq<Notice>) {
    && InSync(idx, l.live)
    && Faithful(notices, l.start, idx)
    && (l.regular ==> Agrees(idx, l.live, l.listed, l.modes) && WellKeyed(l.listed) && Referenced(l.live, l.listed))
  }

  lemma WithoutTables(live: Subs, listed: Chs, key: string)
    requires WellKeyed(listed) && Referenced(live, listed)
    ensures WellKeyed(Without(listed, key)) && Referenced(live - {key}, Without(listed, key))
  {
  }

  lemma DeleteSubBalanced(l: Ledger, idx: Index, notices: seq<Notice>, key: string)
    requires Balanced(l, idx, notices) && key in l.live
    ensures var s := l.live[key];
            && Has(idx, s) && key in idx[PairOf(s)].view.subs
            && var after := DeleteSub(idx, key, s);
               Balanced(l.(live := l.live - {key}, listed := Without(l.listed, key)), after,
                        notices + Told(idx, after, PairOf(s)))
  {
    InSyncListed(idx, l.live, key);
    DeleteSubInSync(idx, l.live, key);
    DeleteSubFaithful(notices, l.start, idx, key, l.live[key]);
    if l.regular {
      DeleteSubAgrees(idx, l.live, l.listed, l.modes, key);
      WithoutTables(l.live, l.listed, key);
    }
  }

  lemma DeleteChBalanced(l: Ledger, idx: Index, notices: seq<Notice>, c: Change)
    requires Balanced(l, idx, notices) && c.submission in l.live
    requires l.regular ==> c.key in l.listed && l.listed[c.key] == c
    ensures var s := l.live[c.submission];
            && Has(idx, s)
            && Balanced(l.(listed := l.listed - {c.key}), DeleteCh(idx, c, Some(s)), notices + ToldByDelete(idx, c, Some(s)))
  {
    var s := l.live[c.submission];
    DeleteChInSync(idx, l.live, c, Some(s));
    if l.regular {
      DeleteChAgrees(idx, l.live, l.listed, l.modes, c.key);
    }
    DeleteChFaithful(notices, l.start, idx, c, Some(s));
  }

  lemma StartsBalanced(rows: Rows, idx: Index)
    requires Typed(rows) && Closed(rows)
    requires Agrees(idx, SubsIn(rows), ChsIn(rows), ModesIn(rows))
    ensures Balanced(Ledger(SubsIn(rows), ChsIn(rows), ModesIn(rows), true, idx), idx, [])
  {
    TablesReferenced(rows);
    AgreesInSync(idx, SubsIn(rows), ChsIn(rows), ModesIn(rows));
  }

  // The ledger after these entities have gone.
  function DropLive(live: Subs, gone: set<Ref>): Subs {
    map k | k in live && Ref(SubmissionKind, k) !in gone :: live[k]
  }

  function DropListed(listed: Chs, gone: set<Ref>): Chs {
    map k | k in listed && Ref(SubmissionKind, listed[k].submission) !in gone :: listed[k]
  }

  function DropGone(l: Ledger, gone: set<Ref>): Ledger {
    l.(live := DropLive(l.live, gone), listed := DropListed(l.listed, gone))
  }

  lemma DropNothing(l: Ledger, gone: set<Ref>)
    requires forall r :: r in gone ==> !r.kind.SubmissionKind?
    ensures DropGone(l, gone) == l
  {
  }

  lemma DropTwice(l: Ledger, g: set<Ref>, h: set<Ref>)
    ensures DropGone(DropGone(l, g), h) == DropGone(l, g + h)
  {
    assert DropLive(DropLive(l.live, g), h) == DropLive(l.live, g + h);
    assert DropListed(DropListed(l.listed, g), h) == DropListed(l.listed, g + h);
  }

  lemma DropSubmission(l: Ledger, g: set<Ref>, key: string)
    requires Ref(SubmissionKind, key) !in g
    ensures DropGone(l, g + {Ref(SubmissionKind, key)}) ==
            DropGone(l, g).(live := DropLive(l.live, g) - {key}, listed := Without(DropListed(l.listed, g), key))
  {
    var h := g + {Ref(SubmissionKind, key)};
    assert DropLive(l.live, h) == DropLive(l.live, g) - {key};
    assert DropListed(l.listed, h) == Without(DropListed(l.listed, g), key);
  }

  // The submissions the ledger knows while ref is being deleted.
  function LiveDuring(rows: Rows, ref: Ref, was: Entity): Subs
    requires Typed(rows) && KindOf(was) == ref.kind
  {
    if ref.kind.SubmissionKind? then SubsIn(rows)[ref.key := was.sub] else SubsIn(rows)
  }

  // Does the submission of this subchange still exist?
  predicate AtHome(rows: Rows, e: Entity) {
    e.Chg? && Ref(SubmissionKind, e.change.submission) in rows
  }

  function AfterDelete(l: Ledger, gone: set<Ref>, key: string, atHome: bool): Ledger {
    if atHome then l.(listed := l.listed - {key}) else DropGone(l, gone)
  }

  // What the ledger must know of an entity that is about to go: its submission,
  // or its change if the submission of the change is still stored.
  predicate Expected(rows: Rows, l: Ledger, ref: Ref)
    requires Typed(rows)
  {
    if ref.kind.SubchangeKind? then
      ref in rows && AtHome(rows, rows[ref]) ==>
        && KnowsHome(rows, l, rows[ref].change)
        && (l.regular ==> ref.key in l.listed && l.listed[ref.key] == rows[ref].change)
    else l.live == SubsIn(rows)
  }

  predicate KnowsHome(rows: Rows, l: Ledger, c: Change)
    requires Typed(rows) && Ref(SubmissionKind, c.submission) in rows
  {
    c.submission in l.live && l.live[c.submission] == rows[Ref(SubmissionKind, c.submission)].sub
  }

  // What a delete does to the rows, the callbacks and the ledger.
  ghost predicate DeletedFrom(rows: Rows, ref: Ref, now: Rows, ds: seq<Fired>, l: Ledger, m: Ledger)
  {
    && ref in rows
    && now == Survivors(rows, ref)
    && Typed(now) && LowerClosed(now, Rank(ref.kind))
    && Logged(rows, Gone(rows, ref), ds)
    && m == AfterDelete(l, Gone(rows, ref), ref.key, AtHome(rows, rows[ref]))
  }

  // The state in the middle of the loop over the dependents.
  ghost predicate Dragging(rows: Rows, ref: Ref, todo: set<Ref>, now: Rows, ds: seq<Fired>, l: Ledger, m: Ledger) {
    && Typed(rows) && ref in rows && Typed(now)
    && now == Left(rows, ref, todo)
    && todo <= now.Keys
    && (forall x :: x in todo ==> x.kind in Depends(ref.kind))
    && LowerClosedBut(now, ref, todo)
    && Logged(rows, rows.Keys - now.Keys - {ref}, ds)
    && m == DropGone(l, rows.Keys - now.Keys - {ref})
    && (!ref.kind.SubchangeKind? ==> m.live == LiveDuring(now, ref, rows[ref]))
  }

  lemma SubsWithout(rows: Rows, ref: Ref)
    requires Typed(rows) && ref in rows
    ensures Typed(rows - {ref})
    ensures LiveDuring(rows - {ref}, ref, rows[ref]) == SubsIn(rows)
  {
    var now := rows - {ref};
    forall k ensures k in LiveDuring(now, ref, rows[ref]) <==> k in SubsIn(rows) {
      KeyIn(rows, SubmissionKind, k);
      KeyIn(now, SubmissionKind, k);
    }
  }

  lemma DragStart(rows: Rows, ref: Ref, l: Ledger)
    requires Typed(rows) && ref in rows && LowerClosed(rows, Rank(ref.kind)) && Expected(rows, l, ref)
    ensures Dragging(rows, ref, Dependents(rows, ref.kind), rows - {ref}, [], l, l)
  {
    NoneDown(rows, ref);
    StartClosed(rows, ref);
    SubsWithout(rows, ref);
    var gone := rows.Keys - (rows - {ref}).Keys - {ref};
    assert gone == {};
    DropNothing(l, gone);
  }

  lemma DragSkip(rows: Rows, ref: Ref, todo: set<Ref>, now: Rows, ds: seq<Fired>, l: Ledger, m: Ledger, o: Ref)
    requires Dragging(rows, ref, todo, now, ds, l, m) && o in todo && Consistent(now, now[o])
    ensures Dragging(rows, ref, todo - {o}, now, ds, l, m)
  {
    assert ref !in now;
    SkipDependent(rows, ref, todo, o);
    forall x | x in now && Rank(x.kind) < Rank(ref.kind) ensures Resolves(now, now[x], ref, x in todo - {o}) {
      assert Resolves(now, now[x], ref, x in todo);
    }
  }

  lemma DragExpected(rows: Rows, ref: Ref, todo: set<Ref>, now: Rows, ds: seq<Fired>, l: Ledger, m: Ledger, o: Ref)
    requires Dragging(rows, ref, todo, now, ds, l, m) && o in todo && !Consistent(now, now[o])
    ensures ref in Refs(now[o]) && Rank(o.kind) < Rank(ref.kind)
    ensures LowerClosed(now, Rank(o.kind)) && Expected(now, m, o)
  {
    ClosedBelow(now, ref, todo, o);
    SameRank(ref.kind, o, o);
    assert Resolves(now, now[o], ref, true);
  }

  // The part of a step that concerns the entities alone.
  lemma DragEntities(rows: Rows, ref: Ref, todo: set<Ref>, now: Rows, ds: seq<Fired>, l: Ledger, m: Ledger, o: Ref, next: Rows)
    requires Dragging(rows, ref, todo, now, ds, l, m) && o in todo && !Consistent(now, now[o])
    requires next == Survivors(now, o)
    ensures ref in Refs(now[o])
    ensures next == Left(rows, ref, todo - {o}) && todo - {o} <= next.Keys && LowerClosedBut(next, ref, todo - {o})
  {
    DragExpected(rows, ref, todo, now, ds, l, m, o);
    DragDependent(rows, ref, todo, o, now);
    DragKeepsClosed(now, ref, todo, o);
    forall x | x in todo ensures Rank(x.kind) == Rank(o.kind) {
      SameRank(ref.kind, x, o);
    }
    TodoSurvives(now, todo, o);
  }

  // The part that concerns the callbacks and the ledger.
  lemma DragBooks(rows: Rows, ref: Ref, todo: set<Ref>, now: Rows, ds: seq<Fired>, l: Ledger, m: Ledger, o: Ref,
                  next: Rows, es: seq<Fired>, n: Ledger)
    requires Dragging(rows, ref, todo, now, ds, l, m) && o in todo && !Consistent(now, now[o])
    requires DeletedFrom(now, o, next, es, m, n)
    ensures Logged(rows, rows.Keys - next.Keys - {ref}, ds + es)
    ensures n == DropGone(l, rows.Keys - next.Keys - {ref})
    ensures !ref.kind.SubchangeKind? ==> n.live == LiveDuring(next, ref, rows[ref])
  {
    DragExpected(rows, ref, todo, now, ds, l, m, o);
    DragLogged(rows, now, ref, todo, o, ds, es);
    DragLedger(rows, ref, now, l, m, o, next, n);
    DragLive(now, ref, rows[ref], o, next);
  }

  lemma DragStep(rows: Rows, ref: Ref, todo: set<Ref>, now: Rows, ds: seq<Fired>, l: Ledger, m: Ledger, o: Ref,
                 next: Rows, es: seq<Fired>, n: Ledger)
    requires Dragging(rows, ref, todo, now, ds, l, m) && o in todo && !Consistent(now, now[o])
    requires DeletedFrom(now, o, next, es, m, n)
    ensures Dragging(rows, ref, todo - {o}, next, ds + es, l, n)
  {
    DragEntities(rows, ref, todo, now, ds, l, m, o, next);
    DragBooks(rows, ref, todo, now, ds, l, m, o, next, es, n);
  }

  lemma DragLedger(rows: Rows, ref: Ref, now: Rows, l: Ledger, m: Ledger, o: Ref, next: Rows, n: Ledger)
    requires ref !in now && now.Keys <= rows.Keys
    requires o in now && ref in Refs(now[o]) && KindOf(now[o]) == o.kind && next == Survivors(now, o)
    requires m == DropGone(l, rows.Keys - now.Keys - {ref})
    requires n == AfterDelete(m, Gone(now, o), o.key, AtHome(now, now[o]))
    ensures n == DropGone(m, Gone(now, o)) == DropGone(l, rows.Keys - next.Keys - {ref})
  {
    var g, h := rows.Keys - now.Keys - {ref}, Gone(now, o);
    SurvivorsKeys(now, o);
    assert g + h == rows.Keys - next.Keys - {ref};
    DropTwice(l, g, h);
  }

  lemma SubsSurvive(now: Rows, o: Ref, next: Rows)
    requires Typed(now) && Typed(next) && next == Survivors(now, o)
    ensures SubsIn(next) == DropLive(SubsIn(now), Gone(now, o))
  {
    SurvivorsKeys(now, o);
    forall k ensures k in SubsIn(next) <==> k in DropLive(SubsIn(now), Gone(now, o)) {
      KeyIn(now, SubmissionKind, k);
      KeyIn(next, SubmissionKind, k);
    }
  }

  lemma DropBeside(live: Subs, gone: set<Ref>, k: string, s: Submission)
    requires Ref(SubmissionKind, k) !in gone
    ensures DropLive(live[k := s], gone) == DropLive(live, gone)[k := s]
  {
  }

  lemma DragLive(now: Rows, ref: Ref, was: Entity, o: Ref, next: Rows)
    requires Typed(now) && Typed(next) && KindOf(was) == ref.kind && ref !in now && next == Survivors(now, o)
    ensures DropLive(LiveDuring(now, ref, was), Gone(now, o)) == LiveDuring(next, ref, was)
  {
    SubsSurvive(now, o, next);
    if ref.kind.SubmissionKind? {
      DropBeside(SubsIn(now), Gone(now, o), ref.key, was.sub);
    }
  }

  // What the callbacks for a deleted entity need to find, and what they do.
  predicate Ready(rows: Rows, l: Ledger, ref: Ref, was: Entity)
    requires Typed(rows)
  {
    && KindOf(was) == ref.kind && ref !in rows
    && (ref.kind.SubmissionKind? ==> ref.key in l.live && l.live[ref.key] == was.sub)
    && (ref.kind.SubchangeKind? ==> was.change.key == ref.key)
    && (AtHome(rows, was) ==>
          KnowsHome(rows, l, was.change) && (l.regular ==> ref.key in l.listed && l.listed[ref.key] == was.change))
  }

  function AfterFire(rows: Rows, l: Ledger, ref: Ref, was: Entity): Ledger {
    if ref.kind.SubmissionKind? then l.(live := l.live - {ref.key}, listed := Without(l.listed, ref.key))
    else if AtHome(rows, was) then l.(listed := l.listed - {ref.key})
    else l
  }

  lemma NothingBelowSubchange(rows: Rows, ref: Ref)
    requires ref in rows && ref.kind.SubchangeKind?
    ensures Gone(rows, ref) == {ref}
  {
    forall r | r in Gone(rows, ref) && r != ref ensures false {
      DoomedRank(rows, ref, r);
    }
  }

  lemma EndLedger(rows: Rows, ref: Ref, now: Rows, l: Ledger, m: Ledger)
    requires Typed(rows) && ref in rows && Typed(now) && now == Survivors(rows, ref)
    requires m == DropGone(l, Gone(rows, ref) - {ref})
    ensures AfterFire(now, m, ref, rows[ref]) == AfterDelete(l, Gone(rows, ref), ref.key, AtHome(rows, rows[ref]))
  {
    assert ref in Gone(rows, ref);
    if ref.kind.SubmissionKind? {
      EndLedgerSubmission(l, Gone(rows, ref), ref);
      NoHome(rows, ref);
    } else if ref.kind.SubchangeKind? {
      EndLedgerSubchange(rows, ref, now, l);
    } else {
      DropSame(l, Gone(rows, ref), ref);
      NoHome(rows, ref);
    }
  }

  lemma NoHome(rows: Rows, ref: Ref)
    requires Typed(rows) && ref in rows && !ref.kind.SubchangeKind?
    ensures !rows[ref].Chg?
  {
  }

  lemma EndLedgerSubmission(l: Ledger, gone: set<Ref>, ref: Ref)
    requires ref.kind.SubmissionKind? && ref in gone
    ensures var m := DropGone(l, gone - {ref});
            m.(live := m.live - {ref.key}, listed := Without(m.listed, ref.key)) == DropGone(l, gone)
  {
    assert gone == gone - {ref} + {ref};
    DropSubmission(l, gone - {ref}, ref.key);
  }

  lemma EndLedgerSubchange(rows: Rows, ref: Ref, now: Rows, l: Ledger)
    requires Typed(rows) && ref in rows && now == Survivors(rows, ref) && ref.kind.SubchangeKind?
    ensures DropGone(l, Gone(rows, ref) - {ref}) == l == DropGone(l, Gone(rows, ref))
    ensures AtHome(rows, rows[ref]) <==> AtHome(now, rows[ref])
  {
    NothingBelowSubchange(rows, ref);
    DropNothing(l, {ref});
    DropNothing(l, Gone(rows, ref) - {ref});
    SurvivorsKeys(rows, ref);
  }

  lemma EndReady(rows: Rows, ref: Ref, now: Rows, l: Ledger, m: Ledger)
    requires Typed(rows) && ref in rows && Typed(now) && now == Survivors(rows, ref)
    requires m == DropGone(l, Gone(rows, ref) - {ref})
    requires !ref.kind.SubchangeKind? ==> m.live == LiveDuring(now, ref, rows[ref])
    requires Expected(rows, l, ref)
    ensures Ready(now, m, ref, rows[ref])
  {
    SurvivorsKeys(rows, ref);
    if ref.kind.SubchangeKind? {
      EndLedgerSubchange(rows, ref, now, l);
    } else {
      NoHome(rows, ref);
    }
  }

  lemma DragEnd(rows: Rows, ref: Ref, now: Rows, ds: seq<Fired>, l: Ledger, m: Ledger)
    requires Dragging(rows, ref, {}, now, ds, l, m) && Expected(rows, l, ref)
    ensures Ready(now, m, ref, rows[ref])
    ensures DeletedFrom(rows, ref, now, ds + [Deleted(ref, rows[ref])], l, AfterFire(now, m, ref, rows[ref]))
  {
    AllDown(rows, ref);
    FinallyClosed(now, ref);
    SurvivorsKeys(rows, ref);
    RootLogged(rows, ref, ds);
    assert rows.Keys - now.Keys - {ref} == Gone(rows, ref) - {ref};
    EndReady(rows, ref, now, l, m);
    EndLedger(rows, ref, now, l, m);
  }

  lemma DropSame(l: Ledger, gone: set<Ref>, ref: Ref)
    requires !ref.kind.SubmissionKind?
    ensures DropGone(l, gone - {ref}) == DropGone(l, gone)
  {
    assert DropLive(l.live, gone - {ref}) == DropLive(l.live, gone);
    assert DropListed(l.listed, gone - {ref}) == DropListed(l.listed, gone);
  }

  lemma AppendNothing(log: seq<Fired>, ds: seq<Fired>)
    ensures log + [] == log && ds + [] == ds
  {
  }

  lemma SplitAt(a: seq<Fired>, b: seq<Fired>)
    requires a <= b
    ensures b == a + b[|a|..]
  {
  }

  lemma AppendTwice(log: seq<Fired>, ds: seq<Fired>, es: seq<Fired>)
    ensures (log + ds) + es == log + (ds + es)
  {
  }

  // ----- the tables and what agrees with them -----

  // Balanced at the end of an operation, whatever happened before.
  ghost predicate Booked(rows: Rows, start: Index, idx: Index, notices: seq<Notice>)
    requires Typed(rows)
  {
    InSync(idx, SubsIn(rows)) && Faithful(notices, start, idx)
  }

  datatype Tables = Tables(subs: Subs, chs: Chs, modes: Modes)

  function TablesOf(rows: Rows): Tables
    requires Typed(rows)
  {
    Tables(SubsIn(rows), ChsIn(rows), ModesIn(rows))
  }

  ghost predicate Matches(idx: Index, t: Tables) {
    Agrees(idx, t.subs, t.chs, t.modes)
  }

  ghost predicate AgreesWith(idx: Index, rows: Rows)
    requires Typed(rows)
  {
    Matches(idx, TablesOf(rows))
  }

  lemma SubAt(rows: Rows, k: string)
    requires Typed(rows) && Ref(SubmissionKind, k) in rows
    ensures k in SubsIn(rows) && SubsIn(rows)[k] == rows[Ref(SubmissionKind, k)].sub
  {
    KeyIn(rows, SubmissionKind, k);
  }

  lemma ChAt(rows: Rows, k: string)
    requires Typed(rows) && Ref(SubchangeKind, k) in rows
    ensures k in ChsIn(rows) && ChsIn(rows)[k] == rows[Ref(SubchangeKind, k)].change
  {
    KeyIn(rows, SubchangeKind, k);
  }

  lemma ModeAt(rows: Rows, k: string)
    requires Typed(rows) && Ref(TaskKind, k) in rows
    ensures k in ModesIn(rows) && ModesIn(rows)[k] == rows[Ref(TaskKind, k)].mode
  {
    KeyIn(rows, TaskKind, k);
  }

  // ----- one entity deleted from the tables -----

  lemma SurvivorsTyped(rows: Rows, ref: Ref)
    requires Typed(rows) && Closed(rows)
    ensures Typed(Survivors(rows, ref)) && Closed(Survivors(rows, ref))
  {
    var now := Survivors(rows, ref);
    forall x, q | x in now && q in Refs(now[x]) ensures q in now {
      assert Consistent(rows, rows[x]);
      SurvivorsResolve(rows, ref, x, q);
    }
  }

  lemma DeletedSubs(rows: Rows, ref: Ref)
    requires Typed(rows) && Closed(rows)
    ensures Typed(Survivors(rows, ref))
    ensures SubsIn(Survivors(rows, ref)) == DropLive(SubsIn(rows), Gone(rows, ref))
  {
    var now := Survivors(rows, ref);
    SurvivorsTyped(rows, ref);
    forall k ensures k in SubsIn(now) <==> k in DropLive(SubsIn(rows), Gone(rows, ref)) {
      KeyIn(rows, SubmissionKind, k);
      KeyIn(now, SubmissionKind, k);
    }
  }

  // A subchange goes down exactly when its submission does.
  lemma SubchangeGone(rows: Rows, ref: Ref, k: string)
    requires Typed(rows) && Ref(SubchangeKind, k) in rows && ref != Ref(SubchangeKind, k)
    ensures var c := Ref(SubchangeKind, k);
            c in Gone(rows, ref) <==> Doomed(rows, ref, Ref(SubmissionKind, rows[c].change.submission))
  {
    var c := Ref(SubchangeKind, k);
    var home := Ref(SubmissionKind, rows[c].change.submission);
    assert Refs(rows[c]) == {home};
    if Doomed(rows, ref, c) {
      var q := DoomedStep(rows, ref, c);
    }
  }

  lemma DeletedChs(rows: Rows, ref: Ref)
    requires Typed(rows) && Closed(rows) && ref in rows
    ensures Typed(Survivors(rows, ref))
    ensures ChsIn(Survivors(rows, ref)) ==
            if ref.kind.SubchangeKind? then ChsIn(rows) - {ref.key} else DropListed(ChsIn(rows), Gone(rows, ref))
  {
    var now := Survivors(rows, ref);
    SurvivorsTyped(rows, ref);
    SurvivorsKeys(rows, ref);
    if ref.kind.SubchangeKind? {
      NothingBelowSubchange(rows, ref);
    }
    forall k ensures k in ChsIn(now) <==> k in (if ref.kind.SubchangeKind? then ChsIn(rows) - {ref.key} else DropListed(ChsIn(rows), Gone(rows, ref))) {
      KeyIn(rows, SubchangeKind, k);
      KeyIn(now, SubchangeKind, k);
      if Ref(SubchangeKind, k) in rows && !ref.kind.SubchangeKind? {
        SubchangeGone(rows, ref, k);
        HomeStored(rows, k);
      }
    }
  }

  lemma HomeStored(rows: Rows, k: string)
    requires Typed(rows) && Closed(rows) && Ref(SubchangeKind, k) in rows
    ensures Ref(SubmissionKind, rows[Ref(SubchangeKind, k)].change.submission) in rows
  {
    assert Consistent(rows, rows[Ref(SubchangeKind, k)]);
  }

  lemma FewerModes(idx: Index, subs: Subs, chs: Chs, modes: Modes, some: Modes)
    requires Agrees(idx, subs, chs, modes)
    requires forall k :: k in subs ==> subs[k].task in some && subs[k].task in modes && some[subs[k].task] == modes[subs[k].task]
    ensures Agrees(idx, subs, chs, some)
  {
  }

  lemma ModesOfSurvivors(rows: Rows, ref: Ref)
    requires Typed(rows) && Closed(rows)
    ensures Typed(Survivors(rows, ref))
    ensures var now := Survivors(rows, ref);
            var subs := SubsIn(now);
            forall k :: k in subs ==> subs[k].task in ModesIn(now) && subs[k].task in ModesIn(rows)
                                      && ModesIn(now)[subs[k].task] == ModesIn(rows)[subs[k].task]
  {
    var now := Survivors(rows, ref);
    SurvivorsTyped(rows, ref);
    TablesReferenced(now);
    forall k | k in SubsIn(now) ensures SubsIn(now)[k].task in ModesIn(rows) && ModesIn(now)[SubsIn(now)[k].task] == ModesIn(rows)[SubsIn(now)[k].task] {
      var t := SubsIn(now)[k].task;
      KeyIn(now, TaskKind, t);
      ModeAt(rows, t);
      ModeAt(now, t);
    }
  }

  // The ledger of an operation that starts from closed tables.
  ghost function Opening(rows: Rows, idx: Index, start: Index): Ledger
    requires Typed(rows)
  {
    Ledger(SubsIn(rows), ChsIn(rows), ModesIn(rows), AgreesWith(idx, rows), start)
  }

  lemma OpeningBalanced(rows: Rows, start: Index, idx: Index, notices: seq<Notice>, ref: Ref)
    requires Typed(rows) && Closed(rows) && Booked(rows, start, idx, notices)
    ensures Balanced(Opening(rows, idx, start), idx, notices)
    ensures Expected(rows, Opening(rows, idx, start), ref)
  {
    TablesReferenced(rows);
    if ref in rows && ref.kind.SubchangeKind? {
      HomeStored(rows, ref.key);
      ChAt(rows, ref.key);
      SubAt(rows, rows[ref].change.submission);
    }
  }

  // After a complete delete the ledger and the tables match again.
  lemma ClosingLedger(rows: Rows, ref: Ref, l: Ledger)
    requires Typed(rows) && Closed(rows) && ref in rows
    requires l.live == SubsIn(rows) && l.listed == ChsIn(rows)
    ensures var now, m := Survivors(rows, ref), AfterDelete(l, Gone(rows, ref), ref.key, AtHome(rows, rows[ref]));
            && Typed(now) && m.live == SubsIn(now) && m.listed == ChsIn(now)
            && m.modes == l.modes && m.regular == l.regular && m.start == l.start
  {
    DeletedSubs(rows, ref);
    DeletedChs(rows, ref);
    if ref.kind.SubchangeKind? {
      ClosingSubchange(rows, ref);
    } else {
      assert !rows[ref].Chg?;
    }
  }

  lemma ClosingSubchange(rows: Rows, ref: Ref)
    requires Typed(rows) && Closed(rows) && ref in rows && ref.kind.SubchangeKind?
    ensures AtHome(rows, rows[ref])
    ensures DropLive(SubsIn(rows), Gone(rows, ref)) == SubsIn(rows)
  {
    HomeStored(rows, ref.key);
    NothingBelowSubchange(rows, ref);
  }

  lemma DeleteSettled(rows: Rows, ref: Ref, start: Index, idx: Index, after: Index, notices: seq<Notice>, m: Ledger)
    requires Typed(rows) && Closed(rows) && ref in rows
    requires m == AfterDelete(Opening(rows, idx, start), Gone(rows, ref), ref.key, AtHome(rows, rows[ref]))
    requires Balanced(m, after, notices)
    ensures var now := Survivors(rows, ref);
            && Typed(now) && Closed(now)
            && Booked(now, start, after, notices)
            && (AgreesWith(idx, rows) ==> AgreesWith(after, now))
  {
    ClosingLedger(rows, ref, Opening(rows, idx, start));
    SurvivorsTyped(rows, ref);
    if AgreesWith(idx, rows) {
      ModesOfSurvivors(rows, ref);
      FewerModes(after, m.live, m.listed, m.modes, ModesIn(Survivors(rows, ref)));
    }
  }
}
