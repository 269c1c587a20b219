// The entity stores and the scoring store wired together
// (src/cmsranking/Store.py:137-311, src/cmsranking/RankingWebServer.py:592-618).
module RankingServers {
  import opened Basics
  import opened ScoreReplay
  import opened ScoreOps
  import opened ScoreIndex
  import opened ScoringStores
  import opened Entities
  import opened Cascade
  import opened Ledgers
  import opened Merges
  import opened Puts

  // What main() does with the stores it has loaded.
  method LoadScores(scoring: ScoringStore, rows: Rows)
    requires Typed(rows) && Closed(rows)
    requires scoring.Valid() && scoring.index == map[]
    modifies scoring, scoring.Repr
    ensures scoring.Valid() && fresh(scoring.Repr - old(scoring.Repr))
    ensures Agrees(scoring.index, SubsIn(rows), ChsIn(rows), ModesIn(rows)) && scoring.notices == []
  {
    TablesReferenced(rows);
    scoring.InitStore(SubsIn(rows), ChsIn(rows), ModesIn(rows));
    scoring.Listen();
  }

  method FreshScores(rows: Rows) returns (scoring: ScoringStore)
    requires Typed(rows) && Closed(rows)
    ensures fresh(scoring) && fresh(scoring.Repr) && scoring.Valid() && scoring.notices == []
    ensures AgreesWith(scoring.index, rows)
  {
    scoring := new ScoringStore();
    LoadScores(scoring, rows);
  }

  // Of an index that agrees with the stored entities there is only one.
  lemma OnlyIndex(idx: Index, now: Index, rows: Rows)
    requires Typed(rows) && AgreesWith(idx, rows)
    ensures idx == now <==> AgreesWith(now, rows)
  {
    if AgreesWith(now, rows) {
      AgreesUnique(idx, now, SubsIn(rows), ChsIn(rows), ModesIn(rows));
    }
  }

  datatype Outcome = Done | InvalidKey | InvalidData

  // What merge_list asks of a key: that it starts with a letter, a digit or an
  // underscore.
  predicate KeyAllowed(k: string) {
    k != [] && ('A' <= k[0] <= 'Z' || 'a' <= k[0] <= 'z' || '0' <= k[0] <= '9' || k[0] == '_')
  }

  // An item of a list is taken if its key starts with a letter, a digit or an
  // underscore, its data are valid, and what it names is stored.
  predicate Acceptable(rows: Rows, k: string, data: Option<Entity>) {
    && k != "" && ('A' <= k[0] <= 'Z' || 'a' <= k[0] <= 'z' || '0' <= k[0] <= '9' || k[0] == '_')
    && data.Some? && Supported(rows, data.value)
  }

  predicate AllAcceptable(rows: Rows, data: map<string, Option<Entity>>) {
    forall k :: k in data ==> Acceptable(rows, k, data[k])
  }

  function Values(data: map<string, Option<Entity>>): map<string, Entity> {
    map k | k in data && data[k].Some? :: data[k].value
  }

  lemma ValuesAre(data: map<string, Option<Entity>>)
    requires forall k :: k in data ==> data[k].Some?
    ensures Values(data).Keys == data.Keys && forall k :: k in data ==> Values(data)[k] == data[k].value
  {
  }

  class Server {
    var rows: Rows
    var log: seq<Fired>
    const scoring: ScoringStore
    ghost var ledger: Ledger

    ghost predicate Sync()
      reads this, scoring, scoring.Repr
    {
      && this !in scoring.Repr
      && scoring.Valid()
      && Balanced(ledger, scoring.index, scoring.notices)
    }

    ghost predicate Valid()
      reads this, scoring, scoring.Repr
    {
      && this !in scoring.Repr
      && Typed(rows) && Closed(rows)
      && scoring.Valid()
      && Booked(rows, ledger.start, scoring.index, scoring.notices)
    }

    // The scores are those of the stored submissions and subchanges.
    ghost predicate Agreeing()
      requires Typed(rows)
      reads this, scoring
    {
      AgreesWith(scoring.index, rows)
    }

    // Start with entities loaded from disk.
    constructor (rows: Rows)
      requires Typed(rows) && Closed(rows)
      ensures Valid() && Agreeing() && fresh(scoring) && fresh(scoring.Repr)
      ensures this.rows == rows && log == []
    {
      this.rows, log := rows, [];
      scoring := new ScoringStore();
      new;
      LoadScores(scoring, rows);
      StartsBalanced(rows, scoring.index);
      ledger := Ledger(SubsIn(rows), ChsIn(rows), ModesIn(rows), true, scoring.index);
    }

    // What a restart on the stored entities makes of the scores: the same scores and
    // histories as now, if and only if those are the right ones.
    method Restart() returns (again: ScoringStore)
      requires Valid()
      ensures fresh(again) && fresh(again.Repr) && again.Valid() && again.notices == []
      ensures AgreesWith(again.index, rows)
      ensures again.index == scoring.index <==> Agreeing()
    {
      again := FreshScores(rows);
      OnlyIndex(again.index, scoring.index, rows);
    }

    // ----- the delete callbacks of the scoring store -----

    method FireSubmission(key: string, s: Submission)
      requires Sync() && key in ledger.live && ledger.live[key] == s
      modifies this`ledger, scoring, scoring.Repr
      ensures Sync() && scoring.Repr == old(scoring.Repr)
      ensures ledger == old(ledger).(live := old(ledger).live - {key}, listed := Without(old(ledger).listed, key))
    {
      ghost var after := DeleteSub(scoring.index, key, s);
      DeleteSubBalanced(ledger, scoring.index, scoring.notices, key);
      DropScore(key, s, ledger.(live := ledger.live - {key}, listed := Without(ledger.listed, key)), after,
                scoring.notices + Told(scoring.index, after, PairOf(s)));
    }

    method DropScore(key: string, s: Submission, ghost l: Ledger, ghost after: Index, ghost notices: seq<Notice>)
      requires this !in scoring.Repr && scoring.Valid() && Has(scoring.index, s) && key in scoring.index[PairOf(s)].view.subs
      requires Balanced(l, after, notices)
      requires after == DeleteSub(scoring.index, key, s) && notices == scoring.notices + Told(scoring.index, after, PairOf(s))
      modifies this`ledger, scoring, scoring.Repr
      ensures Sync() && scoring.Repr == old(scoring.Repr) && ledger == l
    {
      Forget(key, s, after, notices);
      Book(l);
    }

    ghost method Book(l: Ledger)
      requires this !in scoring.Repr && scoring.Valid() && Balanced(l, scoring.index, scoring.notices)
      modifies this`ledger
      ensures Sync() && ledger == l
    {
      ledger := l;
    }

    method Forget(key: string, s: Submission, ghost after: Index, ghost notices: seq<Notice>)
      requires this !in scoring.Repr && scoring.Valid() && Has(scoring.index, s) && key in scoring.index[PairOf(s)].view.subs
      requires after == DeleteSub(scoring.index, key, s) && notices == scoring.notices + Told(scoring.index, after, PairOf(s))
      modifies scoring, scoring.Repr
      ensures scoring.Valid() && scoring.Repr == old(scoring.Repr) && scoring.index == after && scoring.notices == notices
    {
      scoring.DeleteSubmission(key, s);
    }

    method FireSubchange(c: Change, s: Option<Submission>)
      requires Sync()
      requires s.Some? ==> c.submission in ledger.live && s.value == ledger.live[c.submission]
      requires s.Some? && ledger.regular ==> c.key in ledger.listed && ledger.listed[c.key] == c
      modifies this`ledger, scoring, scoring.Repr
      ensures Sync() && scoring.Repr == old(scoring.Repr)
      ensures ledger == if s.Some? then old(ledger).(listed := old(ledger).listed - {c.key}) else old(ledger)
    {
      if s.Some? {
        ghost var after, told := DeleteCh(scoring.index, c, s), ToldByDelete(scoring.index, c, s);
        DeleteChBalanced(ledger, scoring.index, scoring.notices, c);
        DropChange(c, s.value, ledger.(listed := ledger.listed - {c.key}), after, scoring.notices + told);
      } else {
        assert scoring.notices + [] == scoring.notices;
        scoring.DeleteSubchange(c, s);
      }
    }

    method DropChange(c: Change, s: Submission, ghost l: Ledger, ghost after: Index, ghost notices: seq<Notice>)
      requires this !in scoring.Repr && scoring.Valid() && Has(scoring.index, s) && Balanced(l, after, notices)
      requires after == DeleteCh(scoring.index, c, Some(s)) && notices == scoring.notices + ToldByDelete(scoring.index, c, Some(s))
      modifies this`ledger, scoring, scoring.Repr
      ensures Sync() && scoring.Repr == old(scoring.Repr) && ledger == l
    {
      ledger := l;
      scoring.DeleteSubchange(c, Some(s));
      assert scoring.index == after && scoring.notices == notices;
    }

    // ----- Store.delete -----

    method Note(e: Fired)
      requires Sync()
      modifies this`log
      ensures Sync() && log == old(log) + [e]
    {
      log := log + [e];
    }

    // A deleted subchange, with its submission if that is still stored.
    method SubchangeDeleted(ref: Ref, was: Entity)
      requires Typed(rows) && Sync() && Ready(rows, ledger, ref, was) && ref.kind.SubchangeKind?
      modifies this`ledger, scoring, scoring.Repr
      ensures Sync() && scoring.Repr == old(scoring.Repr)
      ensures ledger == AfterFire(rows, old(ledger), ref, was)
    {
      var home := Ref(SubmissionKind, was.change.submission);
      FireSubchange(was.change, if home in rows then Some(rows[home].sub) else None);
    }

    // The callbacks for a deleted entity, once its referrers are gone.
    method FireDeleted(ref: Ref, was: Entity)
      requires Typed(rows) && Sync() && Ready(rows, ledger, ref, was)
      modifies this`ledger, this`log, scoring, scoring.Repr
      ensures Sync() && scoring.Repr == old(scoring.Repr)
      ensures log == old(log) + [Deleted(ref, was)]
      ensures ledger == AfterFire(rows, old(ledger), ref, was)
    {
      match ref.kind {
        case SubmissionKind =>
          FireSubmission(ref.key, was.sub);
        case SubchangeKind =>
          SubchangeDeleted(ref, was);
        case _ =>
      }
      Note(Deleted(ref, was));
    }

    // One dependent: if it has become inconsistent it is deleted too.
    method Drag(ghost rows0: Rows, ref: Ref, ghost todo: set<Ref>, o: Ref, ghost ledger0: Ledger, ghost ds: seq<Fired>)
      returns (ghost es: seq<Fired>)
      requires Dragging(rows0, ref, todo, rows, ds, ledger0, ledger) && o in todo && Sync()
      modifies this`rows, this`log, this`ledger, scoring, scoring.Repr
      decreases Rank(ref.kind), 0
      ensures Sync() && scoring.Repr == old(scoring.Repr)
      ensures log == old(log) + es
      ensures Dragging(rows0, ref, todo - {o}, rows, ds + es, ledger0, ledger)
    {
      ghost var now, l := rows, ledger;
      if !Consistent(rows, rows[o]) {
        DragExpected(rows0, ref, todo, now, ds, ledger0, l, o);
        var ok := Delete(o);
        es := log[|old(log)|..];
        SplitAt(old(log), log);
        DragStep(rows0, ref, todo, now, ds, ledger0, l, o, rows, es, ledger);
      } else {
        es := [];
        DragSkip(rows0, ref, todo, now, ds, ledger0, l, o);
        AppendNothing(log, ds);
      }
    }

    // The loop over the dependents.
    method DragAll(ghost rows0: Rows, ref: Ref, all: set<Ref>, ghost ledger0: Ledger)
      requires Dragging(rows0, ref, all, rows, [], ledger0, ledger) && Sync()
      modifies this`rows, this`log, this`ledger, scoring, scoring.Repr
      decreases Rank(ref.kind), 1
      ensures Sync() && scoring.Repr == old(scoring.Repr) && old(log) <= log
      ensures Dragging(rows0, ref, {}, rows, log[|old(log)|..], ledger0, ledger)
    {
      var todo := all;
      ghost var ds: seq<Fired> := [];
      while todo != {}
        invariant Sync() && scoring.Repr == old(scoring.Repr)
        invariant log == old(log) + ds
        invariant Dragging(rows0, ref, todo, rows, ds, ledger0, ledger)
        decreases |todo|
      {
        var o :| o in todo;
        ghost var es := Drag(rows0, ref, todo, o, ledger0, ds);
        AppendTwice(old(log), ds, es);
        ds := ds + es;
        todo := todo - {o};
      }
    }

    method Delete(ref: Ref) returns (ok: bool)
      requires Typed(rows) && LowerClosed(rows, Rank(ref.kind)) && Sync() && Expected(rows, ledger, ref)
      modifies this`rows, this`log, this`ledger, scoring, scoring.Repr
      decreases Rank(ref.kind), 3
      ensures Sync() && scoring.Repr == old(scoring.Repr) && old(log) <= log
      ensures ok <==> ref in old(rows)
      ensures !ok ==> rows == old(rows) && log == old(log) && ledger == old(ledger)
      ensures ok ==> DeletedFrom(old(rows), ref, rows, log[|old(log)|..], old(ledger), ledger)
    {
      if ref !in rows {
        return false;
      }
      ghost var rows0, ledger0 := rows, ledger;
      var was := rows[ref];
      DeleteRow(ref);
      ghost var ds := log[|old(log)|..];
      SplitAt(old(log), log);
      DeleteEnd(rows0, ref, was, ledger0, ds);
      assert log[|old(log)|..] == ds + [Deleted(ref, was)];
      return true;
    }

    // Take out the entity, then what referred to it.
    method DeleteRow(ref: Ref)
      requires Typed(rows) && LowerClosed(rows, Rank(ref.kind)) && Sync() && Expected(rows, ledger, ref) && ref in rows
      modifies this`rows, this`log, this`ledger, scoring, scoring.Repr
      decreases Rank(ref.kind), 2
      ensures Sync() && scoring.Repr == old(scoring.Repr) && old(log) <= log
      ensures Dragging(old(rows), ref, {}, rows, log[|old(log)|..], old(ledger), ledger)
    {
      ghost var rows0, ledger0 := rows, ledger;
      var all := Dependents(rows, ref.kind);
      DragStart(rows, ref, ledger);
      TakeOut(ref);
      DragAll(rows0, ref, all, ledger0);
    }

    method TakeOut(ref: Ref)
      requires Sync()
      modifies this`rows
      ensures Sync() && rows == old(rows) - {ref}
    {
      rows := rows - {ref};
    }

    // Nothing refers to the entity any more: its callbacks are fired.
    method DeleteEnd(ghost rows0: Rows, ref: Ref, was: Entity, ghost ledger0: Ledger, ghost ds: seq<Fired>)
      requires Dragging(rows0, ref, {}, rows, ds, ledger0, ledger) && Sync() && Expected(rows0, ledger0, ref)
      requires ref in rows0 && was == rows0[ref]
      modifies this`log, this`ledger, scoring, scoring.Repr
      ensures Sync() && scoring.Repr == old(scoring.Repr) && log == old(log) + [Deleted(ref, was)]
      ensures DeletedFrom(rows0, ref, rows, ds + [Deleted(ref, was)], ledger0, ledger)
    {
      DragEnd(rows0, ref, rows, ds, ledger0, ledger);
      FireDeleted(ref, was);
    }

    // A delete from outside: all or nothing, with the scores brought up to date.
    method HandleDelete(ref: Ref) returns (ok: bool)
      requires Valid()
      modifies this`rows, this`log, this`ledger, scoring, scoring.Repr
      ensures Valid() && scoring.Repr == old(scoring.Repr) && ledger.start == old(ledger).start && old(log) <= log
      ensures ok <==> ref in old(rows)
      ensures !ok ==> rows == old(rows) && log == old(log)
      ensures ok ==> rows == Survivors(old(rows), ref) && Logged(old(rows), Gone(old(rows), ref), log[|old(log)|..])
      ensures ok ==> forall r :: r in rows <==> r in old(rows) && !Falls(old(rows), ref, r)
      ensures ok ==> forall r :: r in rows ==> r in old(rows) && rows[r] == old(rows)[r] && !Names(rows[r], ref)
      ensures old(Agreeing()) ==> Agreeing()
    {
      ghost var rows0, idx, start := rows, scoring.index, ledger.start;
      ghost var agreed := Agreeing();
      Open(ref);
      ok := Delete(ref);
      if ok {
        SurvivorsOnFields(rows0, ref);
        DeleteSettled(rows0, ref, start, idx, scoring.index, scoring.notices, ledger);
      }
      assert agreed ==> Agreeing();
    }

    // The ledger starts from the stored tables.
    ghost method Open(ref: Ref)
      requires Valid()
      modifies this`ledger
      ensures Sync() && Expected(rows, ledger, ref)
      ensures ledger == Opening(rows, scoring.index, old(ledger).start)
    {
      OpeningBalanced(rows, ledger.start, scoring.index, scoring.notices, ref);
      ledger := Opening(rows, scoring.index, ledger.start);
    }

    // ----- Store.create, Store.update and Store.merge_list -----

    method FireNewSub(ghost rows0: Rows, ref: Ref, s: Submission)
      requires Typed(rows0) && Closed(rows0) && ref !in rows0 && ref.kind.SubmissionKind? && Consistent(rows0, Sub(s))
      requires rows == rows0[ref := Sub(s)] && this !in scoring.Repr && scoring.Valid()
      requires Booked(rows0, ledger.start, scoring.index, scoring.notices)
      modifies scoring, scoring.Repr
      ensures scoring.Valid() && fresh(scoring.Repr - old(scoring.Repr))
      ensures Good(rows0, ref, Sub(s), ledger.start, old(scoring.index), scoring.index, scoring.notices)
    {
      ghost var idx, notices := scoring.index, scoring.notices;
      TaskStored(rows0, s);
      scoring.CreateSubmission(ref.key, s, rows[Ref(TaskKind, s.task)].mode);
      NewSubGood(rows0, ref, s, ledger.start, idx, notices, scoring.index, scoring.notices);
    }

    method FireOldSub(ghost rows0: Rows, ref: Ref, was: Submission, s: Submission)
      requires Typed(rows0) && Closed(rows0) && ref in rows0 && ref.kind.SubmissionKind? && rows0[ref].sub == was && Consistent(rows0, Sub(s))
      requires rows == rows0[ref := Sub(s)] && this !in scoring.Repr && scoring.Valid()
      requires Booked(rows0, ledger.start, scoring.index, scoring.notices)
      modifies scoring, scoring.Repr
      ensures scoring.Valid() && fresh(scoring.Repr - old(scoring.Repr))
      ensures Good(rows0, ref, Sub(s), ledger.start, old(scoring.index), scoring.index, scoring.notices)
    {
      ghost var idx, notices := scoring.index, scoring.notices;
      OldSubReady(rows0, ref, s, idx);
      scoring.UpdateSubmission(ref.key, was, s, rows[Ref(TaskKind, s.task)].mode);
      OldSubGood(rows0, ref, s, ledger.start, idx, notices, scoring.index, scoring.notices);
    }

    method FireNewCh(ghost rows0: Rows, ref: Ref, c: Change)
      requires Typed(rows0) && Closed(rows0) && ref !in rows0 && Fits(ref, Chg(c)) && Consistent(rows0, Chg(c))
      requires rows == rows0[ref := Chg(c)] && this !in scoring.Repr && scoring.Valid()
      requires Booked(rows0, ledger.start, scoring.index, scoring.notices)
      modifies scoring, scoring.Repr
      ensures scoring.Valid() && scoring.Repr == old(scoring.Repr)
      ensures Good(rows0, ref, Chg(c), ledger.start, old(scoring.index), scoring.index, scoring.notices)
    {
      NewChReady(rows0, ref, c, scoring.index);
      AddToScore(rows0, ref, c, rows[Ref(SubmissionKind, c.submission)].sub);
    }

    method AddToScore(ghost rows0: Rows, ref: Ref, c: Change, s: Submission)
      requires Typed(rows0) && Closed(rows0) && ref !in rows0 && Fits(ref, Chg(c)) && Consistent(rows0, Chg(c))
      requires this !in scoring.Repr && scoring.Valid()
      requires Booked(rows0, ledger.start, scoring.index, scoring.notices)
      requires HomeOf(rows0, c) == Some(s) && Listed(scoring.index, c, s)
      modifies scoring, scoring.Repr
      ensures scoring.Valid() && scoring.Repr == old(scoring.Repr)
      ensures Good(rows0, ref, Chg(c), ledger.start, old(scoring.index), scoring.index, scoring.notices)
    {
      ghost var idx, notices := scoring.index, scoring.notices;
      scoring.CreateSubchange(c, s);
      NewChGood(rows0, ref, c, s, ledger.start, idx, notices, scoring.index, scoring.notices);
    }

    method FireOldCh(ghost rows0: Rows, ref: Ref, was: Change, c: Change)
      requires Typed(rows0) && Closed(rows0) && ref in rows0 && Fits(ref, Chg(c)) && rows0[ref].change == was && Consistent(rows0, Chg(c))
      requires rows == rows0[ref := Chg(c)] && this !in scoring.Repr && scoring.Valid()
      requires Booked(rows0, ledger.start, scoring.index, scoring.notices)
      modifies scoring, scoring.Repr
      ensures scoring.Valid() && scoring.Repr == old(scoring.Repr)
      ensures Good(rows0, ref, Chg(c), ledger.start, old(scoring.index), scoring.index, scoring.notices)
    {
      OldChReady(rows0, ref, c, scoring.index);
      var s := rows[Ref(SubmissionKind, c.submission)].sub;
      var t := rows[Ref(SubmissionKind, was.submission)].sub;
      UpdateScore(rows0, ref, was, c, t, s);
    }

    method UpdateScore(ghost rows0: Rows, ref: Ref, was: Change, c: Change, t: Submission, s: Submission)
      requires Typed(rows0) && Closed(rows0) && ref in rows0 && Fits(ref, Chg(c)) && rows0[ref].change == was && Consistent(rows0, Chg(c))
      requires this !in scoring.Repr && scoring.Valid()
      requires Booked(rows0, ledger.start, scoring.index, scoring.notices)
      requires HomeOf(rows0, c) == Some(s) && HomeOf(rows0, was) == Some(t)
      requires Has(scoring.index, t) && Listed(scoring.index, c, s) && Listed(DeleteCh(scoring.index, was, Some(t)), c, s)
      modifies scoring, scoring.Repr
      ensures scoring.Valid() && scoring.Repr == old(scoring.Repr)
      ensures Good(rows0, ref, Chg(c), ledger.start, old(scoring.index), scoring.index, scoring.notices)
    {
      ghost var idx, notices := scoring.index, scoring.notices;
      scoring.UpdateSubchange(was, c, Some(t), s);
      OldChGood(rows0, ref, c, t, s, ledger.start, idx, notices, scoring.index, scoring.notices);
    }

    method ScoreCreated(ghost rows0: Rows, ref: Ref, item: Entity)
      requires Typed(rows0) && Closed(rows0) && ref !in rows0 && Fits(ref, item) && Consistent(rows0, item)
      requires rows == rows0[ref := item] && this !in scoring.Repr && scoring.Valid()
      requires Booked(rows0, ledger.start, scoring.index, scoring.notices)
      modifies scoring, scoring.Repr
      ensures scoring.Valid() && fresh(scoring.Repr - old(scoring.Repr))
      ensures Good(rows0, ref, item, ledger.start, old(scoring.index), scoring.index, scoring.notices)
    {
      match item {
        case Sub(s) => FireNewSub(rows0, ref, s);
        case Chg(c) => FireNewCh(rows0, ref, c);
        case _ => OtherGood(rows0, ref, item, ledger.start, scoring.index, scoring.notices);
      }
    }

    method FireCreated(ghost rows0: Rows, ref: Ref, item: Entity)
      requires Typed(rows0) && Closed(rows0) && ref !in rows0 && Fits(ref, item) && Consistent(rows0, item)
      requires rows == rows0[ref := item] && this !in scoring.Repr && scoring.Valid()
      requires Booked(rows0, ledger.start, scoring.index, scoring.notices)
      modifies this`log, scoring, scoring.Repr
      ensures scoring.Valid() && fresh(scoring.Repr - old(scoring.Repr))
      ensures log == old(log) + [Created(ref, item)]
      ensures Good(rows0, ref, item, ledger.start, old(scoring.index), scoring.index, scoring.notices)
    {
      log := log + [Created(ref, item)];
      ScoreCreated(rows0, ref, item);
    }

    method ScoreUpdated(ghost rows0: Rows, ref: Ref, was: Entity, item: Entity)
      requires Typed(rows0) && Closed(rows0) && ref in rows0 && Fits(ref, item) && Consistent(rows0, item)
      requires rows0[ref] == was && rows == rows0[ref := item] && this !in scoring.Repr && scoring.Valid()
      requires Booked(rows0, ledger.start, scoring.index, scoring.notices)
      modifies scoring, scoring.Repr
      ensures scoring.Valid() && fresh(scoring.Repr - old(scoring.Repr))
      ensures Good(rows0, ref, item, ledger.start, old(scoring.index), scoring.index, scoring.notices)
    {
      match item {
        case Sub(s) => FireOldSub(rows0, ref, was.sub, s);
        case Chg(c) => FireOldCh(rows0, ref, was.change, c);
        case _ => OtherGood(rows0, ref, item, ledger.start, scoring.index, scoring.notices);
      }
    }

    method FireUpdated(ghost rows0: Rows, ref: Ref, was: Entity, item: Entity)
      requires Typed(rows0) && Closed(rows0) && ref in rows0 && Fits(ref, item) && Consistent(rows0, item)
      requires rows0[ref] == was && rows == rows0[ref := item] && this !in scoring.Repr && scoring.Valid()
      requires Booked(rows0, ledger.start, scoring.index, scoring.notices)
      modifies this`log, scoring, scoring.Repr
      ensures scoring.Valid() && fresh(scoring.Repr - old(scoring.Repr))
      ensures log == old(log) + [Updated(ref, was, item)]
      ensures Good(rows0, ref, item, ledger.start, old(scoring.index), scoring.index, scoring.notices)
    {
      log := log + [Updated(ref, was, item)];
      ScoreUpdated(rows0, ref, was, item);
    }

    // Insert or replace an entity and fire the callbacks.
    method Store(ref: Ref, item: Entity)
      requires Valid() && Fits(ref, item) && Consistent(rows, item)
      modifies this`rows, this`log, scoring, scoring.Repr
      ensures scoring.Valid() && fresh(scoring.Repr - old(scoring.Repr))
      ensures rows == old(rows)[ref := item]
      ensures log == old(log) + [Event(old(rows), ref, item)]
      ensures Good(old(rows), ref, item, ledger.start, old(scoring.index), scoring.index, scoring.notices)
    {
      ghost var rows0 := rows;
      if ref !in rows {
        rows := rows[ref := item];
        FireCreated(rows0, ref, item);
      } else {
        var was := rows[ref];
        rows := rows[ref := item];
        FireUpdated(rows0, ref, was, item);
      }
    }

    method Put(ref: Ref, item: Entity)
      requires Valid() && Fits(ref, item) && Consistent(rows, item)
      modifies this`rows, this`log, scoring, scoring.Repr
      ensures Valid() && fresh(scoring.Repr - old(scoring.Repr))
      ensures rows == old(rows)[ref := item]
      ensures log == old(log) + [Event(old(rows), ref, item)]
      ensures Heard(TablesOf(old(rows)), ref.key, item, old(scoring.index), scoring.index)
      ensures old(Agreeing()) && Tells(TablesOf(old(rows)), item) ==> (Agreeing() <==> Regular(TablesOf(old(rows)), ref.key, item))
    {
      ghost var rows0, idx := rows, scoring.index;
      Store(ref, item);
      GoodAgreesIff(rows0, ref, item, ledger.start, idx, scoring.index, scoring.notices);
    }

    // The data is None when set() rejects it.
    method Create(ref: Ref, data: Option<Entity>) returns (r: Outcome)
      requires Valid() && (data.Some? ==> Fits(ref, data.value))
      modifies this`rows, this`log, scoring, scoring.Repr
      ensures Valid() && fresh(scoring.Repr - old(scoring.Repr))
      ensures r == if ref in old(rows) then InvalidKey
                   else if data.None? || !Supported(old(rows), data.value) then InvalidData else Done
      ensures r.Done? ==> rows == old(rows)[ref := data.value] && log == old(log) + [Created(ref, data.value)]
      ensures !r.Done? ==> rows == old(rows) && log == old(log)
      ensures old(Agreeing()) && (r.Done? ==> Tells(TablesOf(old(rows)), data.value)) ==>
                (Agreeing() <==> (r.Done? ==> Regular(TablesOf(old(rows)), ref.key, data.value)))
    {
      if ref in rows {
        return InvalidKey;
      }
      if data.Some? {
        ConsistentIff(rows, data.value);
      }
      if data.None? || !Consistent(rows, data.value) {
        return InvalidData;
      }
      Put(ref, data.value);
      return Done;
    }

    method Update(ref: Ref, data: Option<Entity>) returns (r: Outcome)
      requires Valid() && (data.Some? ==> Fits(ref, data.value))
      modifies this`rows, this`log, scoring, scoring.Repr
      ensures Valid() && fresh(scoring.Repr - old(scoring.Repr))
      ensures r == if ref !in old(rows) then InvalidKey
                   else if data.None? || !Supported(old(rows), data.value) then InvalidData else Done
      ensures r.Done? ==> rows == old(rows)[ref := data.value] && log == old(log) + [Updated(ref, old(rows)[ref], data.value)]
      ensures !r.Done? ==> rows == old(rows) && log == old(log)
      ensures old(Agreeing()) && (r.Done? ==> Tells(TablesOf(old(rows)), data.value)) ==>
                (Agreeing() <==> (r.Done? ==> Regular(TablesOf(old(rows)), ref.key, data.value)))
    {
      if ref !in rows {
        return InvalidKey;
      }
      if data.Some? {
        ConsistentIff(rows, data.value);
      }
      if data.None? || !Consistent(rows, data.value) {
        return InvalidData;
      }
      Put(ref, data.value);
      return Done;
    }

    // The scores are up to date, and no stored one is negative.
    ghost predicate InStep()
      requires Typed(rows)
      reads this, scoring
    {
      Agreeing() && NonNegativeTable(ChsIn(rows))
    }

    // Every item is checked before the first is stored.
    method MergeList(kind: Kind, data: map<string, Option<Entity>>) returns (r: Outcome)
      requires Valid() && forall k :: k in data && data[k].Some? ==> Fits(Ref(kind, k), data[k].value)
      modifies this`rows, this`log, scoring, scoring.Repr
      ensures Valid() && fresh(scoring.Repr - old(scoring.Repr)) && old(log) <= log
      ensures r.Done? <==> AllAcceptable(old(rows), data)
      ensures r.Done? ==> rows == Merged(old(rows), kind, Values(data), data.Keys)
      ensures r.Done? ==> Announced(old(rows), kind, Values(data), data.Keys, log[|old(log)|..])
      ensures !r.Done? ==> r == InvalidData && rows == old(rows) && log == old(log)
      ensures old(InStep()) && AllTame(old(rows), kind, Values(data)) ==> Agreeing()
      ensures r.Done? && old(InStep()) && !kind.SubchangeKind? ==>
                (Agreeing() <==> AllRegular(TablesOf(old(rows)), Values(data), data.Keys))
    {
      var ok := CheckAll(kind, data);
      if !ok {
        return InvalidData;
      }
      ghost var was := log;
      StoreAll(kind, Values(data));
      SplitAt(was, log);
      r := Done;
    }

    method CheckAll(kind: Kind, data: map<string, Option<Entity>>) returns (ok: bool)
      requires forall k :: k in data && data[k].Some? ==> Fits(Ref(kind, k), data[k].value)
      ensures ok <==> AllAcceptable(rows, data)
      ensures ok ==> AllFit(rows, kind, Values(data)) && Values(data).Keys == data.Keys
    {
      forall k | k in data ensures Acceptable(rows, k, data[k]) <==> KeyAllowed(k) && data[k].Some? && Consistent(rows, data[k].value) {
        if data[k].Some? {
          ConsistentIff(rows, data[k].value);
        }
      }
      var todo := data.Keys;
      while todo != {}
        invariant todo <= data.Keys
        invariant forall k :: k in data && k !in todo ==> KeyAllowed(k) && data[k].Some? && Consistent(rows, data[k].value)
        decreases |todo|
      {
        var k :| k in todo;
        if !KeyAllowed(k) || data[k].None? || !Consistent(rows, data[k].value) {
          return false;
        }
        todo := todo - {k};
      }
      ValuesAre(data);
      return true;
    }

    method StoreAll(kind: Kind, items: map<string, Entity>)
      requires Valid() && AllFit(rows, kind, items)
      modifies this`rows, this`log, scoring, scoring.Repr
      ensures Valid() && fresh(scoring.Repr - old(scoring.Repr)) && old(log) <= log
      ensures rows == Merged(old(rows), kind, items, items.Keys)
      ensures Announced(old(rows), kind, items, items.Keys, log[|old(log)|..])
      ensures old(InStep()) && AllTame(old(rows), kind, items) ==> Agreeing()
      ensures old(InStep()) && !kind.SubchangeKind? ==> (Agreeing() <==> AllRegular(TablesOf(old(rows)), items, items.Keys))
    {
      ghost var l := List(rows, kind, items, scoring.index, InStep(), AllTame(rows, kind, items));
      MidwayStart(l);
      ghost var es := StoreEach(l, kind, items);
      assert log[|old(log)|..] == es;
      MidwayEnd(l, es, rows, scoring.index);
    }

    method StoreEach(ghost l: List, kind: Kind, items: map<string, Entity>) returns (ghost es: seq<Fired>)
      requires Valid() && Proper(l) && l.kind == kind && l.items == items && Midway(l, {}, [], rows, scoring.index)
      modifies this`rows, this`log, scoring, scoring.Repr
      ensures Valid() && fresh(scoring.Repr - old(scoring.Repr)) && log == old(log) + es
      ensures Midway(l, items.Keys, es, rows, scoring.index)
    {
      var todo := items.Keys;
      ghost var done: set<string> := {};
      es := [];
      while todo != {}
        invariant Valid() && fresh(scoring.Repr - old(scoring.Repr))
        invariant Parted(items.Keys, todo, done) && log == old(log) + es
        invariant Midway(l, done, es, rows, scoring.index)
        decreases |todo|
      {
        todo, done, es := StoreNext(l, kind, items, todo, done, es, old(log));
      }
      PartAll(items.Keys, todo, done);
    }

    method StoreNext(ghost l: List, kind: Kind, items: map<string, Entity>, todo: set<string>, ghost done: set<string>,
                     ghost es: seq<Fired>, ghost log0: seq<Fired>)
      returns (rest: set<string>, ghost more: set<string>, ghost fs: seq<Fired>)
      requires Valid() && Proper(l) && Parted(items.Keys, todo, done) && todo != {} && l.kind == kind && l.items == items
      requires Midway(l, done, es, rows, scoring.index) && log == log0 + es
      modifies this`rows, this`log, scoring, scoring.Repr
      ensures Valid() && fresh(scoring.Repr - old(scoring.Repr))
      ensures Parted(items.Keys, rest, more) && |rest| < |todo| && log == log0 + fs
      ensures Midway(l, more, fs, rows, scoring.index)
    {
      var k :| k in todo;
      fs := StoreOne(l, kind, k, items[k], todo, done, es, log0);
      rest, more := todo - {k}, done + {k};
    }

    method StoreOne(ghost l: List, kind: Kind, k: string, item: Entity, ghost todo: set<string>, ghost done: set<string>,
                    ghost es: seq<Fired>, ghost log0: seq<Fired>)
      returns (ghost fs: seq<Fired>)
      requires Valid() && Proper(l) && Parted(l.items.Keys, todo, done) && k in todo && l.kind == kind && l.items[k] == item
      requires Midway(l, done, es, rows, scoring.index) && log == log0 + es
      modifies this`rows, this`log, scoring, scoring.Repr
      ensures Valid() && fresh(scoring.Repr - old(scoring.Repr))
      ensures Parted(l.items.Keys, todo - {k}, done + {k}) && log == log0 + fs
      ensures Midway(l, done + {k}, fs, rows, scoring.index)
    {
      ghost var now, idx := rows, scoring.index;
      ghost var e := Event(rows, Ref(kind, k), item);
      fs := es + [e];
      PartOne(l.items.Keys, todo, done, k);
      MidwayItem(l, done, es, now, idx, k);
      Put(Ref(kind, k), item);
      AppendTwice(log0, es, [e]);
      MidwayStep(l, done, es, now, idx, k, rows, scoring.index);
    }

    // ----- Store.delete_list -----

    // All entities of a kind go, with everything that refers to them, each with
    // one callback and none before what refers to it.
    method DeleteList(kind: Kind)
      requires Valid()
      modifies this`rows, this`log, this`ledger, scoring, scoring.Repr
      ensures Valid() && scoring.Repr == old(scoring.Repr) && old(log) <= log
      ensures rows == WithoutKeys(old(rows), kind, KeysOf(old(rows), kind))
      ensures forall r :: r in rows <==> r in old(rows) && forall k :: k in KeysOf(old(rows), kind) ==> !Falls(old(rows), Ref(kind, k), r)
      ensures Logged(old(rows), old(rows).Keys - rows.Keys, log[|old(log)|..])
      ensures old(Agreeing()) ==> Agreeing()
    {
      WithoutKeysOnFields(rows, kind, KeysOf(rows, kind));
      ghost var ds := DeleteKeys(rows, kind, KeysOf(rows, kind), Agreeing());
      assert log[|old(log)|..] == ds;
    }

    method DeleteKeys(ghost rows0: Rows, kind: Kind, keys: set<string>, ghost agreed: bool) returns (ghost ds: seq<Fired>)
      requires Valid() && rows == rows0
      requires forall k :: k in keys ==> Ref(kind, k) in rows0
      requires agreed ==> Agreeing()
      modifies this`rows, this`log, this`ledger, scoring, scoring.Repr
      ensures Valid() && scoring.Repr == old(scoring.Repr) && log == old(log) + ds
      ensures Emptied(rows0, kind, keys, rows, ds)
      ensures agreed ==> Agreeing()
    {
      var todo := keys;
      ghost var done: set<string> := {};
      ds := [];
      EmptiedNone(rows, kind);
      while todo != {}
        invariant Valid() && scoring.Repr == old(scoring.Repr)
        invariant Parted(keys, todo, done) && log == old(log) + ds
        invariant Emptied(rows0, kind, done, rows, ds)
        invariant agreed ==> Agreeing()
        decreases |todo|
      {
        var k :| k in todo;
        ds := DeleteOne(rows0, kind, keys, todo, done, k, ds, old(log), agreed);
        todo := todo - {k};
        done := done + {k};
      }
      PartAll(keys, todo, done);
    }

    method DeleteOne(ghost rows0: Rows, kind: Kind, ghost keys: set<string>, ghost todo: set<string>, ghost done: set<string>, k: string,
                     ghost ds: seq<Fired>, ghost log0: seq<Fired>, ghost agreed: bool) returns (ghost more: seq<Fired>)
      requires Valid() && Typed(rows0) && Parted(keys, todo, done) && k in todo && Ref(kind, k) in rows0
      requires Emptied(rows0, kind, done, rows, ds) && log == log0 + ds
      requires agreed ==> Agreeing()
      modifies this`rows, this`log, this`ledger, scoring, scoring.Repr
      ensures Valid() && scoring.Repr == old(scoring.Repr) && Parted(keys, todo - {k}, done + {k})
      ensures Emptied(rows0, kind, done + {k}, rows, more) && log == log0 + more
      ensures agreed ==> Agreeing()
    {
      ghost var now := rows;
      PartOne(keys, todo, done, k);
      EmptiedKey(rows0, kind, done, now, ds, k);
      var ok := HandleDelete(Ref(kind, k));
      ghost var es := log[|old(log)|..];
      SplitAt(old(log), log);
      AppendTwice(log0, ds, es);
      more := ds + es;
      EmptiedMore(rows0, kind, done, now, ds, k, rows, es);
    }
  }
}
