// Entities put into the stores: what the scoring callbacks do to the scores,
// and exactly when these still agree with the stored tables.
module Puts {
  import opened Basics
  import opened ScoreReplay
  import opened ChangeOrder
  import opened ScoreOps
  import opened ScoreIndex
  import opened ScoreAgreement
  import opened ScoringStores
  import opened Entities
  import opened Ledgers

  predicate Fits(ref: Ref, item: Entity) {
    KindOf(item) == ref.kind && (ref.kind.SubchangeKind? ==> item.change.key == ref.key)
  }

  lemma PutClosed(rows: Rows, ref: Ref, item: Entity)
    requires Closed(rows) && Consistent(rows, item)
    ensures Closed(rows[ref := item])
  {
  }

  // ----- the tables after an entity is put -----

  function PutIn(t: Tables, key: string, item: Entity): Tables {
    match item
    case Sub(s) => t.(subs := t.subs[key := s])
    case Chg(c) => t.(chs := t.chs[key := c])
    case Task(_, mode) => t.(modes := t.modes[key := mode])
    case _ => t
  }

  lemma KeysPut(rows: Rows, ref: Ref, item: Entity, kind: Kind)
    ensures KeysOf(rows[ref := item], kind) == if ref.kind == kind then KeysOf(rows, kind) + {ref.key} else KeysOf(rows, kind)
  {
    forall k ensures k in KeysOf(rows[ref := item], kind) <==> k in KeysOf(rows, kind) || (ref.kind == kind && k == ref.key) {
      KeyIn(rows, kind, k);
      KeyIn(rows[ref := item], kind, k);
    }
  }

  lemma PutSubs(rows: Rows, ref: Ref, item: Entity)
    requires Typed(rows) && Fits(ref, item)
    ensures Typed(rows[ref := item])
    ensures SubsIn(rows[ref := item]) == if item.Sub? then SubsIn(rows)[ref.key := item.sub] else SubsIn(rows)
  {
    KeysPut(rows, ref, item, SubmissionKind);
  }

  lemma PutChs(rows: Rows, ref: Ref, item: Entity)
    requires Typed(rows) && Fits(ref, item)
    ensures Typed(rows[ref := item])
    ensures ChsIn(rows[ref := item]) == if item.Chg? then ChsIn(rows)[ref.key := item.change] else ChsIn(rows)
  {
    KeysPut(rows, ref, item, SubchangeKind);
  }

  lemma PutModes(rows: Rows, ref: Ref, item: Entity)
    requires Typed(rows) && Fits(ref, item)
    ensures Typed(rows[ref := item])
    ensures ModesIn(rows[ref := item]) == if item.Task? then ModesIn(rows)[ref.key := item.mode] else ModesIn(rows)
  {
    KeysPut(rows, ref, item, TaskKind);
  }

  lemma PutTables(rows: Rows, ref: Ref, item: Entity)
    requires Typed(rows) && Fits(ref, item)
    ensures Typed(rows[ref := item]) && TablesOf(rows[ref := item]) == PutIn(TablesOf(rows), ref.key, item)
  {
    PutSubs(rows, ref, item);
    PutChs(rows, ref, item);
    PutModes(rows, ref, item);
    PutEach(TablesOf(rows), TablesOf(rows[ref := item]), ref.key, item);
  }

  lemma PutEach(t: Tables, u: Tables, key: string, item: Entity)
    requires u.subs == if item.Sub? then t.subs[key := item.sub] else t.subs
    requires u.chs == if item.Chg? then t.chs[key := item.change] else t.chs
    requires u.modes == if item.Task? then t.modes[key := item.mode] else t.modes
    ensures u == PutIn(t, key, item)
  {
  }

  // ----- when the scores agree with the tables afterwards -----

  predicate Sound(t: Tables) {
    && WellKeyed(t.chs) && Referenced(t.subs, t.chs)
    && forall k :: k in t.subs ==> t.subs[k].task in t.modes
  }

  // A task keeps its mode or has no submissions.
  predicate RegularTask(t: Tables, key: string, mode: Mode) {
    key in t.modes ==> mode == t.modes[key] || forall k :: k in t.subs ==> t.subs[k].task != key
  }

  // A submission keeps its user and task, or has no changes and is welcome where
  // it goes.
  ghost predicate RegularSub(t: Tables, key: string, s: Submission) {
    (key in t.subs && PairOf(t.subs[key]) == PairOf(s)) ||
    ((forall k :: k in t.chs ==> t.chs[k].submission != key) && WelcomeAt(t.subs, t.chs, t.modes, PairOf(s)))
  }

  // A change moves to another submission or is undisturbed.
  predicate RegularCh(t: Tables, c: Change) {
    c.key in t.chs && c.submission in t.subs && t.chs[c.key].submission == c.submission ==> Undisturbed(t.subs, t.chs, c)
  }

  // The condition under which scores that agree with the tables still do after
  // an entity is put there.
  ghost predicate Regular(t: Tables, key: string, item: Entity) {
    match item
    case Task(_, mode) => RegularTask(t, key, mode)
    case Sub(s) => RegularSub(t, key, s)
    case Chg(c) => RegularCh(t, c)
    case _ => true
  }

  ghost predicate Tells(t: Tables, item: Entity) {
    item.Sub? ==> TellingAt(t.subs, t.chs, t.modes, PairOf(item.sub))
  }

  // The scores for these tables are settled: they agree exactly on a condition.
  ghost predicate Settled(t: Tables, u: Tables, idx: Index, after: Index, regular: bool) {
    Matches(idx, t) ==> (Matches(after, u) <==> regular)
  }

  lemma NewSubSettled(t: Tables, key: string, s: Submission, idx: Index, mode: Mode, after: Index)
    requires Sound(t) && key !in t.subs && s.task in t.modes && mode == t.modes[s.task]
    requires TellingAt(t.subs, t.chs, t.modes, PairOf(s)) && after == CreateSub(idx, key, s, mode)
    ensures Settled(t, t.(subs := t.subs[key := s]), idx, after, RegularSub(t, key, s))
  {
    if Matches(idx, t) {
      CreateSubAgreesIff(idx, t.subs, t.chs, t.modes, key, s);
    }
  }

  lemma OldSubSettled(t: Tables, key: string, was: Submission, s: Submission, idx: Index, mode: Mode, after: Index)
    requires Sound(t) && key in t.subs && t.subs[key] == was && s.task in t.modes && mode == t.modes[s.task]
    requires TellingAt(t.subs, t.chs, t.modes, PairOf(s)) && Has(idx, was) && after == UpdateSub(idx, key, was, s, mode)
    ensures Settled(t, t.(subs := t.subs[key := s]), idx, after, RegularSub(t, key, s))
  {
    if Matches(idx, t) {
      if PairOf(was) == PairOf(s) {
        UpdateSubAgrees(idx, t.subs, t.chs, t.modes, key, s);
      } else {
        MoveSubAgreesIff(idx, t.subs, t.chs, t.modes, key, s);
      }
    }
  }

  lemma NewChSettled(t: Tables, c: Change, s: Submission, idx: Index, after: Index)
    requires Sound(t) && c.key !in t.chs && c.submission in t.subs && t.subs[c.submission] == s
    requires Listed(idx, c, s) && after == CreateCh(idx, c, s)
    ensures Settled(t, t.(chs := t.chs[c.key := c]), idx, after, RegularCh(t, c))
  {
    if Matches(idx, t) {
      CreateChAgrees(idx, t.subs, t.chs, t.modes, c);
    }
  }

  lemma OldChSettled(t: Tables, was: Change, c: Change, w: Submission, s: Submission, idx: Index, after: Index)
    requires Sound(t) && c.key in t.chs && t.chs[c.key] == was
    requires c.submission in t.subs && t.subs[c.submission] == s && was.submission in t.subs && t.subs[was.submission] == w
    requires Has(idx, w) && Listed(idx, c, s) && Listed(DeleteCh(idx, was, Some(w)), c, s)
    requires after == UpdateCh(idx, was, c, Some(w), s)
    ensures Settled(t, t.(chs := t.chs[c.key := c]), idx, after, RegularCh(t, c))
  {
    if Matches(idx, t) {
      AnyUpdateChAgreesIff(idx, t.subs, t.chs, t.modes, c);
    }
  }

  lemma MoreModes(idx: Index, subs: Subs, chs: Chs, modes: Modes, task: string, mode: Mode)
    requires Agrees(idx, subs, chs, modes) && task !in modes
    ensures Agrees(idx, subs, chs, modes[task := mode])
  {
    forall p | p in idx ensures RightAt(idx, subs, chs, modes[task := mode], p) {
      assert RightAt(idx, subs, chs, modes, p);
    }
  }

  lemma TaskSettled(t: Tables, key: string, mode: Mode, idx: Index)
    ensures Settled(t, t.(modes := t.modes[key := mode]), idx, idx, RegularTask(t, key, mode))
  {
    if Matches(idx, t) {
      if key in t.modes {
        ChangeModeAgreesIff(idx, t.subs, t.chs, t.modes, key, mode);
      } else {
        MoreModes(idx, t.subs, t.chs, t.modes, key, mode);
      }
    }
  }

  // ----- what the callbacks for a put entity achieve -----

  // Callbacks for a submission bring no change to any score; entities other than
  // submissions and changes fire no scoring callback.
  ghost predicate Quiet(item: Entity, idx: Index, after: Index) {
    match item
    case Sub(_) => forall c :: Held(after, c) ==> Held(idx, c)
    case Chg(_) => true
    case _ => after == idx
  }

  ghost predicate SettledBy(t: Tables, key: string, item: Entity, idx: Index, after: Index) {
    Tells(t, item) ==> Settled(t, PutIn(t, key, item), idx, after, Regular(t, key, item))
  }

  // Some score has this change in its list.
  ghost predicate Held(idx: Index, c: Change) {
    exists p :: p in idx && c in idx[p].changes
  }

  // A stored change of a stored submission is in the list of no score.
  ghost predicate Lost(idx: Index, t: Tables) {
    exists x :: x in t.chs && t.chs[x].submission in t.subs && !Held(idx, t.chs[x])
  }

  // A submission that takes its changes nowhere loses them.
  ghost predicate Losing(t: Tables, key: string, item: Entity, idx: Index, after: Index) {
    item.Sub? && Matches(idx, t) && WelcomeAt(t.subs, t.chs, t.modes, PairOf(item.sub)) && !RegularSub(t, key, item.sub) ==>
      Lost(after, t.(subs := t.subs[key := item.sub]))
  }

  // All that the scoring store makes of a put entity.
  ghost predicate Heard(t: Tables, key: string, item: Entity, idx: Index, after: Index) {
    SettledBy(t, key, item, idx, after) && Quiet(item, idx, after) && Losing(t, key, item, idx, after)
  }

  ghost predicate Good(rows: Rows, ref: Ref, item: Entity, start: Index, idx: Index, after: Index, notices: seq<Notice>)
    requires Typed(rows)
  {
    && Typed(rows[ref := item])
    && Booked(rows[ref := item], start, after, notices)
    && Heard(TablesOf(rows), ref.key, item, idx, after)
  }

  lemma SoundTables(rows: Rows)
    requires Typed(rows) && Closed(rows)
    ensures Sound(TablesOf(rows))
  {
    TablesReferenced(rows);
  }

  function ModeOf(rows: Rows, s: Submission): Mode
    requires Typed(rows) && Ref(TaskKind, s.task) in rows
  {
    rows[Ref(TaskKind, s.task)].mode
  }

  // The stored submission of a change.
  function HomeOf(rows: Rows, c: Change): Option<Submission>
    requires Typed(rows)
  {
    var home := Ref(SubmissionKind, c.submission);
    if home in rows then Some(rows[home].sub) else None
  }

  lemma TaskStored(rows: Rows, s: Submission)
    requires Typed(rows) && Consistent(rows, Sub(s))
    ensures Ref(TaskKind, s.task) in rows && s.task in ModesIn(rows) && ModesIn(rows)[s.task] == ModeOf(rows, s)
  {
    assert Ref(TaskKind, s.task) in Refs(Sub(s));
    ModeAt(rows, s.task);
  }

  lemma HomeAt(rows: Rows, c: Change)
    requires Typed(rows) && Consistent(rows, Chg(c))
    ensures HomeOf(rows, c).Some? && c.submission in SubsIn(rows) && SubsIn(rows)[c.submission] == HomeOf(rows, c).value
  {
    assert Ref(SubmissionKind, c.submission) in Refs(Chg(c));
    SubAt(rows, c.submission);
  }

  lemma StoredCh(rows: Rows, ref: Ref)
    requires Typed(rows) && Closed(rows) && ref in rows && ref.kind.SubchangeKind?
    ensures ref.key in ChsIn(rows) && ChsIn(rows)[ref.key] == rows[ref].change && rows[ref].change.key == ref.key
    ensures Consistent(rows, Chg(rows[ref].change))
  {
    ChAt(rows, ref.key);
    assert rows[ref] == Chg(rows[ref].change);
  }

  // ----- a submission -----

  lemma CreateHolds(idx: Index, k: string, s: Submission, mode: Mode, c: Change)
    requires Held(CreateSub(idx, k, s, mode), c)
    ensures Held(idx, c)
  {
    var after := CreateSub(idx, k, s, mode);
    var p :| p in after && c in after[p].changes;
    assert p in idx && c in idx[p].changes;
  }

  lemma DeleteHolds(idx: Index, k: string, s: Submission, c: Change)
    requires Has(idx, s) && Held(DeleteSub(idx, k, s), c)
    ensures Held(idx, c)
  {
    var after := DeleteSub(idx, k, s);
    var p :| p in after && c in after[p].changes;
    assert p in idx && c in idx[p].changes;
  }

  lemma UpdateHolds(idx: Index, k: string, was: Submission, s: Submission, mode: Mode, c: Change)
    requires Has(idx, was) && Held(UpdateSub(idx, k, was, s, mode), c)
    ensures Held(idx, c)
  {
    if PairOf(was) != PairOf(s) {
      CreateHolds(DeleteSub(idx, k, was), k, s, mode, c);
      DeleteHolds(idx, k, was, c);
    } else {
      var after := UpdateSub(idx, k, was, s, mode);
      var p :| p in after && c in after[p].changes;
      assert p in idx && c in idx[p].changes;
    }
  }

  lemma QuietCreate(idx: Index, k: string, s: Submission, mode: Mode)
    ensures Quiet(Sub(s), idx, CreateSub(idx, k, s, mode))
  {
    forall c | Held(CreateSub(idx, k, s, mode), c) ensures Held(idx, c) {
      CreateHolds(idx, k, s, mode, c);
    }
  }

  lemma QuietUpdate(idx: Index, k: string, was: Submission, s: Submission, mode: Mode)
    requires Has(idx, was)
    ensures Quiet(Sub(s), idx, UpdateSub(idx, k, was, s, mode))
  {
    forall c | Held(UpdateSub(idx, k, was, s, mode), c) ensures Held(idx, c) {
      UpdateHolds(idx, k, was, s, mode, c);
    }
  }

  lemma NewSubBooked(rows: Rows, ref: Ref, s: Submission, start: Index, idx: Index, notices: seq<Notice>)
    requires Typed(rows) && ref !in rows && ref.kind.SubmissionKind? && Consistent(rows, Sub(s))
    requires Booked(rows, start, idx, notices)
    ensures Typed(rows[ref := Sub(s)]) && Ref(TaskKind, s.task) in rows
    ensures var after := CreateSub(idx, ref.key, s, ModeOf(rows, s));
            Booked(rows[ref := Sub(s)], start, after, notices + Told(idx, after, PairOf(s)))
  {
    TaskStored(rows, s);
    KeyIn(rows, SubmissionKind, ref.key);
    PutSubs(rows, ref, Sub(s));
    CreateSubInSync(idx, SubsIn(rows), ref.key, s, ModeOf(rows, s));
    CreateSubFaithful(notices, start, idx, ref.key, s, ModeOf(rows, s));
  }

  lemma PutSubIn(t: Tables, key: string, s: Submission)
    ensures PutIn(t, key, Sub(s)) == t.(subs := t.subs[key := s])
    ensures Regular(t, key, Sub(s)) <==> RegularSub(t, key, s)
    ensures Tells(t, Sub(s)) <==> TellingAt(t.subs, t.chs, t.modes, PairOf(s))
  {
  }

  lemma NewSubSettledBy(t: Tables, key: string, s: Submission, mode: Mode, idx: Index, after: Index)
    requires Sound(t) && key !in t.subs && s.task in t.modes && mode == t.modes[s.task] && after == CreateSub(idx, key, s, mode)
    ensures SettledBy(t, key, Sub(s), idx, after)
  {
    PutSubIn(t, key, s);
    if Tells(t, Sub(s)) {
      NewSubSettled(t, key, s, idx, mode, after);
    }
  }

  lemma HeldIsStored(idx: Index, t: Tables, c: Change)
    requires Matches(idx, t) && Held(idx, c)
    ensures exists x :: x in t.chs && t.chs[x] == c
  {
    var p :| p in idx && c in idx[p].changes;
    assert RightAt(idx, t.subs, t.chs, t.modes, p);
    ScoreReflects(t.subs, t.chs, t.modes[p.task], p);
    assert c in Elems(idx[p].changes);
    var x :| x in ChsOf(t.subs, t.chs, p) && ChsOf(t.subs, t.chs, p)[x] == c;
    assert t.chs[x] == c;
  }

  lemma MovedIsLost(t: Tables, key: string, was: Submission, s: Submission, mode: Mode, idx: Index, after: Index, x: string)
    requires Matches(idx, t) && key in t.subs && t.subs[key] == was && PairOf(was) != PairOf(s)
    requires Has(idx, was) && after == UpdateSub(idx, key, was, s, mode)
    requires x in t.chs && t.chs[x].submission == key
    ensures Lost(after, t.(subs := t.subs[key := s]))
  {
    var less := DeleteSub(idx, key, was);
    var some := Tables(t.subs - {key}, Without(t.chs, key), t.modes);
    DeleteSubAgrees(idx, t.subs, t.chs, t.modes, key);
    if Held(after, t.chs[x]) {
      CreateHolds(less, key, s, mode, t.chs[x]);
      HeldIsStored(less, some, t.chs[x]);
    }
    var u := t.(subs := t.subs[key := s]);
    assert x in u.chs && u.chs[x].submission in u.subs;
  }

  lemma OldSubLosing(t: Tables, key: string, was: Submission, s: Submission, mode: Mode, idx: Index, after: Index)
    requires key in t.subs && t.subs[key] == was && Has(idx, was) && after == UpdateSub(idx, key, was, s, mode)
    ensures Losing(t, key, Sub(s), idx, after)
  {
    if Matches(idx, t) && PairOf(was) != PairOf(s) {
      if x :| x in t.chs && t.chs[x].submission == key {
        MovedIsLost(t, key, was, s, mode, idx, after, x);
      }
    }
  }

  lemma NewSubLosing(t: Tables, key: string, s: Submission, idx: Index, after: Index)
    requires Sound(t) && key !in t.subs
    ensures Losing(t, key, Sub(s), idx, after)
  {
  }

  lemma NewSubFacts(rows: Rows, ref: Ref, s: Submission)
    requires Typed(rows) && Closed(rows) && ref !in rows && ref.kind.SubmissionKind? && Consistent(rows, Sub(s))
    ensures Sound(TablesOf(rows)) && ref.key !in TablesOf(rows).subs && s.task in TablesOf(rows).modes
    ensures Ref(TaskKind, s.task) in rows && TablesOf(rows).modes[s.task] == ModeOf(rows, s)
  {
    TaskStored(rows, s);
    KeyIn(rows, SubmissionKind, ref.key);
    SoundTables(rows);
  }

  lemma NewSubGood(rows: Rows, ref: Ref, s: Submission, start: Index, idx: Index, notices: seq<Notice>, after: Index, all: seq<Notice>)
    requires Typed(rows) && Closed(rows) && ref !in rows && ref.kind.SubmissionKind? && Consistent(rows, Sub(s))
    requires Booked(rows, start, idx, notices)
    requires Ref(TaskKind, s.task) in rows && after == CreateSub(idx, ref.key, s, ModeOf(rows, s))
    requires all == notices + Told(idx, after, PairOf(s))
    ensures Good(rows, ref, Sub(s), start, idx, after, all)
  {
    NewSubBooked(rows, ref, s, start, idx, notices);
    NewSubFacts(rows, ref, s);
    NewSubSettledBy(TablesOf(rows), ref.key, s, ModeOf(rows, s), idx, after);
    QuietCreate(idx, ref.key, s, ModeOf(rows, s));
    NewSubLosing(TablesOf(rows), ref.key, s, idx, after);
  }

  // The callbacks find what they look for.
  lemma OldSubReady(rows: Rows, ref: Ref, s: Submission, idx: Index)
    requires Typed(rows) && ref in rows && ref.kind.SubmissionKind? && Consistent(rows, Sub(s)) && InSync(idx, SubsIn(rows))
    ensures Ref(TaskKind, s.task) in rows
    ensures Has(idx, rows[ref].sub) && ref.key in idx[PairOf(rows[ref].sub)].view.subs
  {
    TaskStored(rows, s);
    SubAt(rows, ref.key);
    InSyncListed(idx, SubsIn(rows), ref.key);
  }

  lemma OldSubBooked(rows: Rows, ref: Ref, s: Submission, start: Index, idx: Index, notices: seq<Notice>)
    requires Typed(rows) && ref in rows && ref.kind.SubmissionKind? && Consistent(rows, Sub(s))
    requires Booked(rows, start, idx, notices)
    ensures Typed(rows[ref := Sub(s)]) && Ref(TaskKind, s.task) in rows
    ensures var was := rows[ref].sub;
            && Has(idx, was) && ref.key in idx[PairOf(was)].view.subs
            && Booked(rows[ref := Sub(s)], start, UpdateSub(idx, ref.key, was, s, ModeOf(rows, s)),
                      notices + ToldByMove(idx, ref.key, was, s, ModeOf(rows, s)))
  {
    TaskStored(rows, s);
    PutSubs(rows, ref, Sub(s));
    SubAt(rows, ref.key);
    MovedBooked(SubsIn(rows), ref.key, s, ModeOf(rows, s), start, idx, notices);
  }

  lemma MovedBooked(subs: Subs, k: string, s: Submission, mode: Mode, start: Index, idx: Index, notices: seq<Notice>)
    requires InSync(idx, subs) && Faithful(notices, start, idx) && k in subs
    ensures Has(idx, subs[k]) && k in idx[PairOf(subs[k])].view.subs
    ensures var after := UpdateSub(idx, k, subs[k], s, mode);
            InSync(after, subs[k := s]) && Faithful(notices + ToldByMove(idx, k, subs[k], s, mode), start, after)
  {
    InSyncListed(idx, subs, k);
    UpdateSubInSync(idx, subs, k, s, mode);
    UpdateSubFaithful(notices, start, idx, k, subs[k], s, mode);
  }

  lemma OldSubGood(rows: Rows, ref: Ref, s: Submission, start: Index, idx: Index, notices: seq<Notice>, after: Index, all: seq<Notice>)
    requires Typed(rows) && Closed(rows) && ref in rows && ref.kind.SubmissionKind? && Consistent(rows, Sub(s))
    requires Booked(rows, start, idx, notices)
    requires Ref(TaskKind, s.task) in rows && Has(idx, rows[ref].sub)
    requires after == UpdateSub(idx, ref.key, rows[ref].sub, s, ModeOf(rows, s))
    requires all == notices + ToldByMove(idx, ref.key, rows[ref].sub, s, ModeOf(rows, s))
    ensures Good(rows, ref, Sub(s), start, idx, after, all)
  {
    OldSubFacts(rows, ref, s);
    OldSubBooked(rows, ref, s, start, idx, notices);
    OldSubSettledBy(TablesOf(rows), ref.key, rows[ref].sub, s, ModeOf(rows, s), idx, after);
    QuietUpdate(idx, ref.key, rows[ref].sub, s, ModeOf(rows, s));
    OldSubLosing(TablesOf(rows), ref.key, rows[ref].sub, s, ModeOf(rows, s), idx, after);
  }

  lemma OldSubFacts(rows: Rows, ref: Ref, s: Submission)
    requires Typed(rows) && Closed(rows) && ref in rows && ref.kind.SubmissionKind? && Consistent(rows, Sub(s))
    ensures rows[ref].Sub? && Sound(TablesOf(rows)) && ref.key in TablesOf(rows).subs && TablesOf(rows).subs[ref.key] == rows[ref].sub
    ensures Ref(TaskKind, s.task) in rows && s.task in TablesOf(rows).modes && TablesOf(rows).modes[s.task] == ModeOf(rows, s)
  {
    TaskStored(rows, s);
    SubAt(rows, ref.key);
    SoundTables(rows);
  }

  lemma OldSubSettledBy(t: Tables, key: string, was: Submission, s: Submission, mode: Mode, idx: Index, after: Index)
    requires Sound(t) && key in t.subs && t.subs[key] == was && s.task in t.modes && mode == t.modes[s.task]
    requires Has(idx, was) && after == UpdateSub(idx, key, was, s, mode)
    ensures SettledBy(t, key, Sub(s), idx, after)
  {
    PutSubIn(t, key, s);
    if Tells(t, Sub(s)) {
      OldSubSettled(t, key, was, s, idx, mode, after);
    }
  }

  // ----- a change -----

  lemma NewChReady(rows: Rows, ref: Ref, c: Change, idx: Index)
    requires Typed(rows) && Consistent(rows, Chg(c)) && InSync(idx, SubsIn(rows))
    ensures HomeOf(rows, c).Some? && Listed(idx, c, HomeOf(rows, c).value)
  {
    HomeAt(rows, c);
    InSyncListed(idx, SubsIn(rows), c.submission);
  }

  lemma NewChGood(rows: Rows, ref: Ref, c: Change, s: Submission, start: Index, idx: Index, notices: seq<Notice>, after: Index, all: seq<Notice>)
    requires Typed(rows) && Closed(rows) && ref !in rows && Fits(ref, Chg(c)) && Consistent(rows, Chg(c))
    requires Booked(rows, start, idx, notices)
    requires HomeOf(rows, c) == Some(s) && Listed(idx, c, s)
    requires after == CreateCh(idx, c, s) && all == notices + Told(idx, after, PairOf(s))
    ensures Good(rows, ref, Chg(c), start, idx, after, all)
  {
    HomeAt(rows, c);
    KeyIn(rows, SubchangeKind, ref.key);
    PutSubs(rows, ref, Chg(c));
    CreateChInSync(idx, SubsIn(rows), c);
    CreateChFaithful(notices, start, idx, c, s);
    SoundTables(rows);
    NewChSettled(TablesOf(rows), c, s, idx, after);
  }

  lemma OldChReady(rows: Rows, ref: Ref, c: Change, idx: Index)
    requires Typed(rows) && Closed(rows) && ref in rows && Fits(ref, Chg(c)) && Consistent(rows, Chg(c)) && InSync(idx, SubsIn(rows))
    ensures var was := rows[ref].change;
            var t := HomeOf(rows, was);
            && HomeOf(rows, c).Some? && Listed(idx, c, HomeOf(rows, c).value)
            && t.Some? && Has(idx, t.value) && Listed(DeleteCh(idx, was, t), c, HomeOf(rows, c).value)
  {
    var was := rows[ref].change;
    NewChReady(rows, ref, c, idx);
    StoredCh(rows, ref);
    HomeAt(rows, was);
    HomeAt(rows, c);
    UpdateChInSync(idx, SubsIn(rows), was, c, HomeOf(rows, was));
  }

  lemma OldChBooked(rows: Rows, ref: Ref, c: Change, start: Index, idx: Index, notices: seq<Notice>)
    requires Typed(rows) && Closed(rows) && ref in rows && Fits(ref, Chg(c)) && Consistent(rows, Chg(c))
    requires Booked(rows, start, idx, notices)
    ensures Typed(rows[ref := Chg(c)]) && HomeOf(rows, c).Some?
    ensures var was, s := rows[ref].change, HomeOf(rows, c).value;
            var t := HomeOf(rows, was);
            && t.Some? && Has(idx, t.value) && Listed(idx, c, s) && Listed(DeleteCh(idx, was, t), c, s)
            && Booked(rows[ref := Chg(c)], start, UpdateCh(idx, was, c, t, s), notices + ToldByUpdate(idx, was, c, t, s))
  {
    var was := rows[ref].change;
    StoredCh(rows, ref);
    HomeAt(rows, was);
    HomeAt(rows, c);
    PutSubs(rows, ref, Chg(c));
    UpdateChInSync(idx, SubsIn(rows), was, c, HomeOf(rows, was));
    UpdateChFaithful(notices, start, idx, was, c, HomeOf(rows, was), SubsIn(rows)[c.submission]);
  }

  lemma OldChGood(rows: Rows, ref: Ref, c: Change, t: Submission, s: Submission, start: Index, idx: Index, notices: seq<Notice>,
                  after: Index, all: seq<Notice>)
    requires Typed(rows) && Closed(rows) && ref in rows && Fits(ref, Chg(c)) && Consistent(rows, Chg(c))
    requires Booked(rows, start, idx, notices)
    requires HomeOf(rows, c) == Some(s) && HomeOf(rows, rows[ref].change) == Some(t)
    requires Has(idx, t) && Listed(idx, c, s) && Listed(DeleteCh(idx, rows[ref].change, Some(t)), c, s)
    requires after == UpdateCh(idx, rows[ref].change, c, Some(t), s)
    requires all == notices + ToldByUpdate(idx, rows[ref].change, c, Some(t), s)
    ensures Good(rows, ref, Chg(c), start, idx, after, all)
  {
    OldChFacts(rows, ref, c, t, s);
    OldChBooked(rows, ref, c, start, idx, notices);
    OldChHeard(TablesOf(rows), rows[ref].change, c, t, s, idx, after);
  }

  lemma OldChFacts(rows: Rows, ref: Ref, c: Change, t: Submission, s: Submission)
    requires Typed(rows) && Closed(rows) && ref in rows && Fits(ref, Chg(c)) && Consistent(rows, Chg(c))
    requires HomeOf(rows, c) == Some(s) && HomeOf(rows, rows[ref].change) == Some(t)
    ensures rows[ref].Chg? && c.key == ref.key && Sound(TablesOf(rows))
    ensures c.key in TablesOf(rows).chs && TablesOf(rows).chs[c.key] == rows[ref].change
    ensures c.submission in TablesOf(rows).subs && TablesOf(rows).subs[c.submission] == s
    ensures rows[ref].change.submission in TablesOf(rows).subs && TablesOf(rows).subs[rows[ref].change.submission] == t
  {
    StoredCh(rows, ref);
    HomeAt(rows, rows[ref].change);
    HomeAt(rows, c);
    SoundTables(rows);
  }

  lemma OldChHeard(t: Tables, was: Change, c: Change, w: Submission, s: Submission, idx: Index, after: Index)
    requires Sound(t) && c.key in t.chs && t.chs[c.key] == was
    requires c.submission in t.subs && t.subs[c.submission] == s && was.submission in t.subs && t.subs[was.submission] == w
    requires Has(idx, w) && Listed(idx, c, s) && Listed(DeleteCh(idx, was, Some(w)), c, s)
    requires after == UpdateCh(idx, was, c, Some(w), s)
    ensures Heard(t, c.key, Chg(c), idx, after)
  {
    PutChIn(t, c);
    OldChSettled(t, was, c, w, s, idx, after);
  }

  lemma PutChIn(t: Tables, c: Change)
    ensures PutIn(t, c.key, Chg(c)) == t.(chs := t.chs[c.key := c])
    ensures Regular(t, c.key, Chg(c)) <==> RegularCh(t, c)
  {
  }

  // ----- anything else -----

  lemma OtherGood(rows: Rows, ref: Ref, item: Entity, start: Index, idx: Index, notices: seq<Notice>)
    requires Typed(rows) && Fits(ref, item) && !item.Sub? && !item.Chg?
    requires Booked(rows, start, idx, notices)
    ensures Good(rows, ref, item, start, idx, idx, notices)
  {
    PutSubs(rows, ref, item);
    if item.Task? {
      TaskSettled(TablesOf(rows), ref.key, item.mode, idx);
    }
  }

  lemma GoodAgreesIff(rows: Rows, ref: Ref, item: Entity, start: Index, idx: Index, after: Index, notices: seq<Notice>)
    requires Typed(rows) && Closed(rows) && Fits(ref, item) && Consistent(rows, item)
    requires Good(rows, ref, item, start, idx, after, notices)
    ensures Heard(TablesOf(rows), ref.key, item, idx, after)
    ensures Typed(rows[ref := item]) && Closed(rows[ref := item])
    ensures AgreesWith(idx, rows) && Tells(TablesOf(rows), item) ==>
              (AgreesWith(after, rows[ref := item]) <==> Regular(TablesOf(rows), ref.key, item))
  {
    PutTables(rows, ref, item);
    PutClosed(rows, ref, item);
  }
}
