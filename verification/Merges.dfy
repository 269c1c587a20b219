// Lists of entities put into one store or deleted from it, one after another in
// any order.
module Merges {
  import opened ScoreReplay
  import opened ScoreLate
  import opened ScoreOps
  import opened ScoreIndex
  import opened ScoreAgreement
  import opened Entities
  import opened Cascade
  import opened Ledgers
  import opened Puts

  ghost function Merged(rows: Rows, kind: Kind, items: map<string, Entity>, done: set<string>): Rows {
    map r | r in rows.Keys + (set k | k in items && k in done :: Ref(kind, k)) ::
      if r.kind == kind && r.key in items && r.key in done then items[r.key] else rows[r]
  }

  lemma MergedNone(rows: Rows, kind: Kind, items: map<string, Entity>)
    ensures Merged(rows, kind, items, {}) == rows
  {
  }

  lemma MergedMore(rows: Rows, kind: Kind, items: map<string, Entity>, done: set<string>, k: string)
    requires k in items && k !in done
    ensures Merged(rows, kind, items, done)[Ref(kind, k) := items[k]] == Merged(rows, kind, items, done + {k})
  {
    var a := Merged(rows, kind, items, done)[Ref(kind, k) := items[k]];
    var b := Merged(rows, kind, items, done + {k});
    forall r ensures r in a <==> r in b {
    }
  }

  lemma MergedConsistent(rows: Rows, kind: Kind, items: map<string, Entity>, done: set<string>, e: Entity)
    requires Consistent(rows, e)
    ensures Consistent(Merged(rows, kind, items, done), e)
  {
  }

  // What is stored under a key that is still to do.
  lemma MergedElsewhere(rows: Rows, kind: Kind, items: map<string, Entity>, done: set<string>, k: string)
    requires k !in done
    ensures Ref(kind, k) in Merged(rows, kind, items, done) <==> Ref(kind, k) in rows
    ensures Ref(kind, k) in rows ==> Merged(rows, kind, items, done)[Ref(kind, k)] == rows[Ref(kind, k)]
  {
  }

  predicate AllFit(rows: Rows, kind: Kind, items: map<string, Entity>) {
    forall k :: k in items ==> Fits(Ref(kind, k), items[k]) && Consistent(rows, items[k])
  }

  // ----- the callbacks of a list -----

  // The store callback for an entity that is put.
  function Event(rows: Rows, ref: Ref, item: Entity): Fired {
    if ref in rows then Updated(ref, rows[ref], item) else Created(ref, item)
  }

  function Events(rows: Rows, kind: Kind, items: map<string, Entity>, keys: seq<string>): seq<Fired> {
    if keys == [] then []
    else
      var k := keys[|keys| - 1];
      var init := Events(rows, kind, items, keys[..|keys| - 1]);
      if k in items then init + [Event(rows, Ref(kind, k), items[k])] else init
  }

  // Each of these keys once.
  predicate Enumerates(keys: seq<string>, done: set<string>) {
    multiset(keys) == multiset(done)
  }

  // One callback for each of these keys, in some order.
  ghost predicate Announced(rows: Rows, kind: Kind, items: map<string, Entity>, done: set<string>, es: seq<Fired>) {
    exists keys :: Enumerates(keys, done) && es == Events(rows, kind, items, keys)
  }

  lemma AnnouncedNone(rows: Rows, kind: Kind, items: map<string, Entity>)
    ensures Announced(rows, kind, items, {}, [])
  {
    var none: seq<string> := [];
    assert Enumerates(none, {}) && Events(rows, kind, items, none) == [];
  }

  lemma AnnouncedMore(rows: Rows, kind: Kind, items: map<string, Entity>, done: set<string>, es: seq<Fired>, k: string)
    requires Announced(rows, kind, items, done, es) && k in items && k !in done
    ensures Announced(rows, kind, items, done + {k}, es + [Event(rows, Ref(kind, k), items[k])])
  {
    var keys :| Enumerates(keys, done) && es == Events(rows, kind, items, keys);
    var more := keys + [k];
    assert multiset(done + {k}) == multiset(done) + multiset{k};
    assert more[..|keys|] == keys;
    assert Enumerates(more, done + {k}) && Events(rows, kind, items, more) == es + [Event(rows, Ref(kind, k), items[k])];
  }

  // ----- tame lists -----

  // A new version that keeps what the scores depend on: the mode of a task, the
  // user and task of a submission, the submission and time of a subchange; and
  // no negative scores.
  predicate Tame(rows: Rows, ref: Ref, item: Entity)
    requires Typed(rows) && Fits(ref, item)
  {
    && (item.Chg? ==> NonNegative(item.change))
    && (ref in rows ==>
          match item
          case Task(_, mode) => mode == rows[ref].mode
          case Sub(s) => PairOf(rows[ref].sub) == PairOf(s)
          case Chg(c) => rows[ref].change.submission == c.submission && rows[ref].change.time == c.time
          case _ => true)
  }

  predicate AllTame(rows: Rows, kind: Kind, items: map<string, Entity>)
    requires Typed(rows)
  {
    forall k :: k in items ==> Fits(Ref(kind, k), items[k]) && Tame(rows, Ref(kind, k), items[k])
  }

  lemma NonNegativeTells(rows: Rows, item: Entity)
    requires Typed(rows) && Closed(rows) && Consistent(rows, item) && NonNegativeTable(ChsIn(rows))
    ensures Tells(TablesOf(rows), item)
    ensures item.Sub? ==> WelcomeAt(SubsIn(rows), ChsIn(rows), ModesIn(rows), PairOf(item.sub))
  {
    if item.Sub? {
      TaskStored(rows, item.sub);
      SoundTables(rows);
      NonNegativeWelcomeAt(SubsIn(rows), ChsIn(rows), ModesIn(rows), PairOf(item.sub));
    }
  }

  lemma NoneReferTo(rows: Rows, key: string)
    requires Typed(rows) && Closed(rows) && Ref(SubmissionKind, key) !in rows
    ensures forall k :: k in ChsIn(rows) ==> ChsIn(rows)[k].submission != key
  {
    TablesReferenced(rows);
    KeyIn(rows, SubmissionKind, key);
  }

  lemma TameIsRegular(rows: Rows, ref: Ref, item: Entity)
    requires Typed(rows) && Closed(rows) && Fits(ref, item) && Consistent(rows, item) && Tame(rows, ref, item)
    requires NonNegativeTable(ChsIn(rows))
    ensures Regular(TablesOf(rows), ref.key, item)
  {
    match item
    case Task(_, mode) => TameTask(rows, ref, mode);
    case Sub(s) =>
      NonNegativeTells(rows, item);
      if ref in rows {
        SubAt(rows, ref.key);
      } else {
        NoneReferTo(rows, ref.key);
      }
    case Chg(c) => TameCh(rows, ref, c);
    case _ =>
  }

  lemma TameTask(rows: Rows, ref: Ref, mode: Mode)
    requires Typed(rows) && ref.kind.TaskKind? && (ref in rows ==> rows[ref].mode == mode)
    ensures RegularTask(TablesOf(rows), ref.key, mode)
  {
    KeyIn(rows, TaskKind, ref.key);
    if ref in rows {
      ModeAt(rows, ref.key);
    }
  }

  lemma TameCh(rows: Rows, ref: Ref, c: Change)
    requires Typed(rows) && ref.kind.SubchangeKind? && c.key == ref.key && (ref in rows ==> rows[ref].change.time == c.time)
    ensures RegularCh(TablesOf(rows), c)
  {
    KeyIn(rows, SubchangeKind, ref.key);
    if ref in rows {
      ChAt(rows, ref.key);
    }
  }

  lemma TameNonNegative(rows: Rows, ref: Ref, item: Entity)
    requires Typed(rows) && Fits(ref, item) && Tame(rows, ref, item) && NonNegativeTable(ChsIn(rows))
    ensures Typed(rows[ref := item]) && NonNegativeTable(ChsIn(rows[ref := item]))
  {
    PutChs(rows, ref, item);
  }

  lemma MergedKeepsTame(rows: Rows, kind: Kind, items: map<string, Entity>, done: set<string>, k: string)
    requires Typed(rows) && k in items && k !in done && Fits(Ref(kind, k), items[k]) && Tame(rows, Ref(kind, k), items[k])
    requires Typed(Merged(rows, kind, items, done))
    ensures Tame(Merged(rows, kind, items, done), Ref(kind, k), items[k])
  {
    MergedElsewhere(rows, kind, items, done, k);
  }

  // ----- lists of anything but subchanges -----

  // Every item is regular on its own.
  ghost predicate AllRegular(t: Tables, items: map<string, Entity>, done: set<string>) {
    forall k :: k in done && k in items ==> Regular(t, k, items[k])
  }

  lemma LostMatchesNot(idx: Index, t: Tables)
    requires Lost(idx, t)
    ensures !Matches(idx, t)
  {
    var x :| x in t.chs && t.chs[x].submission in t.subs && !Held(idx, t.chs[x]);
    if Matches(idx, t) {
      AgreesLists(idx, t.subs, t.chs, t.modes, PairOf(t.subs[t.chs[x].submission]), x);
    }
  }

  lemma LostStays(idx: Index, t: Tables, key: string, s: Submission, after: Index)
    requires Lost(idx, t) && Quiet(Sub(s), idx, after)
    ensures Lost(after, PutIn(t, key, Sub(s)))
  {
    var x :| x in t.chs && t.chs[x].submission in t.subs && !Held(idx, t.chs[x]);
    var u := PutIn(t, key, Sub(s));
    assert x in u.chs && u.chs[x].submission in u.subs && !Held(after, u.chs[x]);
  }

  // Both stores hold the same entities of a kind.
  ghost predicate SameOf(a: Rows, b: Rows, kind: Kind) {
    forall k: string :: (Ref(kind, k) in a <==> Ref(kind, k) in b) && (Ref(kind, k) in a ==> a[Ref(kind, k)] == b[Ref(kind, k)])
  }

  lemma SameKeys(a: Rows, b: Rows, kind: Kind)
    requires SameOf(a, b, kind)
    ensures KeysOf(a, kind) == KeysOf(b, kind)
  {
    forall k ensures k in KeysOf(a, kind) <==> k in KeysOf(b, kind) {
      KeyIn(a, kind, k);
      KeyIn(b, kind, k);
    }
  }

  lemma SameSubs(a: Rows, b: Rows)
    requires Typed(a) && Typed(b) && SameOf(a, b, SubmissionKind)
    ensures SubsIn(a) == SubsIn(b)
  {
    SameKeys(a, b, SubmissionKind);
    forall k | k in SubsIn(a) ensures SubsIn(a)[k] == SubsIn(b)[k] {
      KeyIn(a, SubmissionKind, k);
      SubAt(a, k);
      SubAt(b, k);
    }
  }

  lemma SameChs(a: Rows, b: Rows)
    requires Typed(a) && Typed(b) && SameOf(a, b, SubchangeKind)
    ensures ChsIn(a) == ChsIn(b)
  {
    SameKeys(a, b, SubchangeKind);
    forall k | k in ChsIn(a) ensures ChsIn(a)[k] == ChsIn(b)[k] {
      KeyIn(a, SubchangeKind, k);
      ChAt(a, k);
      ChAt(b, k);
    }
  }

  lemma SameModes(a: Rows, b: Rows)
    requires Typed(a) && Typed(b) && SameOf(a, b, TaskKind)
    ensures ModesIn(a) == ModesIn(b)
  {
    SameKeys(a, b, TaskKind);
    forall k | k in ModesIn(a) ensures ModesIn(a)[k] == ModesIn(b)[k] {
      KeyIn(a, TaskKind, k);
      ModeAt(a, k);
      ModeAt(b, k);
    }
  }

  lemma MergedOthers(rows: Rows, kind: Kind, items: map<string, Entity>, done: set<string>, other: Kind)
    requires other != kind
    ensures SameOf(rows, Merged(rows, kind, items, done), other)
  {
  }

  // Putting entities of one kind leaves the tables of the others alone.
  lemma MergedTables(rows: Rows, kind: Kind, items: map<string, Entity>, done: set<string>)
    requires Typed(rows) && Typed(Merged(rows, kind, items, done))
    ensures var t, u := TablesOf(rows), TablesOf(Merged(rows, kind, items, done));
            && (!kind.SubmissionKind? ==> u.subs == t.subs)
            && (!kind.SubchangeKind? ==> u.chs == t.chs)
            && (!kind.TaskKind? ==> u.modes == t.modes)
  {
    var now := Merged(rows, kind, items, done);
    if !kind.SubmissionKind? {
      MergedOthers(rows, kind, items, done, SubmissionKind);
      SameSubs(rows, now);
    }
    if !kind.SubchangeKind? {
      MergedOthers(rows, kind, items, done, SubchangeKind);
      SameChs(rows, now);
    }
    if !kind.TaskKind? {
      MergedOthers(rows, kind, items, done, TaskKind);
      SameModes(rows, now);
    }
  }

  // How the scores stand in the middle of a list: for subchanges they agree if
  // the list is tame; for submissions they agree as long as all were regular, and
  // something is lost for good once one was not; other kinds do not touch them.
  ghost predicate Judged(kind: Kind, t: Tables, items: map<string, Entity>, done: set<string>, start: Index, idx: Index, u: Tables,
                         tame: bool)
  {
    match kind
    case SubchangeKind => tame ==> Matches(idx, u) && NonNegativeTable(u.chs)
    case SubmissionKind => if AllRegular(t, items, done) then Matches(idx, u) else Lost(idx, u)
    case _ => idx == start
  }

  lemma SameRegular(rows: Rows, items: map<string, Entity>, done: set<string>, k: string)
    requires Typed(rows) && Closed(rows) && NonNegativeTable(ChsIn(rows)) && k in items && k !in done && items[k].Sub?
    requires Typed(Merged(rows, SubmissionKind, items, done)) && Closed(Merged(rows, SubmissionKind, items, done))
    requires Consistent(rows, items[k])
    ensures var now := Merged(rows, SubmissionKind, items, done);
            && Tells(TablesOf(now), items[k])
            && WelcomeAt(SubsIn(now), ChsIn(now), ModesIn(now), PairOf(items[k].sub))
            && (RegularSub(TablesOf(now), k, items[k].sub) <==> RegularSub(TablesOf(rows), k, items[k].sub))
  {
    var now := Merged(rows, SubmissionKind, items, done);
    MergedTables(rows, SubmissionKind, items, done);
    MergedConsistent(rows, SubmissionKind, items, done, items[k]);
    NonNegativeTells(rows, items[k]);
    NonNegativeTells(now, items[k]);
    SameStored(rows, items, done, k);
  }

  lemma SameStored(rows: Rows, items: map<string, Entity>, done: set<string>, k: string)
    requires Typed(rows) && k !in done && Typed(Merged(rows, SubmissionKind, items, done))
    ensures var now := Merged(rows, SubmissionKind, items, done);
            && (k in SubsIn(now) <==> k in SubsIn(rows))
            && (k in SubsIn(rows) ==> SubsIn(now)[k] == SubsIn(rows)[k])
  {
    var now := Merged(rows, SubmissionKind, items, done);
    MergedElsewhere(rows, SubmissionKind, items, done, k);
    KeyIn(rows, SubmissionKind, k);
    KeyIn(now, SubmissionKind, k);
  }

  lemma JudgedSub(t0: Tables, items: map<string, Entity>, done: set<string>, k: string, s: Submission,
                  start: Index, idx: Index, u: Tables, after: Index, tame: bool)
    requires k in items && items[k] == Sub(s) && k !in done
    requires Judged(SubmissionKind, t0, items, done, start, idx, u, tame) && Heard(u, k, Sub(s), idx, after)
    requires Tells(u, Sub(s)) && WelcomeAt(u.subs, u.chs, u.modes, PairOf(s))
    requires RegularSub(u, k, s) <==> RegularSub(t0, k, s)
    ensures Judged(SubmissionKind, t0, items, done + {k}, start, after, PutIn(u, k, Sub(s)), tame)
  {
    PutSubIn(u, k, s);
    PutSubIn(t0, k, s);
    assert AllRegular(t0, items, done + {k}) <==> AllRegular(t0, items, done) && Regular(t0, k, Sub(s));
    if !AllRegular(t0, items, done) {
      LostStays(idx, u, k, s, after);
    }
  }

  lemma JudgedCh(rows: Rows, ref: Ref, c: Change, idx: Index, after: Index)
    requires Typed(rows) && Closed(rows) && Fits(ref, Chg(c)) && Consistent(rows, Chg(c)) && Tame(rows, ref, Chg(c))
    requires Matches(idx, TablesOf(rows)) && NonNegativeTable(ChsIn(rows)) && Heard(TablesOf(rows), ref.key, Chg(c), idx, after)
    ensures var u := PutIn(TablesOf(rows), ref.key, Chg(c));
            Matches(after, u) && NonNegativeTable(u.chs)
  {
    TameIsRegular(rows, ref, Chg(c));
    TameNonNegative(rows, ref, Chg(c));
    PutChs(rows, ref, Chg(c));
  }

  lemma JudgedStep(rows: Rows, kind: Kind, items: map<string, Entity>, done: set<string>, k: string,
                   start: Index, idx: Index, now: Rows, after: Index, tame: bool)
    requires Typed(rows) && Closed(rows) && NonNegativeTable(ChsIn(rows))
    requires now == Merged(rows, kind, items, done) && Typed(now) && Closed(now)
    requires k in items && k !in done && Fits(Ref(kind, k), items[k]) && Consistent(rows, items[k])
    requires tame ==> AllTame(rows, kind, items)
    requires Judged(kind, TablesOf(rows), items, done, start, idx, TablesOf(now), tame)
    requires Heard(TablesOf(now), k, items[k], idx, after)
    ensures Judged(kind, TablesOf(rows), items, done + {k}, start, after, PutIn(TablesOf(now), k, items[k]), tame)
  {
    if kind.SubmissionKind? {
      SameRegular(rows, items, done, k);
      JudgedSub(TablesOf(rows), items, done, k, items[k].sub, start, idx, TablesOf(now), after, tame);
    } else if kind.SubchangeKind? && tame {
      MergedConsistent(rows, kind, items, done, items[k]);
      MergedKeepsTame(rows, kind, items, done, k);
      JudgedCh(now, Ref(kind, k), items[k].change, idx, after);
    }
  }

  // A list on its way: the entities it is put among, and what holds of it.
  datatype List = List(rows: Rows, kind: Kind, items: map<string, Entity>, start: Index, agreed: bool, tame: bool)

  ghost predicate Proper(l: List) {
    && Typed(l.rows) && Closed(l.rows) && AllFit(l.rows, l.kind, l.items)
    && (l.agreed ==> Matches(l.start, TablesOf(l.rows)) && NonNegativeTable(ChsIn(l.rows)))
    && (l.tame ==> AllTame(l.rows, l.kind, l.items))
  }

  predicate Replaced(l: List, done: set<string>, r: Ref) {
    r.kind == l.kind && r.key in l.items && r.key in done
  }

  // The stored entities are those from before with the finished items put.
  ghost predicate HoldsMerged(now: Rows, l: List, done: set<string>) {
    && (forall r :: r in now <==> r in l.rows || Replaced(l, done, r))
    && (forall r :: r in now ==> now[r] == if Replaced(l, done, r) then l.items[r.key] else l.rows[r])
  }

  lemma HoldsMergedIs(now: Rows, l: List, done: set<string>)
    ensures HoldsMerged(now, l, done) <==> now == Merged(l.rows, l.kind, l.items, done)
  {
    var all := Merged(l.rows, l.kind, l.items, done);
    assert forall r :: r in all <==> r in l.rows || Replaced(l, done, r);
    assert forall r :: r in all ==> all[r] == if Replaced(l, done, r) then l.items[r.key] else l.rows[r];
  }

  ghost predicate Midway(l: List, done: set<string>, es: seq<Fired>, now: Rows, idx: Index)
    requires Typed(l.rows) && Typed(now)
  {
    && HoldsMerged(now, l, done)
    && Announced(l.rows, l.kind, l.items, done, es)
    && (l.agreed ==> Judged(l.kind, TablesOf(l.rows), l.items, done, l.start, idx, TablesOf(now), l.tame))
  }

  lemma MidwayStart(l: List)
    requires Proper(l)
    ensures Midway(l, {}, [], l.rows, l.start)
  {
    MergedNone(l.rows, l.kind, l.items);
    HoldsMergedIs(l.rows, l, {});
    AnnouncedNone(l.rows, l.kind, l.items);
  }

  lemma MidwayItem(l: List, done: set<string>, es: seq<Fired>, now: Rows, idx: Index, k: string)
    requires Proper(l) && Typed(now) && Midway(l, done, es, now, idx) && k in l.items && k !in done
    ensures Fits(Ref(l.kind, k), l.items[k]) && Consistent(now, l.items[k])
    ensures Event(now, Ref(l.kind, k), l.items[k]) == Event(l.rows, Ref(l.kind, k), l.items[k])
  {
    HoldsMergedIs(now, l, done);
    MergedConsistent(l.rows, l.kind, l.items, done, l.items[k]);
    MergedElsewhere(l.rows, l.kind, l.items, done, k);
  }

  lemma MidwayStep(l: List, done: set<string>, es: seq<Fired>, now: Rows, idx: Index, k: string, next: Rows, after: Index)
    requires Proper(l) && Typed(now) && Closed(now) && Midway(l, done, es, now, idx) && k in l.items && k !in done
    requires next == now[Ref(l.kind, k) := l.items[k]] && Typed(next)
    requires Heard(TablesOf(now), k, l.items[k], idx, after)
    ensures Midway(l, done + {k}, es + [Event(now, Ref(l.kind, k), l.items[k])], next, after)
  {
    MidwayItem(l, done, es, now, idx, k);
    HoldsMergedIs(now, l, done);
    HoldsMergedIs(next, l, done + {k});
    MergedMore(l.rows, l.kind, l.items, done, k);
    AnnouncedMore(l.rows, l.kind, l.items, done, es, k);
    PutTables(now, Ref(l.kind, k), l.items[k]);
    if l.agreed {
      JudgedStep(l.rows, l.kind, l.items, done, k, l.start, idx, now, after, l.tame);
    }
  }

  // New modes for some tasks.
  lemma ModesMatchIff(idx: Index, t: Tables, u: Tables)
    requires Matches(idx, t) && u.subs == t.subs && u.chs == t.chs
    requires forall k :: k in t.subs ==> t.subs[k].task in u.modes && t.subs[k].task in t.modes
    ensures Matches(idx, u) <==> forall k :: k in t.subs ==> u.modes[t.subs[k].task] == t.modes[t.subs[k].task]
  {
    forall p | p in idx ensures p.task in u.modes && (RightAt(idx, u.subs, u.chs, u.modes, p) <==> u.modes[p.task] == t.modes[p.task]) {
      assert p in PairsOf(t.subs);
      ModeOfRight(idx, t.subs, t.chs, t.modes, u.subs, idx, u.modes, p);
    }
    forall k | k in t.subs ensures PairOf(t.subs[k]) in idx && PairOf(t.subs[k]).task == t.subs[k].task {
      assert PairOf(t.subs[k]) in PairsOf(t.subs);
    }
  }

  lemma MergedModes(rows: Rows, items: map<string, Entity>, k: string)
    requires Typed(rows) && Typed(Merged(rows, TaskKind, items, items.Keys))
    requires k in ModesIn(rows)
    ensures var now := Merged(rows, TaskKind, items, items.Keys);
            && k in ModesIn(now)
            && (k in items ==> items[k].Task? && ModesIn(now)[k] == items[k].mode)
            && (k !in items ==> ModesIn(now)[k] == ModesIn(rows)[k])
  {
    var now := Merged(rows, TaskKind, items, items.Keys);
    KeyIn(rows, TaskKind, k);
    assert Ref(TaskKind, k) in now;
    ModeAt(rows, k);
    ModeAt(now, k);
  }

  predicate AllTasks(items: map<string, Entity>) {
    forall k :: k in items ==> items[k].Task?
  }

  lemma FitTasks(rows: Rows, items: map<string, Entity>)
    requires AllFit(rows, TaskKind, items)
    ensures AllTasks(items)
  {
    forall k | k in items ensures items[k].Task? {
      assert Fits(Ref(TaskKind, k), items[k]);
    }
  }

  lemma JudgedTasks(rows: Rows, items: map<string, Entity>, idx: Index)
    requires Typed(rows) && Closed(rows) && Matches(idx, TablesOf(rows))
    requires Typed(Merged(rows, TaskKind, items, items.Keys)) && AllTasks(items)
    ensures Matches(idx, TablesOf(Merged(rows, TaskKind, items, items.Keys))) <==> AllRegular(TablesOf(rows), items, items.Keys)
  {
    var t, u := TablesOf(rows), TablesOf(Merged(rows, TaskKind, items, items.Keys));
    SoundTables(rows);
    MergedTables(rows, TaskKind, items, items.Keys);
    forall k | k in t.modes
      ensures k in u.modes && (u.modes[k] == t.modes[k] <==> (k in items ==> items[k].mode == t.modes[k]))
    {
      MergedModes(rows, items, k);
    }
    ModesMatchIff(idx, t, u);
    AllTasksRegular(t, u, items);
  }

  lemma AllTasksRegular(t: Tables, u: Tables, items: map<string, Entity>)
    requires Sound(t) && AllTasks(items)
    requires forall k :: k in t.modes ==> k in u.modes && (u.modes[k] == t.modes[k] <==> (k in items ==> items[k].mode == t.modes[k]))
    ensures AllRegular(t, items, items.Keys) <==> forall k :: k in t.subs ==> u.modes[t.subs[k].task] == t.modes[t.subs[k].task]
  {
    forall k | k in items ensures Regular(t, k, items[k]) <==> RegularTask(t, k, items[k].mode) {
    }
    if AllRegular(t, items, items.Keys) {
      forall k | k in t.subs ensures u.modes[t.subs[k].task] == t.modes[t.subs[k].task] {
        var task := t.subs[k].task;
        assert task in items ==> Regular(t, task, items[task]);
      }
    }
  }

  lemma AllTameRegular(rows: Rows, kind: Kind, items: map<string, Entity>)
    requires Typed(rows) && Closed(rows) && NonNegativeTable(ChsIn(rows))
    requires AllFit(rows, kind, items) && AllTame(rows, kind, items)
    ensures AllRegular(TablesOf(rows), items, items.Keys)
  {
    forall k | k in items ensures Regular(TablesOf(rows), k, items[k]) {
      TameIsRegular(rows, Ref(kind, k), items[k]);
    }
  }

  // A whole list: the scores agree with the tables afterwards if the list is
  // tame, and exactly when every item was regular on its own if it holds no
  // subchanges.
  lemma MidwayEnd(l: List, es: seq<Fired>, now: Rows, idx: Index)
    requires Proper(l) && Typed(now) && Midway(l, l.items.Keys, es, now, idx)
    ensures now == Merged(l.rows, l.kind, l.items, l.items.Keys) && Announced(l.rows, l.kind, l.items, l.items.Keys, es)
    ensures l.agreed && l.tame ==> Matches(idx, TablesOf(now))
    ensures l.agreed && !l.kind.SubchangeKind? ==>
              (Matches(idx, TablesOf(now)) <==> AllRegular(TablesOf(l.rows), l.items, l.items.Keys))
  {
    HoldsMergedIs(now, l, l.items.Keys);
    if l.agreed {
      ListJudged(l, now, idx);
    }
  }

  lemma ListJudged(l: List, now: Rows, idx: Index)
    requires Proper(l) && l.agreed && Typed(now) && now == Merged(l.rows, l.kind, l.items, l.items.Keys)
    requires Judged(l.kind, TablesOf(l.rows), l.items, l.items.Keys, l.start, idx, TablesOf(now), l.tame)
    ensures l.tame ==> Matches(idx, TablesOf(now))
    ensures !l.kind.SubchangeKind? ==> (Matches(idx, TablesOf(now)) <==> AllRegular(TablesOf(l.rows), l.items, l.items.Keys))
  {
    if l.tame {
      AllTameRegular(l.rows, l.kind, l.items);
    }
    match l.kind
    case SubmissionKind =>
      if !AllRegular(TablesOf(l.rows), l.items, l.items.Keys) {
        LostMatchesNot(idx, TablesOf(now));
      }
    case TaskKind =>
      FitTasks(l.rows, l.items);
      JudgedTasks(l.rows, l.items, idx);
    case SubchangeKind =>
    case _ => MergedTables(l.rows, l.kind, l.items, l.items.Keys);
  }
}
