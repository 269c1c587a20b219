// The scoring store (src/cmsranking/Scoring.py:234-389): one Score object per
// user and task, kept up to date by the callbacks of the entity stores, and the
// score changes it tells its listener about.
module ScoringStores {
  import opened Basics
  import opened ScoreReplay
  import opened ChangeOrder
  import opened ScoreOps
  import opened ScoreIndex
  import opened ScoreAgreement
  import opened Scoring

  // What a listener is told.
  datatype Notice = Notice(pair: Pair, score: real)

  function ScoreIn(idx: Index, p: Pair): real {
    if p in idx then GetScore(idx[p]) else 0.0
  }

  // The score of a pair for someone who started from x and read these notices.
  function Latest(notices: seq<Notice>, p: Pair, x: real): real {
    if notices == [] then x
    else
      var n := notices[|notices| - 1];
      if n.pair == p then n.score else Latest(notices[..|notices| - 1], p, x)
  }

  lemma {:induction false} LatestConcat(a: seq<Notice>, b: seq<Notice>, p: Pair, x: real)
    ensures Latest(a + b, p, x) == Latest(b, p, Latest(a, p, x))
  {
    if b == [] {
      assert a + b == a;
    } else {
      var n := |b| - 1;
      assert (a + b)[..|a| + n] == a + b[..n];
      LatestConcat(a, b[..n], p, x);
    }
  }

  // The notice sent when an operation took one pair from a score to another.
  function Changed(p: Pair, was: real, now: real): seq<Notice> {
    if was != now then [Notice(p, now)] else []
  }

  function Told(before: Index, after: Index, p: Pair): seq<Notice> {
    Changed(p, ScoreIn(before, p), ScoreIn(after, p))
  }

  // There is one exactly if the score changed, and it says what the score is now.
  lemma ToldIff(before: Index, after: Index, p: Pair)
    ensures ScoreIn(after, p) == ScoreIn(before, p) <==> Told(before, after, p) == []
    ensures ScoreIn(after, p) != ScoreIn(before, p) ==> Told(before, after, p) == [Notice(p, ScoreIn(after, p))]
  {
  }

  // Reading the notices on top of the scores at the start gives the scores now.
  ghost predicate Faithful(notices: seq<Notice>, start: Index, now: Index) {
    forall p :: Latest(notices, p, ScoreIn(start, p)) == ScoreIn(now, p)
  }

  lemma StaysFaithful(notices: seq<Notice>, start: Index, was: Index, now: Index, p: Pair)
    requires Faithful(notices, start, was)
    requires forall q :: q != p ==> ScoreIn(now, q) == ScoreIn(was, q)
    ensures Faithful(notices + Told(was, now, p), start, now)
  {
    var more := Told(was, now, p);
    forall q ensures Latest(notices + more, q, ScoreIn(start, q)) == ScoreIn(now, q) {
      LatestConcat(notices, more, q, ScoreIn(start, q));
    }
  }

  // A listener may start from any snapshot: the notices sent between two
  // moments lead from the scores at the first to the scores at the second.
  lemma FaithfulBetween(first: seq<Notice>, rest: seq<Notice>, start: Index, then_: Index, now: Index)
    requires Faithful(first, start, then_) && Faithful(first + rest, start, now)
    ensures Faithful(rest, then_, now)
  {
    forall p ensures Latest(rest, p, ScoreIn(then_, p)) == ScoreIn(now, p) {
      LatestConcat(first, rest, p, ScoreIn(start, p));
    }
  }

  // What the listener is told by the callbacks that take two steps.
  ghost function ToldByDelete(idx: Index, c: Change, s: Option<Submission>): seq<Notice>
    requires s.Some? ==> Has(idx, s.value)
  {
    if s.None? then [] else Told(idx, DeleteCh(idx, c, s), PairOf(s.value))
  }

  ghost function ToldByUpdate(idx: Index, was: Change, c: Change, t: Option<Submission>, s: Submission): seq<Notice>
    requires Listed(idx, c, s) && (t.Some? ==> Has(idx, t.value))
    requires Listed(DeleteCh(idx, was, t), c, s)
  {
    var after := UpdateCh(idx, was, c, t, s);
    if was.submission == c.submission then Told(idx, after, PairOf(s))
    else ToldByDelete(idx, was, t) + Told(DeleteCh(idx, was, t), after, PairOf(s))
  }

  ghost function ToldByMove(idx: Index, key: string, was: Submission, s: Submission, mode: Mode): seq<Notice>
    requires Has(idx, was)
  {
    var after := UpdateSub(idx, key, was, s, mode);
    if PairOf(was) == PairOf(s) then Told(idx, after, PairOf(s))
    else
      var less := DeleteSub(idx, key, was);
      Told(idx, less, PairOf(was)) + Told(less, after, PairOf(s))
  }

  // ----- every callback keeps the notices faithful -----

  lemma CreateSubFaithful(notices: seq<Notice>, start: Index, idx: Index, k: string, s: Submission, mode: Mode)
    requires Faithful(notices, start, idx)
    ensures var now := CreateSub(idx, k, s, mode); Faithful(notices + Told(idx, now, PairOf(s)), start, now)
  {
    StaysFaithful(notices, start, idx, CreateSub(idx, k, s, mode), PairOf(s));
  }

  lemma DeleteSubFaithful(notices: seq<Notice>, start: Index, idx: Index, k: string, s: Submission)
    requires Faithful(notices, start, idx) && Has(idx, s)
    ensures var now := DeleteSub(idx, k, s); Faithful(notices + Told(idx, now, PairOf(s)), start, now)
  {
    var now := DeleteSub(idx, k, s);
    assert forall q :: q != PairOf(s) ==> ScoreIn(now, q) == ScoreIn(idx, q);
    StaysFaithful(notices, start, idx, now, PairOf(s));
  }

  lemma UpdateSubFaithful(notices: seq<Notice>, start: Index, idx: Index, k: string, was: Submission, s: Submission, mode: Mode)
    requires Faithful(notices, start, idx) && Has(idx, was)
    ensures Faithful(notices + ToldByMove(idx, k, was, s, mode), start, UpdateSub(idx, k, was, s, mode))
  {
    var now := UpdateSub(idx, k, was, s, mode);
    if PairOf(was) == PairOf(s) {
      StaysFaithful(notices, start, idx, now, PairOf(s));
    } else {
      var less := DeleteSub(idx, k, was);
      var first, second := Told(idx, less, PairOf(was)), Told(less, now, PairOf(s));
      DeleteSubFaithful(notices, start, idx, k, was);
      CreateSubFaithful(notices + first, start, less, k, s, mode);
      NoticesAssoc(notices, first, second);
    }
  }

  lemma CreateChFaithful(notices: seq<Notice>, start: Index, idx: Index, c: Change, s: Submission)
    requires Faithful(notices, start, idx) && Listed(idx, c, s)
    ensures var now := CreateCh(idx, c, s); Faithful(notices + Told(idx, now, PairOf(s)), start, now)
  {
    StaysFaithful(notices, start, idx, CreateCh(idx, c, s), PairOf(s));
  }

  lemma DeleteChFaithful(notices: seq<Notice>, start: Index, idx: Index, c: Change, s: Option<Submission>)
    requires Faithful(notices, start, idx) && (s.Some? ==> Has(idx, s.value))
    ensures Faithful(notices + ToldByDelete(idx, c, s), start, DeleteCh(idx, c, s))
  {
    if s.Some? {
      StaysFaithful(notices, start, idx, DeleteCh(idx, c, s), PairOf(s.value));
    } else {
      assert notices + [] == notices;
    }
  }

  lemma NoticesAssoc(a: seq<Notice>, b: seq<Notice>, c: seq<Notice>)
    ensures a + b + c == a + (b + c)
  {
  }

  lemma UpdateChFaithful(notices: seq<Notice>, start: Index, idx: Index, was: Change, c: Change, t: Option<Submission>, s: Submission)
    requires Faithful(notices, start, idx)
    requires Listed(idx, c, s) && (t.Some? ==> Has(idx, t.value)) && Listed(DeleteCh(idx, was, t), c, s)
    ensures Faithful(notices + ToldByUpdate(idx, was, c, t, s), start, UpdateCh(idx, was, c, t, s))
  {
    var now := UpdateCh(idx, was, c, t, s);
    if was.submission == c.submission {
      StaysFaithful(notices, start, idx, now, PairOf(s));
    } else {
      var less := DeleteCh(idx, was, t);
      var first, second := ToldByDelete(idx, was, t), Told(less, now, PairOf(s));
      DeleteChFaithful(notices, start, idx, was, t);
      CreateChFaithful(notices + first, start, less, c, s);
      NoticesAssoc(notices, first, second);
    }
  }

  lemma CreateSubSteps(idx: Index, key: string, s: Submission, mode: Mode)
    ensures var p := PairOf(s);
            var with := if p in idx then idx else idx[p := NewScore(mode)];
            && CreateSub(idx, key, s, mode) == with[p := ScoreOps.CreateSubmission(with[p], key, s)]
            && ScoreIn(with, p) == ScoreIn(idx, p)
  {
  }

  lemma FirstKnown(subs: set<string>, cs: seq<Change>)
    requires Known(subs, cs) && cs != []
    ensures subs != {}
  {
    assert cs[0].submission in subs;
  }

  // A score that lost its last submission is zero, so removing it changes no score.
  lemma EmptyScoreIsZero(s: ScoreState, k: string)
    requires Safe(s) && ScoreOps.DeleteSubmission(s, k).view.subs.Keys == {}
    requires k in s.view.subs
    ensures GetScore(ScoreOps.DeleteSubmission(s, k)) == 0.0
  {
    FilterKnown(s.view.subs.Keys, s.changes, Of(k));
    var t := ScoreOps.DeleteSubmission(s, k);
    var cs := Filter(s.changes, Of(k));
    assert t.view.subs.Keys == s.view.subs.Keys - {k};
    if cs != [] {
      FirstKnown(t.view.subs.Keys, cs);
    }
  }

  ghost function DropEmpty(idx: Index, p: Pair): Index
    requires p in idx
  {
    if idx[p].view.subs.Keys == {} then idx - {p} else idx
  }

  lemma DeleteSubSteps(idx: Index, key: string, s: Submission)
    requires Has(idx, s) && key in idx[PairOf(s)].view.subs
    ensures var p := PairOf(s);
            var with := idx[p := ScoreOps.DeleteSubmission(idx[p], key)];
            && DeleteSub(idx, key, s) == DropEmpty(with, p)
            && ScoreIn(DeleteSub(idx, key, s), p) == ScoreIn(with, p)
  {
    var p := PairOf(s);
    var t := ScoreOps.DeleteSubmission(idx[p], key);
    if t.view.subs.Keys == {} {
      EmptyScoreIsZero(idx[p], key);
      assert idx[p := t] - {p} == idx - {p};
    }
  }

  lemma Appended(a: seq<Notice>, b: seq<Notice>, c: seq<Notice>)
    requires a <= b <= c
    ensures forall x, y :: b == a + x && c == b + y ==> c == a + (x + y)
  {
  }

  lemma WellKeyedBut(chs: Chs, todo: set<string>)
    requires WellKeyed(chs)
    ensures WellKeyed(chs - todo)
  {
  }

  lemma AllButAll<V>(m: map<string, V>)
    ensures m - m.Keys == map[]
  {
  }

  lemma AllButNone<V>(m: map<string, V>)
    ensures m - {} == m
  {
  }

  lemma AllButOneLess<V>(m: map<string, V>, todo: set<string>, k: string)
    requires k in todo && k in m
    ensures m - (todo - {k}) == (m - todo)[k := m[k]]
  {
  }

  class ScoringStore {
    var scores: map<Pair, Score>
    var notices: seq<Notice>
    ghost var index: Index
    ghost var Repr: set<object>

    ghost predicate Holds(p: Pair)
      reads this, Repr
    {
      && p in scores && p in index
      && scores[p] in Repr && scores[p].released in Repr
      && scores[p].owner == scores[p].released.owner == (p.user, p.task)
      && scores[p].State() == index[p]
    }

    ghost predicate Valid()
      reads this, Repr
    {
      && this !in Repr
      && scores.Keys == index.Keys
      && forall p :: p in index ==> Holds(p)
    }

    constructor ()
      ensures Valid() && index == map[] && notices == [] && fresh(Repr)
    {
      scores, notices, index, Repr := map[], [], map[], {};
    }

    method NewScoreFor(p: Pair, mode: Mode)
      requires Valid() && p !in scores
      modifies this`scores, this`index, this`Repr
      ensures Valid() && fresh(Repr - old(Repr))
      ensures index == old(index)[p := NewScore(mode)]
    {
      var score := new Score(mode, (p.user, p.task));
      scores := scores[p := score];
      index := index[p := score.State()];
      Repr := Repr + {score, score.released};
      forall q | q in index ensures Holds(q) {
        assert q != p ==> old(Holds(q));
      }
    }

    // Take over the new state of the score of p and tell the listener about it.
    method Settle(p: Pair, was: real, ghost now: ScoreState)
      requires p in scores && p in index && scores.Keys == index.Keys && this !in Repr
      requires scores[p] in Repr && scores[p].released in Repr
      requires scores[p].owner == scores[p].released.owner == (p.user, p.task)
      requires forall q :: q in index && q != p ==> Holds(q)
      requires scores[p].State() == now && was == ScoreIn(index, p)
      modifies this`index, this`notices
      ensures Valid() && index == old(index)[p := now]
      ensures notices == old(notices) + Told(old(index), index, p)
    {
      index := index[p := now];
      var score := scores[p].CurrentScore();
      if was != score {
        notices := notices + [Notice(p, score)];
      }
    }

    method OnCreate(p: Pair, key: string, s: Submission)
      requires Valid() && p in scores
      modifies Repr
      ensures scores[p].State() == ScoreOps.CreateSubmission(index[p], key, s)
      ensures forall q :: q in index && q != p ==> Holds(q)
    {
      assert Holds(p);
      scores[p].CreateSubmission(key, s);
    }

    method CreateIn(p: Pair, key: string, s: Submission)
      requires Valid() && p in scores
      modifies this`index, this`notices, Repr
      ensures Valid() && index == old(index)[p := ScoreOps.CreateSubmission(old(index)[p], key, s)]
      ensures notices == old(notices) + Told(old(index), index, p)
    {
      assert Holds(p);
      var was := scores[p].CurrentScore();
      ghost var now := ScoreOps.CreateSubmission(index[p], key, s);
      OnCreate(p, key, s);
      Settle(p, was, now);
    }

    method OnDelete(p: Pair, key: string)
      requires Valid() && p in scores && Safe(index[p])
      modifies Repr
      ensures scores[p].State() == ScoreOps.DeleteSubmission(index[p], key)
      ensures forall q :: q in index && q != p ==> Holds(q)
    {
      assert Holds(p);
      scores[p].DeleteSubmission(key);
    }

    method DeleteIn(p: Pair, key: string)
      requires Valid() && p in scores && Safe(index[p])
      modifies this`index, this`notices, Repr
      ensures Valid() && index == old(index)[p := ScoreOps.DeleteSubmission(old(index)[p], key)]
      ensures notices == old(notices) + Told(old(index), index, p)
    {
      assert Holds(p);
      var was := scores[p].CurrentScore();
      ghost var now := ScoreOps.DeleteSubmission(index[p], key);
      OnDelete(p, key);
      Settle(p, was, now);
    }

    method OnUpdate(p: Pair, key: string, s: Submission, mode: Mode)
      requires Valid() && p in scores && Safe(index[p])
      modifies Repr
      ensures scores[p].State() == UpdateScoreMode(ScoreOps.UpdateSubmission(index[p], key, s), mode)
      ensures forall q :: q in index && q != p ==> Holds(q)
    {
      assert Holds(p);
      scores[p].UpdateSubmission(key, s);
      scores[p].UpdateScoreMode(mode);
    }

    method UpdateIn(p: Pair, key: string, s: Submission, mode: Mode)
      requires Valid() && p in scores && Safe(index[p])
      modifies this`index, this`notices, Repr
      ensures Valid() && index == old(index)[p := UpdateScoreMode(ScoreOps.UpdateSubmission(old(index)[p], key, s), mode)]
      ensures notices == old(notices) + Told(old(index), index, p)
    {
      assert Holds(p);
      var was := scores[p].CurrentScore();
      ghost var now := UpdateScoreMode(ScoreOps.UpdateSubmission(index[p], key, s), mode);
      OnUpdate(p, key, s, mode);
      Settle(p, was, now);
    }

    method OnCreateCh(p: Pair, c: Change)
      requires Valid() && p in scores && Safe(index[p]) && c.submission in index[p].view.subs
      modifies Repr
      ensures scores[p].State() == ScoreOps.CreateSubchange(index[p], c)
      ensures forall q :: q in index && q != p ==> Holds(q)
    {
      assert Holds(p);
      scores[p].CreateSubchange(c);
    }

    method CreateChIn(p: Pair, c: Change)
      requires Valid() && p in scores && Safe(index[p]) && c.submission in index[p].view.subs
      modifies this`index, this`notices, Repr
      ensures Valid() && index == old(index)[p := ScoreOps.CreateSubchange(old(index)[p], c)]
      ensures notices == old(notices) + Told(old(index), index, p)
    {
      assert Holds(p);
      var was := scores[p].CurrentScore();
      ghost var now := ScoreOps.CreateSubchange(index[p], c);
      OnCreateCh(p, c);
      Settle(p, was, now);
    }

    method OnUpdateCh(p: Pair, c: Change)
      requires Valid() && p in scores && Safe(index[p]) && c.submission in index[p].view.subs
      modifies Repr
      ensures scores[p].State() == ScoreOps.UpdateSubchange(index[p], c.key, c)
      ensures forall q :: q in index && q != p ==> Holds(q)
    {
      assert Holds(p);
      scores[p].UpdateSubchange(c.key, c);
    }

    method UpdateChIn(p: Pair, c: Change)
      requires Valid() && p in scores && Safe(index[p]) && c.submission in index[p].view.subs
      modifies this`index, this`notices, Repr
      ensures Valid() && index == old(index)[p := ScoreOps.UpdateSubchange(old(index)[p], c.key, c)]
      ensures notices == old(notices) + Told(old(index), index, p)
    {
      assert Holds(p);
      var was := scores[p].CurrentScore();
      ghost var now := ScoreOps.UpdateSubchange(index[p], c.key, c);
      OnUpdateCh(p, c);
      Settle(p, was, now);
    }

    method OnDeleteCh(p: Pair, key: string)
      requires Valid() && p in scores && Safe(index[p])
      modifies Repr
      ensures scores[p].State() == ScoreOps.DeleteSubchange(index[p], key)
      ensures forall q :: q in index && q != p ==> Holds(q)
    {
      assert Holds(p);
      scores[p].DeleteSubchange(key);
    }

    method DeleteChIn(p: Pair, key: string)
      requires Valid() && p in scores && Safe(index[p])
      modifies this`index, this`notices, Repr
      ensures Valid() && index == old(index)[p := ScoreOps.DeleteSubchange(old(index)[p], key)]
      ensures notices == old(notices) + Told(old(index), index, p)
    {
      assert Holds(p);
      var was := scores[p].CurrentScore();
      ghost var now := ScoreOps.DeleteSubchange(index[p], key);
      OnDeleteCh(p, key);
      Settle(p, was, now);
    }

    method CreateSubmission(key: string, s: Submission, mode: Mode)
      requires Valid()
      modifies this, Repr
      ensures Valid() && fresh(Repr - old(Repr))
      ensures index == CreateSub(old(index), key, s, mode)
      ensures notices == old(notices) + Told(old(index), index, PairOf(s))
    {
      var p := PairOf(s);
      CreateSubSteps(index, key, s, mode);
      if p !in scores {
        NewScoreFor(p, mode);
      }
      CreateIn(p, key, s);
    }

    // Drop the score of p if it has no submissions left.
    method DropIfEmpty(p: Pair)
      requires Valid() && p in scores
      modifies this`scores, this`index
      ensures Valid()
      ensures index == DropEmpty(old(index), p)
    {
      assert Holds(p);
      if scores[p].submissions.Keys == {} {
        scores := scores - {p};
        index := index - {p};
      }
    }

    method DeleteSubmission(key: string, s: Submission)
      requires Valid() && Has(index, s) && key in index[PairOf(s)].view.subs
      modifies this, Repr
      ensures Valid() && Repr == old(Repr)
      ensures index == DeleteSub(old(index), key, s)
      ensures notices == old(notices) + Told(old(index), index, PairOf(s))
    {
      var p := PairOf(s);
      DeleteSubSteps(index, key, s);
      DeleteIn(p, key);
      assert p in scores;
      DropIfEmpty(p);
    }

    method MoveSubmission(key: string, was: Submission, s: Submission, mode: Mode)
      requires Valid() && Has(index, was) && key in index[PairOf(was)].view.subs && PairOf(was) != PairOf(s)
      modifies this, Repr
      ensures Valid() && fresh(Repr - old(Repr))
      ensures index == CreateSub(DeleteSub(old(index), key, was), key, s, mode)
      ensures notices == old(notices) + (Told(old(index), DeleteSub(old(index), key, was), PairOf(was))
                                         + Told(DeleteSub(old(index), key, was), index, PairOf(s)))
    {
      ghost var first := notices;
      DeleteSubmission(key, was);
      ghost var second := notices;
      CreateSubmission(key, s, mode);
      Appended(first, second, notices);
    }

    method UpdateSubmission(key: string, was: Submission, s: Submission, mode: Mode)
      requires Valid() && Has(index, was) && key in index[PairOf(was)].view.subs
      modifies this, Repr
      ensures Valid() && fresh(Repr - old(Repr))
      ensures index == UpdateSub(old(index), key, was, s, mode)
      ensures notices == old(notices) + ToldByMove(old(index), key, was, s, mode)
    {
      if was.user != s.user || was.task != s.task {
        MoveSubmission(key, was, s, mode);
      } else {
        UpdateIn(PairOf(s), key, s, mode);
      }
    }

    method CreateSubchange(c: Change, s: Submission)
      requires Valid() && Listed(index, c, s)
      modifies this`index, this`notices, Repr
      ensures Valid() && index == CreateCh(old(index), c, s)
      ensures notices == old(notices) + Told(old(index), index, PairOf(s))
    {
      CreateChIn(PairOf(s), c);
    }

    // The submission is None when it has just been deleted; the callback for
    // the submission will then do the work.
    method DeleteSubchange(c: Change, s: Option<Submission>)
      requires Valid() && (s.Some? ==> Has(index, s.value))
      modifies this`index, this`notices, Repr
      ensures Valid() && index == DeleteCh(old(index), c, s)
      ensures notices == old(notices) + ToldByDelete(old(index), c, s)
    {
      if s.Some? {
        DeleteChIn(PairOf(s.value), c.key);
      }
    }

    method MoveSubchange(was: Change, c: Change, t: Option<Submission>, s: Submission)
      requires Valid() && (t.Some? ==> Has(index, t.value)) && Listed(DeleteCh(index, was, t), c, s)
      modifies this`index, this`notices, Repr
      ensures Valid() && index == CreateCh(DeleteCh(old(index), was, t), c, s)
      ensures notices == old(notices) + (ToldByDelete(old(index), was, t) + Told(DeleteCh(old(index), was, t), index, PairOf(s)))
    {
      ghost var first := notices;
      DeleteSubchange(was, t);
      ghost var second := notices;
      CreateSubchange(c, s);
      Appended(first, second, notices);
    }

    method UpdateSubchange(was: Change, c: Change, t: Option<Submission>, s: Submission)
      requires Valid() && Listed(index, c, s) && (t.Some? ==> Has(index, t.value))
      requires Listed(DeleteCh(index, was, t), c, s)
      modifies this`index, this`notices, Repr
      ensures Valid() && index == UpdateCh(old(index), was, c, t, s)
      ensures notices == old(notices) + ToldByUpdate(old(index), was, c, t, s)
    {
      if was.submission != c.submission {
        MoveSubchange(was, c, t, s);
      } else {
        UpdateChIn(PairOf(s), c);
      }
    }

    // A listener starts to listen: it is told of the changes from now on.
    method Listen()
      modifies this`notices
      ensures notices == []
    {
      notices := [];
    }

    // Load the scores from the stores: all submissions, then all subchanges.
    // Any order of the two loops gives the same scores.
    method InitStore(subs: Subs, chs: Chs, modes: Modes)
      requires Valid() && index == map[]
      requires WellKeyed(chs) && Referenced(subs, chs)
      requires forall k :: k in subs ==> subs[k].task in modes
      modifies this, Repr
      ensures Valid() && fresh(Repr - old(Repr))
      ensures Agrees(index, subs, chs, modes)
    {
      LoadSubmissions(subs, modes);
      LoadSubchanges(subs, chs, modes);
    }

    method LoadSubmissions(subs: Subs, modes: Modes)
      requires Valid() && index == map[]
      requires forall k :: k in subs ==> subs[k].task in modes
      modifies this, Repr
      ensures Valid() && fresh(Repr - old(Repr))
      ensures Agrees(index, subs, map[], modes)
    {
      var todo := subs.Keys;
      AllButAll(subs);
      while todo != {}
        invariant Valid() && fresh(Repr - old(Repr))
        invariant todo <= subs.Keys
        invariant Agrees(index, subs - todo, map[], modes)
        decreases |todo|
      {
        var k :| k in todo;
        LoadSubmission(k, subs[k], modes[subs[k].task], subs - todo, modes);
        AllButOneLess(subs, todo, k);
        todo := todo - {k};
      }
      AllButNone(subs);
    }

    method LoadSubmission(k: string, s: Submission, mode: Mode, ghost done: Subs, ghost modes: Modes)
      requires Valid() && Agrees(index, done, map[], modes)
      requires k !in done && s.task in modes && mode == modes[s.task]
      modifies this, Repr
      ensures Valid() && fresh(Repr - old(Repr))
      ensures Agrees(index, done[k := s], map[], modes)
    {
      NonNegativeWelcomeAt(done, map[], modes, PairOf(s));
      CreateSubAgreesIff(index, done, map[], modes, k, s);
      CreateSubmission(k, s, mode);
    }

    method LoadSubchanges(subs: Subs, chs: Chs, modes: Modes)
      requires Valid() && Agrees(index, subs, map[], modes)
      requires WellKeyed(chs) && Referenced(subs, chs)
      modifies this`index, this`notices, Repr
      ensures Valid()
      ensures Agrees(index, subs, chs, modes)
    {
      var todo := chs.Keys;
      ghost var done: Chs := map[];
      AllButAll(chs);
      while todo != {}
        invariant Valid()
        invariant todo <= chs.Keys && done == chs - todo
        invariant Agrees(index, subs, done, modes)
        decreases |todo|
      {
        var k :| k in todo;
        WellKeyedBut(chs, todo);
        LoadSubchange(k, chs[k], subs, done, modes);
        AllButOneLess(chs, todo, k);
        done := done[k := chs[k]];
        todo := todo - {k};
      }
      AllButNone(chs);
    }

    method LoadSubchange(k: string, c: Change, subs: Subs, ghost done: Chs, ghost modes: Modes)
      requires Valid() && Agrees(index, subs, done, modes) && WellKeyed(done)
      requires c.key == k && k !in done && c.submission in subs
      modifies this`index, this`notices, Repr
      ensures Valid() && Agrees(index, subs, done[k := c], modes)
    {
      CreateChAgrees(index, subs, done, modes, c);
      CreateSubchange(c, subs[c.submission]);
    }

    method GetScoreOf(user: string, task: string) returns (r: real)
      requires Valid()
      ensures r == ScoreIn(index, Pair(user, task))
    {
      var p := Pair(user, task);
      if p !in scores {
        return 0.0;
      }
      assert Holds(p);
      r := scores[p].CurrentScore();
    }
  }
}
