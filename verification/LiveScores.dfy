// What the ranking shows for a user and a task, read off the stored entities alone
// (src/cmsranking/Scoring.py:234-384).
module LiveScores {
  import opened Basics
  import opened ScoreReplay
  import opened ScoreLaws
  import opened ScoreMeaning
  import opened ChangeOrder
  import opened ScoreOps
  import opened ScoreIndex
  import opened ScoringStores
  import opened Entities
  import opened Ledgers

  // ----- the order of the changes -----

  // By time, and by key where the times are the same.
  predicate Earlier(a: Change, b: Change) {
    a.time < b.time || (a.time == b.time && StrLess(a.key, b.key))
  }

  predicate InOrder(cs: seq<Change>) {
    forall i, j :: 0 <= i < j < |cs| ==> Earlier(cs[i], cs[j])
  }

  // A change that gives its submission a score, after every other that does.
  predicate GivesScore(c: Change, k: string) {
    c.submission == k && c.score.Some?
  }

  ghost predicate DecidesScore(cs: seq<Change>, c: Change) {
    c in cs && GivesScore(c, c.submission) && forall d :: d in cs && GivesScore(d, c.submission) && d != c ==> Earlier(d, c)
  }

  lemma {:induction false} LatestScoreAt(cs: seq<Change>, i: nat)
    requires i < |cs| && cs[i].score.Some? && forall j :: i < j < |cs| ==> !GivesScore(cs[j], cs[i].submission)
    ensures LatestScore(cs, cs[i].submission) == cs[i].score.value
    decreases |cs|
  {
    if i < |cs| - 1 {
      LatestScoreAt(cs[..|cs| - 1], i);
    }
  }

  // In a list in order it is the one that counts.
  lemma DecidedScore(cs: seq<Change>, c: Change)
    requires InOrder(cs) && DecidesScore(cs, c)
    ensures LatestScore(cs, c.submission) == c.score.value
  {
    var i :| 0 <= i < |cs| && cs[i] == c;
    forall j | i < j < |cs| ensures !GivesScore(cs[j], c.submission) {
      if GivesScore(cs[j], c.submission) {
        NotBoth(c, cs[j]);
      }
    }
    LatestScoreAt(cs, i);
  }

  lemma NotBoth(a: Change, b: Change)
    requires Earlier(a, b)
    ensures a != b && !Earlier(b, a)
  {
    StrLessIrreflexive(a.key);
    if a.time == b.time && StrLess(b.key, a.key) {
      StrLessTransitive(a.key, b.key, a.key);
    }
  }

  lemma {:induction false} Undecided(cs: seq<Change>, k: string)
    requires forall c :: c in cs ==> !GivesScore(c, k)
    ensures LatestScore(cs, k) == 0.0
  {
    if cs != [] {
      assert cs[|cs| - 1] in cs;
      Undecided(cs[..|cs| - 1], k);
    }
  }

  // If any change gives the submission a score, one of them decides.
  lemma SomeDecides(cs: seq<Change>, k: string) returns (c: Change)
    requires InOrder(cs) && exists d :: d in cs && GivesScore(d, k)
    ensures DecidesScore(cs, c) && c.submission == k
  {
    var i := LastGiving(cs, k);
    c := cs[i];
    forall d | d in cs && GivesScore(d, k) && d != c ensures Earlier(d, c) {
      var j :| 0 <= j < |cs| && cs[j] == d;
      assert j < i;
    }
  }

  lemma {:induction false} LastGiving(cs: seq<Change>, k: string) returns (i: nat)
    requires exists d :: d in cs && GivesScore(d, k)
    ensures i < |cs| && GivesScore(cs[i], k) && forall j :: i < j < |cs| ==> !GivesScore(cs[j], k)
  {
    var n := |cs| - 1;
    if GivesScore(cs[n], k) {
      i := n;
    } else {
      assert exists d :: d in cs[..n] && GivesScore(d, k);
      i := LastGiving(cs[..n], k);
    }
  }

  // ----- one user on one task -----

  // The keys of the stored submissions of the user on the task.
  function Own(rows: Rows, user: string, task: string): set<string>
    requires Typed(rows)
  {
    set r | r in rows && r.kind.SubmissionKind? && rows[r].sub.user == user && rows[r].sub.task == task :: r.key
  }

  lemma OwnAt(rows: Rows, user: string, task: string, k: string)
    requires Typed(rows)
    ensures var r := Ref(SubmissionKind, k);
            k in Own(rows, user, task) <==> r in rows && rows[r].sub.user == user && rows[r].sub.task == task
  {
  }

  function Submissions(rows: Rows, user: string, task: string): map<string, Submission>
    requires Typed(rows)
  {
    map k | k in Own(rows, user, task) :: OwnAt(rows, user, task, k); rows[Ref(SubmissionKind, k)].sub
  }

  // Exactly the stored changes of these submissions, in order.
  ghost predicate AreChanges(rows: Rows, user: string, task: string, cs: seq<Change>)
    requires Typed(rows)
  {
    InOrder(cs)
    && forall c :: c in cs <==>
         var r := Ref(SubchangeKind, c.key);
         r in rows && rows[r].change == c && c.submission in Own(rows, user, task)
  }

  lemma OwnAreSubs(rows: Rows, user: string, task: string)
    requires Typed(rows)
    ensures Submissions(rows, user, task) == SubsOf(SubsIn(rows), Pair(user, task))
  {
    var p := Pair(user, task);
    forall k ensures k in Submissions(rows, user, task) <==> k in SubsOf(SubsIn(rows), p) {
      OwnAt(rows, user, task, k);
      KeyIn(rows, SubmissionKind, k);
    }
  }

  lemma ChangesAreChs(rows: Rows, user: string, task: string, cs: seq<Change>)
    requires Typed(rows)
    ensures AreChanges(rows, user, task, cs) <==> Sorted(cs) && Elems(cs) == ChsOf(SubsIn(rows), ChsIn(rows), Pair(user, task)).Values
  {
    var chs := ChsOf(SubsIn(rows), ChsIn(rows), Pair(user, task));
    forall c ensures c in chs.Values <==>
                     var r := Ref(SubchangeKind, c.key); r in rows && rows[r].change == c && c.submission in Own(rows, user, task)
    {
      ChangeStored(rows, user, task, c);
    }
    assert forall c :: c in cs <==> c in Elems(cs);
    assert forall a, b :: Earlier(a, b) <==> Before(a, b);
  }

  lemma ChangeStored(rows: Rows, user: string, task: string, c: Change)
    requires Typed(rows)
    ensures c in ChsOf(SubsIn(rows), ChsIn(rows), Pair(user, task)).Values <==>
            var r := Ref(SubchangeKind, c.key); r in rows && rows[r].change == c && c.submission in Own(rows, user, task)
  {
    var chs := ChsOf(SubsIn(rows), ChsIn(rows), Pair(user, task));
    ChangeIsCh(rows, user, task, c);
    KeyIn(rows, SubchangeKind, c.key);
    if c.key in chs {
      assert chs[c.key] in chs.Values;
    }
    if c in chs.Values {
      var k :| k in chs && chs[k] == c;
      KeyIn(rows, SubchangeKind, k);
    }
  }

  // There is such a list.
  lemma ChangesExist(rows: Rows, user: string, task: string) returns (cs: seq<Change>)
    requires Typed(rows)
    ensures AreChanges(rows, user, task, cs)
  {
    var chs := ChsOf(SubsIn(rows), ChsIn(rows), Pair(user, task));
    forall k | k in chs ensures chs[k].key == k {
      KeyIn(rows, SubchangeKind, k);
    }
    SortedListLists(chs);
    cs := SortedList(chs);
    ChangesAreChs(rows, user, task, cs);
  }

  lemma ChangeIsCh(rows: Rows, user: string, task: string, c: Change)
    requires Typed(rows)
    ensures Belongs(SubsIn(rows), c, Pair(user, task)) <==> c.submission in Own(rows, user, task)
  {
    KeyIn(rows, SubmissionKind, c.submission);
    OwnAt(rows, user, task, c.submission);
  }

  // In an index that agrees with the stored entities the scores of a user on a task
  // are one replay of these changes over these submissions in the mode of the task.
  lemma LiveView(rows: Rows, idx: Index, user: string, task: string, cs: seq<Change>)
    requires Typed(rows) && AgreesWith(idx, rows) && AreChanges(rows, user, task, cs) && Own(rows, user, task) != {}
    ensures var p, sk := Pair(user, task), Submissions(rows, user, task);
            && p in idx && Ref(TaskKind, task) in rows && Known(sk.Keys, cs)
            && idx[p].view == Replay(rows[Ref(TaskKind, task)].mode, sk, cs)
  {
    var p, subs, chs := Pair(user, task), SubsIn(rows), ChsIn(rows);
    OwnAreSubs(rows, user, task);
    var k := Pick(Own(rows, user, task));
    assert k in SubsOf(subs, p) && PairOf(subs[k]) == p;
    assert RightAt(idx, subs, chs, ModesIn(rows), p);
    KeyIn(rows, TaskKind, task);
    ScoreReflects(subs, chs, ModesIn(rows)[task], p);
    ChangesAreChs(rows, user, task, cs);
    SortedUnique(cs, idx[p].changes);
  }

  // Without a submission the score is zero.
  lemma NoSubmissionNoScore(rows: Rows, idx: Index, user: string, task: string)
    requires Typed(rows) && AgreesWith(idx, rows) && Own(rows, user, task) == {}
    ensures ScoreIn(idx, Pair(user, task)) == 0.0
  {
    OwnAreSubs(rows, user, task);
    NoSubsOf(SubsIn(rows), Pair(user, task));
  }

  // ----- the best score of a user on a task, in words -----

  // The stored subchange that says what the submission scores: it gives a score, and
  // no other that does is later, or as late with a greater key.
  ghost predicate Says(rows: Rows, k: string, c: Change)
    requires Typed(rows)
  {
    var r := Ref(SubchangeKind, c.key);
    && r in rows && rows[r].change == c && c.submission == k && c.score.Some?
    && forall q :: q in rows && q.kind.SubchangeKind? && rows[q].change.submission == k && rows[q].change.score.Some? && q != r ==>
         Earlier(rows[q].change, c)
  }

  lemma SaysIsDecides(rows: Rows, user: string, task: string, cs: seq<Change>, c: Change)
    requires Typed(rows) && AreChanges(rows, user, task, cs) && c.submission in Own(rows, user, task)
    ensures DecidesScore(cs, c) <==> Says(rows, c.submission, c)
  {
    if Says(rows, c.submission, c) {
      forall d | d in cs && GivesScore(d, c.submission) && d != c ensures Earlier(d, c) {
        assert Ref(SubchangeKind, d.key) in rows;
      }
    }
    if DecidesScore(cs, c) {
      forall q | q in rows && q.kind.SubchangeKind? && rows[q].change.submission == c.submission && rows[q].change.score.Some?
                 && q != Ref(SubchangeKind, c.key)
        ensures Earlier(rows[q].change, c)
      {
        var d := rows[q].change;
        assert q == Ref(SubchangeKind, d.key);
        assert d in cs;
      }
    }
  }

  // In a task that counts the best score: no submission says more, and one says as
  // much, or none of its subchanges gives a score and it is zero.
  lemma BestLiveScore(rows: Rows, idx: Index, user: string, task: string)
    requires Typed(rows) && AgreesWith(idx, rows) && Own(rows, user, task) != {}
    requires Ref(TaskKind, task) in rows && rows[Ref(TaskKind, task)].mode == Max
    ensures var best := ScoreIn(idx, Pair(user, task));
            && (forall k, c :: k in Own(rows, user, task) && Says(rows, k, c) ==> c.score.value <= best)
            && exists k :: k in Own(rows, user, task)
                           && ((exists c :: Says(rows, k, c) && c.score.value == best) || (best == 0.0 && forall c :: !Says(rows, k, c)))
  {
    var sk, best := Submissions(rows, user, task), ScoreIn(idx, Pair(user, task));
    var cs := ChangesExist(rows, user, task);
    LiveView(rows, idx, user, task, cs);
    MaxIsBestScore(sk, cs);
    assert sk.Keys == Own(rows, user, task);
    forall k, c | k in Own(rows, user, task) && Says(rows, k, c) ensures c.score.value <= best {
      SaysIsDecides(rows, user, task, cs, c);
      DecidedScore(cs, c);
    }
    var k :| k in sk && LatestScore(cs, k) == best;
    if d :| d in cs && GivesScore(d, k) {
      var c := SomeDecides(cs, k);
      SaysIsDecides(rows, user, task, cs, c);
      DecidedScore(cs, c);
    } else {
      Undecided(cs, k);
      forall c ensures !Says(rows, k, c) {
      }
    }
  }

  // ----- changes at one time -----

  // Of two changes of a submission at one time the one with the greater key counts,
  // in whichever order they arrive.
  lemma GreaterKeyCounts(s: ScoreState, k: string, sub: Submission, a: Change, b: Change)
    requires Reflects(s, Max, map[k := sub], map[]) && a.key == "a" && b.key == "b" && a.time == b.time
    requires a.submission == b.submission == k && a.score.Some? && b.score.Some?
    ensures Safe(s) && k in s.view.subs
    ensures var t := CreateSubchange(s, a); k in t.view.subs && Safe(t) && GetScore(CreateSubchange(t, b)) == b.score.value
    ensures var t := CreateSubchange(s, b); k in t.view.subs && Safe(t) && GetScore(CreateSubchange(t, a)) == b.score.value
  {
    var chs := map[a.key := a, b.key := b];
    ArriveBoth(s, k, sub, a, b, chs);
    ArriveBoth(s, k, sub, b, a, chs);
    TwoAtOneTime(CreateSubchange(CreateSubchange(s, a), b), k, sub, a, b, chs);
    TwoAtOneTime(CreateSubchange(CreateSubchange(s, b), a), k, sub, a, b, chs);
  }

  lemma OneMore(s: ScoreState, sk: map<string, Submission>, chs: map<string, Change>, c: Change, more: map<string, Change>)
    requires Reflects(s, Max, sk, chs) && WellKeyed(chs) && c.key !in chs && c.submission in sk && more == chs[c.key := c]
    ensures Safe(s) && c.submission in s.view.subs && Reflects(CreateSubchange(s, c), Max, sk, more)
    ensures Safe(CreateSubchange(s, c)) && CreateSubchange(s, c).view.subs.Keys == sk.Keys
  {
    CreateSubchangeReflects(s, Max, sk, chs, c);
    ReflectsSafe(CreateSubchange(s, c), Max, sk, more);
  }

  lemma ArriveBoth(s: ScoreState, k: string, sub: Submission, x: Change, y: Change, chs: map<string, Change>)
    requires Reflects(s, Max, map[k := sub], map[]) && x.key != y.key && x.submission == y.submission == k
    requires chs.Keys == {x.key, y.key} && chs[x.key] == x && chs[y.key] == y
    ensures Safe(s) && k in s.view.subs
    ensures var t := CreateSubchange(s, x);
            k in t.view.subs && Safe(t) && Reflects(CreateSubchange(t, y), Max, map[k := sub], chs)
  {
    var sk, none, one := map[k := sub], map[], map[x.key := x];
    BothListed(x, y, none, one, chs);
    OneMore(s, sk, none, x, one);
    OneMore(CreateSubchange(s, x), sk, one, y, chs);
  }

  lemma BothListed(x: Change, y: Change, none: map<string, Change>, one: map<string, Change>, chs: map<string, Change>)
    requires none == map[] && one == map[x.key := x] && x.key != y.key
    requires chs.Keys == {x.key, y.key} && chs[x.key] == x && chs[y.key] == y
    ensures one == none[x.key := x] && chs == one[y.key := y]
    ensures x.key !in none && y.key !in one && WellKeyed(none) && WellKeyed(one)
  {
  }

  lemma TwoAtOneTime(s: ScoreState, k: string, sub: Submission, a: Change, b: Change, chs: map<string, Change>)
    requires Reflects(s, Max, map[k := sub], chs) && chs == map[a.key := a, b.key := b]
    requires a.key == "a" && b.key == "b" && a.time == b.time
    requires a.submission == b.submission == k && a.score.Some? && b.score.Some?
    ensures GetScore(s) == b.score.value
  {
    var sk := map[k := sub];
    StrLessAt(a.key, b.key, 0);
    assert chs["a"] == a && chs["b"] == b;
    assert chs.Values == {a, b};
    forall c | c in s.changes ensures c == a || c == b {
      assert c in Elems(s.changes);
    }
    assert b in Elems(s.changes);
    assert DecidesScore(s.changes, b);
    assert forall i, j :: 0 <= i < j < |s.changes| ==> Before(s.changes[i], s.changes[j]) && Earlier(s.changes[i], s.changes[j]);
    DecidedScore(s.changes, b);
    MaxIsBestScore(sk, s.changes);
    assert sk.Keys == {k};
  }
}
