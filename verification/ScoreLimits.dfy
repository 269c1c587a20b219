// Where the incremental scores part from a replay of the stored tables: one
// input for each operation that leaves a stale score.
module ScoreLimits {
  import opened Basics
  import opened ScoreReplay
  import opened ScoreLaws
  import opened ScoreLate
  import opened ChangeOrder
  import opened ScoreOps
  import opened ScoreIndex
  import opened ScoreAgreement

  // ----- inputs on which the live score is not the replayed one -----

  const A := Submission("u", "t", 1)
  const B := Submission("u", "t", 2)

  function Scores(key: string, submission: string, time: int, score: real): Change {
    Change(key, submission, time, Some(score), None, None)
  }

  // The best score of one submission is its score.
  lemma OneSubmission(sk: map<string, Submission>, k: string, cs: seq<Change>)
    requires sk.Keys == {k} && Known(sk.Keys, cs)
    ensures ScoreOf(Replay(Max, sk, cs).history) == LatestScore(cs, k)
  {
    ScoreIsCurrent(Max, sk, cs);
    ReplayStatus(Max, sk, cs, k);
    OneScoreOf(Replay(Max, sk, cs).subs, k);
  }

  lemma OneScoreOf(subs: map<string, Status>, k: string)
    requires subs.Keys == {k}
    ensures ScoresOf(subs) == {subs[k].score}
  {
    assert subs[k].score in ScoresOf(subs);
  }

  lemma ListOfOne(c: Change)
    ensures WellKeyed(map[c.key := c]) && SortedList(map[c.key := c]) == [c]
  {
    var chs := map[c.key := c];
    assert chs.Values == {c} by {
      assert chs[c.key] in chs.Values;
    }
    SortedListLists(chs);
    SortedUnique(SortedList(chs), [c]);
  }

  lemma ListOfTwo(c: Change, d: Change, chs: map<string, Change>)
    requires HoldsTwo(chs, c, d) && Before(c, d)
    ensures WellKeyed(chs) && SortedList(chs) == [c, d]
  {
    assert chs.Values == {c, d} by {
      assert chs[c.key] in chs.Values && chs[d.key] in chs.Values;
    }
    SortedListLists(chs);
    SortedUnique(SortedList(chs), [c, d]);
  }

  lemma LatestOfTwo(c: Change, d: Change, k: string)
    ensures LatestScore([c, d], k) == if d.submission == k && d.score.Some? then d.score.value
                                      else if c.submission == k && c.score.Some? then c.score.value else 0.0
    ensures LatestToken([c, d], k) == if d.submission == k && d.token.Some? then d.token.value
                                      else c.submission == k && c.token.Some? && c.token.value
  {
    assert [c, d][..1] == [c] && [c][..0] == [];
    assert LatestScore([c], k) == if c.submission == k && c.score.Some? then c.score.value else 0.0;
    assert LatestToken([c], k) == (c.submission == k && c.token.Some? && c.token.value);
  }

  lemma ReplayedScore(sk: map<string, Submission>, k: string, chs: map<string, Change>)
    requires sk.Keys == {k} && WellKeyed(chs) && Known(sk.Keys, SortedList(chs))
    ensures GetScore(Canonical(Max, sk, chs)) == LatestScore(SortedList(chs), k)
  {
    OneSubmission(sk, k, SortedList(chs));
  }

  lemma ReplaceKnown(subs: set<string>, cs: seq<Change>, c: Change)
    requires Known(subs, cs) && c.submission in subs
    ensures Known(subs, Replace(cs, c.key, c))
  {
  }

  lemma UpdatedScore(sk: map<string, Submission>, k: string, s: ScoreState, chs: map<string, Change>, c: Change)
    requires sk.Keys == {k} && Reflects(s, Max, sk, chs) && c.submission == k
    ensures Safe(s) && k in s.view.subs
    ensures GetScore(UpdateSubchange(s, c.key, c)) == LatestScore(Replace(s.changes, c.key, c), k)
  {
    ReflectsSafe(s, Max, sk, chs);
    ReplaceKnown(sk.Keys, s.changes, c);
    OneSubmission(sk, k, Replace(s.changes, c.key, c));
  }

  predicate HoldsTwo(chs: map<string, Change>, c: Change, d: Change) {
    && chs.Keys == {c.key, d.key} && c.key != d.key
    && chs[c.key] == c && chs[d.key] == d
  }

  // Two changes of one submission at times 1 and 2; the first is moved to time 3.
  // The replay in order ends with its score 5, the live score stays at 7.
  lemma MovedChangeIsStale(sk: map<string, Submission>, k: string, c: Change, d: Change, late: Change,
                           before: map<string, Change>, after: map<string, Change>)
    requires sk.Keys == {k} && c.key != d.key
    requires c == Scores(c.key, k, 1, 5.0) && d == Scores(d.key, k, 2, 7.0) && late == Scores(c.key, k, 3, 5.0)
    requires before == map[c.key := c, d.key := d] && after == before[c.key := late]
    ensures Reflects(Canonical(Max, sk, before), Max, sk, before)
    ensures Safe(Canonical(Max, sk, before)) && k in Canonical(Max, sk, before).view.subs
    ensures GetScore(UpdateSubchange(Canonical(Max, sk, before), c.key, late)) == 7.0
    ensures GetScore(Canonical(Max, sk, after)) == 5.0
  {
    assert HoldsTwo(before, c, d) && HoldsTwo(after, d, late);
    ListOfTwo(c, d, before);
    CanonicalReflects(Max, sk, before);
    LiveScore(sk, k, c, d, late, Canonical(Max, sk, before), before);
    ReplayedAfter(sk, k, d, late, after);
  }

  lemma LiveScore(sk: map<string, Submission>, k: string, c: Change, d: Change, late: Change, s: ScoreState, chs: map<string, Change>)
    requires sk.Keys == {k} && Reflects(s, Max, sk, chs) && s.changes == [c, d]
    requires c.key != d.key && late.key == c.key && late.submission == k && d == Scores(d.key, k, 2, 7.0)
    ensures Safe(s) && k in s.view.subs
    ensures GetScore(UpdateSubchange(s, c.key, late)) == 7.0
  {
    UpdatedScore(sk, k, s, chs, late);
    assert Replace(s.changes, c.key, late) == [late, d];
    LatestOfTwo(late, d, k);
  }

  lemma ReplayedAfter(sk: map<string, Submission>, k: string, d: Change, late: Change, chs: map<string, Change>)
    requires sk.Keys == {k} && HoldsTwo(chs, d, late)
    requires d == Scores(d.key, k, 2, 7.0) && late == Scores(late.key, k, 3, 5.0)
    ensures GetScore(Canonical(Max, sk, chs)) == 5.0
  {
    ListOfTwo(d, late, chs);
    LatestOfTwo(d, late, k);
    ReplayedScore(sk, k, chs);
  }

  // The best of 5 and 3 is 5; the task then counts tokens and the last
  // submission only, which is 3, but after the next update of a submission the
  // live score is still 5.
  lemma ChangedModeIsStale(c: Change, d: Change, subs: map<string, Submission>, chs: map<string, Change>)
    requires c == Scores("c", "a", 1, 5.0) && d == Scores("d", "b", 2, 3.0)
    requires subs == map["a" := A, "b" := B] && chs == map["c" := c, "d" := d]
    ensures Reflects(Canonical(Max, subs, chs), Max, subs, chs)
    ensures Safe(Canonical(Max, subs, chs))
    ensures GetScore(UpdateScoreMode(UpdateSubmission(Canonical(Max, subs, chs), "a", A), MaxTokenedLast)) == 5.0
    ensures GetScore(Canonical(MaxTokenedLast, subs, chs)) == 3.0
  {
    assert HoldsTwo(chs, c, d);
    ListOfTwo(c, d, chs);
    CanonicalReflects(Max, subs, chs);
    SameUpdate(Canonical(Max, subs, chs), Max, subs, chs, "a");
    BothScored(Max, subs, c, d);
    ScoreIsCurrent(Max, subs, [c, d]);
    BestOfTwo(Replay(Max, subs, [c, d]).subs);
    LastOfTwo(subs, c, d);
  }

  lemma SameUpdate(s: ScoreState, mode: Mode, subs: map<string, Submission>, chs: map<string, Change>, k: string)
    requires Reflects(s, mode, subs, chs) && k in subs
    ensures Safe(s) && UpdateSubmission(s, k, subs[k]) == s
  {
    UpdateSubmissionReflects(s, mode, subs, chs, k, subs[k]);
    assert subs[k := subs[k]] == subs;
    ReflectsUnique(s, UpdateSubmission(s, k, subs[k]), mode, subs, chs);
  }

  lemma BothScored(mode: Mode, subs: map<string, Submission>, c: Change, d: Change)
    requires subs == map["a" := A, "b" := B] && c == Scores("c", "a", 1, 5.0) && d == Scores("d", "b", 2, 3.0)
    ensures Known(subs.Keys, [c, d])
    ensures var v := Replay(mode, subs, [c, d]);
            && v.subs.Keys == {"a", "b"} && v.subs["a"].score == 5.0 && v.subs["b"].score == 3.0
            && !v.subs["a"].token && !v.subs["b"].token
  {
    assert subs.Keys == {"a", "b"};
    ReplayStatus(mode, subs, [c, d], "a");
    ReplayStatus(mode, subs, [c, d], "b");
    LatestOfTwo(c, d, "a");
    LatestOfTwo(c, d, "b");
  }

  lemma BestOfTwo(subs: map<string, Status>)
    requires subs.Keys == {"a", "b"} && subs["a"].score == 5.0 && subs["b"].score == 3.0
    ensures MaxOf(ScoresOf(subs)) == 5.0
  {
    assert subs["a"].score in ScoresOf(subs);
  }

  lemma LastOfTwo(subs: map<string, Submission>, c: Change, d: Change)
    requires subs == map["a" := A, "b" := B] && c == Scores("c", "a", 1, 5.0) && d == Scores("d", "b", 2, 3.0)
    ensures Known(subs.Keys, [c, d])
    ensures ScoreOf(Replay(MaxTokenedLast, subs, [c, d]).history) == 3.0
  {
    BothScored(MaxTokenedLast, subs, c, d);
    ReplayLast(MaxTokenedLast, subs, [c, d]);
    assert Scored([c, d], "b") by {
      assert [c, d][1].submission == "b";
    }
    TokenedLastIsBest(subs, [c, d]);
  }

  // A submission scored 5 moves to another user, whose live score is 0 although
  // the stored change still belongs to it.
  lemma MovedSubmissionIsStale(c: Change, moved: Submission, idx: Index)
    requires c == Scores("c", "a", 1, 5.0) && moved == Submission("v", "t", 1)
    requires Agrees(idx, map["a" := A], map["c" := c], map["t" := Max])
    ensures Has(idx, A)
    ensures var after := UpdateSub(idx, "a", A, moved, Max);
            PairOf(moved) in after && GetScore(after[PairOf(moved)]) == 0.0
    ensures GetScore(Canonical(Max, map["a" := moved], map["c" := c])) == 5.0
  {
    var subs := map["a" := A];
    AtPair(idx, subs, map["c" := c], map["t" := Max], "a");
    assert PairOf(moved) !in PairsOf(subs);
    ListOfOne(c);
    assert LatestScore([c], "a") == 5.0;
    assert map["a" := moved].Keys == {"a"};
    ReplayedScore(map["a" := moved], "a", map["c" := c]);
  }

  // A single score of -1, then a second submission without changes: the best
  // score is 0, the live score stays at -1.
  lemma NegativeScoreIsStale()
    ensures var c := Scores("c", "a", 1, -1.0);
            var s := Canonical(Max, map["a" := A], map["c" := c]);
            && Reflects(s, Max, map["a" := A], map["c" := c])
            && GetScore(CreateSubmission(s, "b", B)) == -1.0
            && !Reflects(CreateSubmission(s, "b", B), Max, map["a" := A]["b" := B], map["c" := c])
  {
    var c := Scores("c", "a", 1, -1.0);
    var subs, chs := map["a" := A], map["c" := c];
    CanonicalReflects(Max, subs, chs);
    ListOfOne(c);
    assert subs.Keys == {"a"} && Known({"a"}, [c]);
    OneSubmission(subs, "a", [c]);
    var h := Canonical(Max, subs, chs).view.history;
    assert h[|h| - 1].score == -1.0;
    BestWelcomeIff(subs, [c]);
    CreateSubmissionReflectsIff(Canonical(Max, subs, chs), Max, subs, chs, "b", B);
  }

  // ----- two changes at one time -----

  function Positive(x: real): real {
    if x >= 0.0 then x else 0.0
  }

  lemma OneRow(subs: map<string, Status>, k: string, j: nat)
    requires subs.Keys == {k}
    ensures Column(subs, j) == Cell(subs[k], j)
  {
    assert Cell(subs[k], j) in Cells(subs, j);
  }

  lemma SumOfTwo(subs: map<string, Status>)
    requires subs.Keys != {}
    ensures SumColumns(subs, 2) == Column(subs, 0) + Column(subs, 1)
  {
    assert SumColumns(subs, 1) == SumColumns(subs, 0) + Column(subs, 0);
  }

  // The columns of one row of two, alone and next to a row of zeros.
  lemma TwoColumns(subs: map<string, Status>, k: string, x: real, y: real, l: string, s: Submission)
    requires subs.Keys == {k} && k != l && subs[k].extra == [x, y]
    ensures subs[l := Default(s)].Keys != {}
    ensures SumColumns(subs, 2) == x + y && SumColumns(subs[l := Default(s)], 2) == Positive(x) + Positive(y)
  {
    OneRow(subs, k, 0);
    OneRow(subs, k, 1);
    FreshColumn(subs, l, s, 0);
    FreshColumn(subs, l, s, 1);
    SumOfTwo(subs);
    SumOfTwo(subs[l := Default(s)]);
  }

  // The sum over two subtasks of one submission, alone and next to another that
  // has no changes.
  lemma TwoSubtasks(sk: map<string, Submission>, k: string, cs: seq<Change>, x: real, y: real, l: string, s: Submission)
    requires sk.Keys == {k} && k != l && Known(sk.Keys, cs) && LatestExtra(cs, k) == [x, y]
    ensures Known(sk[l := s].Keys, cs)
    ensures ScoreOf(Replay(MaxSubtask, sk, cs).history) == x + y
    ensures ScoreOf(Replay(MaxSubtask, sk[l := s], cs).history) == Positive(x) + Positive(y)
  {
    UntouchedIsFresh(MaxSubtask, sk, cs, l, s);
    ReplayStatus(MaxSubtask, sk, cs, k);
    var subs := Replay(MaxSubtask, sk, cs).subs;
    TwoColumns(subs, k, x, y, l, s);
    assert |Row(subs[k])| == 2 && |Row(Default(s))| == 1;
    SubtaskIsSumOfBest(sk, cs, 2);
    SubtaskIsSumOfBest(sk[l := s], cs, 2);
  }

  lemma NoScore(sk: map<string, Submission>, cs: seq<Change>)
    requires cs == []
    ensures Known(sk.Keys, cs) && Replay(MaxSubtask, sk, cs).history == []
  {
  }

  lemma OneMore(sk: map<string, Submission>, init: seq<Change>, c: Change, cs: seq<Change>, h: seq<Entry>)
    requires Known(sk.Keys, cs) && cs == init + [c]
    requires Known(sk.Keys, init) && Replay(MaxSubtask, sk, init).history == h
    ensures Replay(MaxSubtask, sk, cs).history == Extend(h, c.time, ScoreOf(Replay(MaxSubtask, sk, cs).history))
  {
    assert cs[..|cs| - 1] == init && cs[..|cs|] == cs;
    LastScore(MaxSubtask, sk, cs);
  }

  lemma OneScore(sk: map<string, Submission>, none: seq<Change>, c: Change, one: seq<Change>, x: real)
    requires none == [] && one == none + [c] && Known(sk.Keys, one) && ScoreOf(Replay(MaxSubtask, sk, one).history) == x
    ensures Replay(MaxSubtask, sk, one).history == Extend([], c.time, x)
  {
    NoScore(sk, none);
    OneMore(sk, none, c, one, []);
  }

  lemma SameEntry(h: seq<Entry>, g: seq<Entry>, time: int, x: real, y: real)
    requires (x == 0.0 || x == y) && y != 0.0 && h == Extend([], time, x) && g == Extend(h, time, y)
    ensures g == [Entry(time, y)]
  {
  }

  lemma TwoScores(sk: map<string, Submission>, one: seq<Change>, d: Change, two: seq<Change>, h: seq<Entry>, x: real)
    requires two == one + [d] && Known(sk.Keys, two) && Known(sk.Keys, one) && Replay(MaxSubtask, sk, one).history == h
    requires h == Extend([], d.time, x) && (x == 0.0 || x == 1.0)
    requires ScoreOf(Replay(MaxSubtask, sk, two).history) == 1.0
    ensures Replay(MaxSubtask, sk, two).history == [Entry(d.time, 1.0)]
  {
    OneMore(sk, one, d, two, h);
    SameEntry(h, Replay(MaxSubtask, sk, two).history, d.time, x, 1.0);
  }

  lemma ExtraOfTwo(c: Change, d: Change, k: string, one: seq<Change>, two: seq<Change>)
    requires c.submission == k && c.extra.Some? && d.submission == k && d.extra.Some?
    requires one == [c] && two == one + [d]
    ensures LatestExtra(one, k) == c.extra.value && LatestExtra(two, k) == d.extra.value
  {
  }

  lemma NotClear(subs: map<string, Status>, k: string, j: nat)
    requires subs.Keys == {k} && Cell(subs[k], j) < 0.0
    ensures !Clear(MaxSubtask, subs)
  {
    OneRow(subs, k, j);
  }

  lemma WelcomeWas(mode: Mode, sk: map<string, Submission>, init: seq<Change>, cs: seq<Change>)
    requires Known(sk.Keys, cs) && Known(sk.Keys, init) && |init| <= |cs| && init == cs[..|init|] && Welcome(mode, sk, cs)
    ensures Clear(mode, Replay(mode, sk, init).subs)
  {
    assert ClearAfter(mode, sk, cs, |init|);
  }

  lemma NegativeIsUnwelcome(sk: map<string, Submission>, k: string, init: seq<Change>, cs: seq<Change>, x: real, y: real)
    requires sk.Keys == {k} && Known(sk.Keys, cs) && Known(sk.Keys, init) && |init| <= |cs| && init == cs[..|init|]
    requires LatestExtra(init, k) == [x, y] && y < 0.0
    ensures !Welcome(MaxSubtask, sk, cs)
  {
    ReplayStatus(MaxSubtask, sk, init, k);
    NotClear(Replay(MaxSubtask, sk, init).subs, k, 1);
    if Welcome(MaxSubtask, sk, cs) {
      WelcomeWas(MaxSubtask, sk, init, cs);
    }
  }

  lemma SameEntries(sk: map<string, Submission>, c: Change, d: Change, one: seq<Change>, two: seq<Change>, x: real)
    requires one == [c] && two == one + [d] && c.time == d.time && (x == 0.0 || x == 1.0)
    requires Known(sk.Keys, two) && Known(sk.Keys, one)
    requires ScoreOf(Replay(MaxSubtask, sk, one).history) == x && ScoreOf(Replay(MaxSubtask, sk, two).history) == 1.0
    ensures Replay(MaxSubtask, sk, two).history == [Entry(d.time, 1.0)]
  {
    OneScore(sk, [], c, one, x);
    TwoScores(sk, one, d, two, Extend([], d.time, x), x);
  }

  lemma EqualTimesSame(sk: map<string, Submission>, k: string, c: Change, d: Change, l: string, s: Submission,
                       one: seq<Change>, two: seq<Change>)
    requires sk.Keys == {k} && k != l && c.time == d.time && one == [c] && two == one + [d]
    requires Known(sk.Keys, one) && Known(sk.Keys, two) && LatestExtra(one, k) == [1.0, -1.0] && LatestExtra(two, k) == [1.0, 0.0]
    ensures Known(sk[l := s].Keys, two)
    ensures Replay(MaxSubtask, sk[l := s], two) == WithFresh(Replay(MaxSubtask, sk, two), l, s)
  {
    TwoSubtasks(sk, k, one, 1.0, -1.0, l, s);
    TwoSubtasks(sk, k, two, 1.0, 0.0, l, s);
    SameEntries(sk, c, d, one, two, 0.0);
    SameEntries(sk[l := s], c, d, one, two, 1.0);
    SameWithFresh(sk, two, l, s);
  }

  // Two changes at one time give the details 1, -1 and then 1, 0. A submission
  // created late is not welcome, for the second column was negative, and yet
  // both histories are a score of 1 at that time.
  lemma EqualTimesHideNegative(sk: map<string, Submission>, k: string, c: Change, d: Change, l: string, s: Submission,
                               one: seq<Change>, two: seq<Change>)
    requires sk.Keys == {k} && k != l && c.submission == d.submission == k && c.time == d.time
    requires c.extra == Some([1.0, -1.0]) && d.extra == Some([1.0, 0.0]) && one == [c] && two == one + [d]
    ensures Known(sk.Keys, two) && Known(sk[l := s].Keys, two)
    ensures !Welcome(MaxSubtask, sk, two)
    ensures Replay(MaxSubtask, sk[l := s], two) == WithFresh(Replay(MaxSubtask, sk, two), l, s)
  {
    ExtraOfTwo(c, d, k, one, two);
    EqualTimesSame(sk, k, c, d, l, s, one, two);
    assert one == two[..|one|];
    NegativeIsUnwelcome(sk, k, one, two, 1.0, -1.0);
  }

  lemma SameWithFresh(sk: map<string, Submission>, cs: seq<Change>, l: string, s: Submission)
    requires Known(sk.Keys, cs) && l !in sk && Known(sk[l := s].Keys, cs)
    requires Replay(MaxSubtask, sk[l := s], cs).history == Replay(MaxSubtask, sk, cs).history
    ensures Replay(MaxSubtask, sk[l := s], cs) == WithFresh(Replay(MaxSubtask, sk, cs), l, s)
  {
    UntouchedIsFresh(MaxSubtask, sk, cs, l, s);
  }
}
