// What a score is, read off the changes alone: the latest score, token and details
// of every submission, in each of the three modes, now and at any moment in the past
// (src/cmsranking/Scoring.py:103-144).
module ScoreMeaning {
  import opened Basics
  import opened ScoreReplay
  import opened ScoreLaws

  // ----- the best submission -----

  // s is the greatest of the latest scores of the submissions.
  ghost predicate IsBestScore(sk: map<string, Submission>, cs: seq<Change>, s: real) {
    (forall k :: k in sk ==> LatestScore(cs, k) <= s) && exists k :: k in sk && LatestScore(cs, k) == s
  }

  lemma MaxIsBestScore(sk: map<string, Submission>, cs: seq<Change>)
    requires Known(sk.Keys, cs) && sk.Keys != {}
    ensures IsBestScore(sk, cs, ScoreOf(Replay(Max, sk, cs).history))
  {
    var v := Replay(Max, sk, cs);
    ScoreIsCurrent(Max, sk, cs);
    forall k | k in sk ensures v.subs[k].score == LatestScore(cs, k) {
      ReplayStatus(Max, sk, cs, k);
    }
    var s := ScoreOf(v.history);
    assert s in ScoresOf(v.subs);
    forall k | k in sk ensures LatestScore(cs, k) <= s {
      assert v.subs[k].score in ScoresOf(v.subs);
    }
  }

  // ----- the best of every subtask -----

  // What submission k has for subtask j: its latest details, or its score for the
  // first subtask if it has none.
  function Part(cs: seq<Change>, k: string, j: nat): real {
    var details := LatestExtra(cs, k);
    if details == [] then (if j == 0 then LatestScore(cs, k) else 0.0)
    else if j < |details| then details[j]
    else 0.0
  }

  ghost predicate IsBestPart(sk: map<string, Submission>, cs: seq<Change>, j: nat, b: real) {
    (forall k :: k in sk ==> Part(cs, k, j) <= b) && exists k :: k in sk && Part(cs, k, j) == b
  }

  function Total(xs: seq<real>): real {
    if xs == [] then 0.0 else Total(xs[..|xs| - 1]) + xs[|xs| - 1]
  }

  lemma PartIsCell(sk: map<string, Submission>, cs: seq<Change>, k: string, j: nat)
    requires Known(sk.Keys, cs) && k in sk
    ensures var s := Replay(MaxSubtask, sk, cs).subs[k];
            Cell(s, j) == Part(cs, k, j) && |Row(s)| == if LatestExtra(cs, k) == [] then 1 else |LatestExtra(cs, k)|
  {
    ReplayStatus(MaxSubtask, sk, cs, k);
  }

  lemma BestPartIsColumn(sk: map<string, Submission>, cs: seq<Change>, j: nat, b: real)
    requires Known(sk.Keys, cs) && sk.Keys != {} && IsBestPart(sk, cs, j, b)
    ensures Column(Replay(MaxSubtask, sk, cs).subs, j) == b
  {
    var subs := Replay(MaxSubtask, sk, cs).subs;
    forall k | k in sk ensures Cell(subs[k], j) == Part(cs, k, j) {
      PartIsCell(sk, cs, k, j);
    }
    var k :| k in sk && Part(cs, k, j) == b;
    assert Cell(subs[k], j) in Cells(subs, j);
  }

  lemma {:induction false} TotalIsSum(sk: map<string, Submission>, cs: seq<Change>, best: seq<real>)
    requires Known(sk.Keys, cs) && sk.Keys != {} && forall j :: 0 <= j < |best| ==> IsBestPart(sk, cs, j, best[j])
    ensures SumColumns(Replay(MaxSubtask, sk, cs).subs, |best|) == Total(best)
  {
    if best != [] {
      var n := |best| - 1;
      TotalIsSum(sk, cs, best[..n]);
      BestPartIsColumn(sk, cs, n, best[n]);
    }
  }

  // With subtasks: the sum over the subtasks of the best that any submission has for
  // it; no subtask is left out as long as no details are longer.
  lemma SubtaskScoreIsTotal(sk: map<string, Submission>, cs: seq<Change>, best: seq<real>)
    requires Known(sk.Keys, cs) && sk.Keys != {} && best != []
    requires forall k :: k in sk ==> |LatestExtra(cs, k)| <= |best|
    requires forall j :: 0 <= j < |best| ==> IsBestPart(sk, cs, j, best[j])
    ensures ScoreOf(Replay(MaxSubtask, sk, cs).history) == Total(best)
  {
    forall k | k in sk ensures |Row(Replay(MaxSubtask, sk, cs).subs[k])| <= |best| {
      PartIsCell(sk, cs, k, 0);
    }
    SubtaskIsSumOfBest(sk, cs, |best|);
    TotalIsSum(sk, cs, best);
  }

  // Without any details: the best score.
  lemma NoDetailsIsBestScore(sk: map<string, Submission>, cs: seq<Change>)
    requires Known(sk.Keys, cs) && sk.Keys != {} && forall k :: k in sk ==> LatestExtra(cs, k) == []
    ensures IsBestScore(sk, cs, ScoreOf(Replay(MaxSubtask, sk, cs).history))
  {
    MaxIsBestScore(sk, cs);
    var s := ScoreOf(Replay(Max, sk, cs).history);
    var k :| k in sk && LatestScore(cs, k) == s;
    assert Part(cs, k, 0) == s;
    assert IsBestPart(sk, cs, 0, s);
    SubtaskScoreIsTotal(sk, cs, [s]);
    assert Total([s]) == Total([]) + s;
  }

  // ----- the tokened submissions and the last one -----

  // Submission k gets a score by a change before any that gives one to q.
  ghost predicate ScoredFirst(cs: seq<Change>, k: string, q: string) {
    exists n :: 0 <= n <= |cs| && Scored(cs[..n], k) && !Scored(cs[..n], q)
  }

  // Of several submissions that were submitted together the last one is the one that
  // received a score first.
  ghost predicate FirstOfLatest(sk: map<string, Submission>, cs: seq<Change>, last: string)
    requires last in sk
  {
    forall k :: k in sk && Scored(cs, k) && k != last && sk[k].time == sk[last].time ==> ScoredFirst(cs, last, k)
  }

  ghost predicate IsLast(sk: map<string, Submission>, cs: seq<Change>, last: Option<string>) {
    LastIsLatest(sk, cs, last) && (last.Some? ==> FirstOfLatest(sk, cs, last.value))
  }

  lemma ScoredFirstMore(cs: seq<Change>, c: Change, k: string, q: string)
    requires ScoredFirst(cs, k, q)
    ensures ScoredFirst(cs + [c], k, q)
  {
    var n :| 0 <= n <= |cs| && Scored(cs[..n], k) && !Scored(cs[..n], q);
    assert (cs + [c])[..n] == cs[..n];
  }

  lemma StaysFirst(sk: map<string, Submission>, cs: seq<Change>, c: Change, last: string)
    requires last in sk && Scored(cs, last) && FirstOfLatest(sk, cs, last)
    ensures FirstOfLatest(sk, cs + [c], last)
  {
    var more := cs + [c];
    forall k | k in sk && Scored(more, k) && k != last && sk[k].time == sk[last].time ensures ScoredFirst(more, last, k) {
      ScoredSnoc(more, k);
      assert more[..|cs|] == cs;
      if Scored(cs, k) {
        ScoredFirstMore(cs, c, last, k);
      }
    }
  }

  lemma BecomesFirst(sk: map<string, Submission>, cs: seq<Change>, c: Change, last: Option<string>)
    requires LastIsLatest(sk, cs, last) && c.submission in sk
    requires last.Some? ==> sk[c.submission].time > sk[last.value].time
    ensures FirstOfLatest(sk, cs + [c], c.submission)
  {
    var more := cs + [c];
    forall k | k in sk && Scored(more, k) && k != c.submission ensures sk[k].time != sk[c.submission].time {
      ScoredSnoc(more, k);
      assert more[..|cs|] == cs;
    }
  }

  lemma {:induction false} ReplayIsLast(mode: Mode, sk: map<string, Submission>, cs: seq<Change>)
    requires Known(sk.Keys, cs)
    ensures IsLast(sk, cs, Replay(mode, sk, cs).last)
  {
    ReplayLast(mode, sk, cs);
    if cs != [] {
      var init, c := cs[..|cs| - 1], cs[|cs| - 1];
      assert cs == init + [c];
      ReplayIsLast(mode, sk, init);
      LastOfStep(mode, sk, init, c);
      var last := Replay(mode, sk, init).last;
      if Replay(mode, sk, cs).last != last {
        BecomesFirst(sk, init, c, last);
      } else if last.Some? {
        StaysFirst(sk, init, c, last.value);
      }
    }
  }

  lemma LastOfStep(mode: Mode, sk: map<string, Submission>, cs: seq<Change>, c: Change)
    requires Known(sk.Keys, cs) && c.submission in sk && Known(sk.Keys, cs + [c])
    ensures var was, last := Replay(mode, sk, cs).last, Replay(mode, sk, cs + [c]).last;
            last != was ==> last == Some(c.submission) && (was.Some? ==> was.value in sk && sk[c.submission].time > sk[was.value].time)
  {
    ReplayAppend(mode, sk, cs, c);
    var v := Replay(mode, sk, cs);
    SkeletonAt(v.subs, c.submission);
    if v.last.Some? {
      SkeletonAt(v.subs, v.last.value);
    }
  }

  // With tokens: zero, or the best of the submissions that have a token or are the
  // last one, by the latest scores and tokens.
  lemma TokenedLastScore(sk: map<string, Submission>, cs: seq<Change>)
    requires Known(sk.Keys, cs)
    ensures var best, last := ScoreOf(Replay(MaxTokenedLast, sk, cs).history), Replay(MaxTokenedLast, sk, cs).last;
            && IsLast(sk, cs, last)
            && best >= 0.0
            && (forall k :: k in sk && (LatestToken(cs, k) || last == Some(k)) ==> LatestScore(cs, k) <= best)
            && (best == 0.0 || exists k :: k in sk && (LatestToken(cs, k) || last == Some(k)) && LatestScore(cs, k) == best)
  {
    TokenedLastIsBest(sk, cs);
    ReplayIsLast(MaxTokenedLast, sk, cs);
    forall k | k in sk
      ensures Replay(MaxTokenedLast, sk, cs).subs[k] == Status(sk[k], LatestScore(cs, k), LatestToken(cs, k), LatestExtra(cs, k))
    {
      ReplayStatus(MaxTokenedLast, sk, cs, k);
    }
  }

  // There is at most one such last submission.
  lemma LastIsUnique(sk: map<string, Submission>, cs: seq<Change>, a: Option<string>, b: Option<string>)
    requires Known(sk.Keys, cs) && IsLast(sk, cs, a) && IsLast(sk, cs, b)
    ensures a == b
  {
    if a.Some? && b.Some? && a != b {
      var n :| 0 <= n <= |cs| && Scored(cs[..n], a.value) && !Scored(cs[..n], b.value);
      var m :| 0 <= m <= |cs| && Scored(cs[..m], b.value) && !Scored(cs[..m], a.value);
      if n <= m {
        ScoredLonger(cs, n, m, a.value);
      } else {
        ScoredLonger(cs, m, n, b.value);
      }
    }
  }

  lemma ScoredLonger(cs: seq<Change>, n: nat, m: nat, k: string)
    requires n <= m <= |cs| && Scored(cs[..n], k)
    ensures Scored(cs[..m], k)
  {
    var i :| 0 <= i < n && cs[..n][i].submission == k && cs[..n][i].score.Some?;
    assert cs[..m][i] == cs[..n][i];
  }

  // ----- the history, read at a moment -----

  function ReadAt(h: seq<Entry>, t: int): real {
    if h == [] then 0.0
    else if h[|h| - 1].time <= t then h[|h| - 1].score
    else ReadAt(h[..|h| - 1], t)
  }

  lemma ReadOlder(h: seq<Entry>, time: int, score: real, t: int)
    requires time > t
    ensures ReadAt(Extend(h, time, score), t) == ReadAt(h, t)
  {
    assert (h + [Entry(time, score)])[..|h|] == h;
  }

  lemma LaterUnread(mode: Mode, sk: map<string, Submission>, cs: seq<Change>, t: int)
    requires Known(sk.Keys, cs) && cs != [] && cs[|cs| - 1].time > t
    ensures ReadAt(Replay(mode, sk, cs).history, t) == ReadAt(Replay(mode, sk, cs[..|cs| - 1]).history, t)
  {
    HistorySnoc(mode, sk, cs);
    var w := Replay(mode, sk, cs);
    ReadOlder(Replay(mode, sk, cs[..|cs| - 1]).history, cs[|cs| - 1].time, Current(mode, w.subs, w.released, w.last), t);
  }

  lemma ReadNow(mode: Mode, sk: map<string, Submission>, cs: seq<Change>, t: int)
    requires Known(sk.Keys, cs) && ChangeTimesGrow(cs) && (cs != [] ==> cs[|cs| - 1].time <= t)
    ensures ReadAt(Replay(mode, sk, cs).history, t) == ScoreOf(Replay(mode, sk, cs).history)
  {
    ReplayTimesGrow(mode, sk, cs);
  }

  // Exactly the first n changes are not later than this.
  predicate UpTo(cs: seq<Change>, t: int, n: nat) {
    n <= |cs| && forall i :: 0 <= i < |cs| ==> (cs[i].time <= t <==> i < n)
  }

  lemma UpToLess(cs: seq<Change>, t: int, n: nat)
    requires UpTo(cs, t, n)
    ensures n == |cs| > 0 ==> cs[|cs| - 1].time <= t
    ensures n < |cs| ==> cs[|cs| - 1].time > t && UpTo(cs[..|cs| - 1], t, n)
  {
  }

  // What the history says about a moment is what the score is after exactly the
  // changes up to then.
  lemma {:induction false} HistoryReads(mode: Mode, sk: map<string, Submission>, cs: seq<Change>, n: nat, t: int)
    requires Known(sk.Keys, cs) && ChangeTimesGrow(cs) && UpTo(cs, t, n)
    ensures ReadAt(Replay(mode, sk, cs).history, t) == ScoreOf(Replay(mode, sk, cs[..n]).history)
    decreases |cs|
  {
    UpToLess(cs, t, n);
    if n == |cs| {
      ReadNow(mode, sk, cs, t);
      assert cs[..n] == cs;
    } else {
      var init := cs[..|cs| - 1];
      assert ChangeTimesGrow(init) && Known(sk.Keys, init);
      HistoryReads(mode, sk, init, n, t);
      LaterUnread(mode, sk, cs, t);
      SameStart(cs, n);
    }
  }

  lemma SameStart(cs: seq<Change>, n: nat)
    requires n < |cs|
    ensures cs[..|cs| - 1][..n] == cs[..n]
  {
  }
}
