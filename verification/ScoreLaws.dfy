// Laws of the replay: what the released multiset, the last submission, the
// statuses and the history mean, without reference to how they are updated.
module ScoreLaws {
  import opened Basics
  import opened ScoreReplay

  // ----- the released multiset -----

  // The tokened submissions whose current score is x.
  function Holders(subs: map<string, Status>, x: real): set<string> {
    set k | k in subs && subs[k].token && subs[k].score == x
  }

  // The released multiset holds the current scores of the tokened
  // submissions: each score as often as there are such submissions.
  ghost predicate ReleasedExact(v: View) {
    forall x :: v.released[x] == |Holders(v.subs, x)|
  }

  lemma HoldersOfUpdate(subs: map<string, Status>, k: string, t: Status, x: real)
    requires k in subs
    ensures Holders(subs[k := t], x) ==
            if t.token && t.score == x then Holders(subs, x) + {k} else Holders(subs, x) - {k}
  {
  }

  // A change never removes a score that is not there, and leaves the released
  // multiset equal to the scores of the tokened submissions.
  lemma StepKeepsReleased(mode: Mode, v: View, c: Change)
    requires WellFormed(v) && c.submission in v.subs && ReleasedExact(v)
    ensures v.subs[c.submission].token ==> v.subs[c.submission].score in v.released
    ensures ReleasedExact(Step(mode, v, c))
  {
    var s, k := v.subs[c.submission], c.submission;
    var w := Step(mode, v, c);
    if s.token {
      assert k in Holders(v.subs, s.score);
    }
    forall x ensures w.released[x] == |Holders(w.subs, x)| {
      HoldersOfUpdate(v.subs, k, Patch(s, c), x);
      assert k in Holders(v.subs, x) <==> s.token && s.score == x;
    }
  }

  lemma {:induction false} ReplayReleased(mode: Mode, sk: map<string, Submission>, cs: seq<Change>)
    requires Known(sk.Keys, cs)
    ensures ReleasedExact(Replay(mode, sk, cs))
  {
    if cs == [] {
      assert forall x :: Holders(Reset(sk), x) == {};
    } else {
      var init := cs[..|cs| - 1];
      ReplayReleased(mode, sk, init);
      StepKeepsReleased(mode, Replay(mode, sk, init), cs[|cs| - 1]);
    }
  }

  // ----- statuses and the last submission, without updates -----

  // The score, token and details given to submission k by the last change that
  // mentions them.
  function LatestScore(cs: seq<Change>, k: string): real {
    if cs == [] then 0.0
    else
      var c := cs[|cs| - 1];
      if c.submission == k && c.score.Some? then c.score.value else LatestScore(cs[..|cs| - 1], k)
  }

  function LatestToken(cs: seq<Change>, k: string): bool {
    if cs == [] then false
    else
      var c := cs[|cs| - 1];
      if c.submission == k && c.token.Some? then c.token.value else LatestToken(cs[..|cs| - 1], k)
  }

  function LatestExtra(cs: seq<Change>, k: string): seq<real> {
    if cs == [] then []
    else
      var c := cs[|cs| - 1];
      if c.submission == k && c.extra.Some? then c.extra.value else LatestExtra(cs[..|cs| - 1], k)
  }

  lemma {:induction false} ReplayStatus(mode: Mode, sk: map<string, Submission>, cs: seq<Change>, k: string)
    requires Known(sk.Keys, cs) && k in sk
    ensures Replay(mode, sk, cs).subs[k] == Status(sk[k], LatestScore(cs, k), LatestToken(cs, k), LatestExtra(cs, k))
  {
    if cs != [] {
      ReplayStatus(mode, sk, cs[..|cs| - 1], k);
    }
  }

  // Some change gives submission k a score.
  ghost predicate Scored(cs: seq<Change>, k: string) {
    exists i :: 0 <= i < |cs| && cs[i].submission == k && cs[i].score.Some?
  }

  lemma ScoredSnoc(cs: seq<Change>, k: string)
    requires cs != []
    ensures var c := cs[|cs| - 1];
            Scored(cs, k) <==> Scored(cs[..|cs| - 1], k) || (c.submission == k && c.score.Some?)
  {
    var init := cs[..|cs| - 1];
    if Scored(init, k) {
      var i :| 0 <= i < |init| && init[i].submission == k && init[i].score.Some?;
      assert cs[i] == init[i];
    }
    if Scored(cs, k) {
      var i :| 0 <= i < |cs| && cs[i].submission == k && cs[i].score.Some?;
      assert i < |init| ==> cs[i] == init[i];
    }
  }

  ghost predicate LastIsLatest(sk: map<string, Submission>, cs: seq<Change>, last: Option<string>) {
    if last.None? then forall k :: k in sk ==> !Scored(cs, k)
    else
      && last.value in sk
      && Scored(cs, last.value)
      && forall k :: k in sk && Scored(cs, k) ==> sk[k].time <= sk[last.value].time
  }

  // The last submission is one that received a score, and no submission that
  // received a score was submitted later.
  lemma {:induction false} ReplayLast(mode: Mode, sk: map<string, Submission>, cs: seq<Change>)
    requires Known(sk.Keys, cs)
    ensures LastIsLatest(sk, cs, Replay(mode, sk, cs).last)
  {
    if cs != [] {
      var init, c := cs[..|cs| - 1], cs[|cs| - 1];
      ReplayLast(mode, sk, init);
      var v := Replay(mode, sk, init);
      SkeletonAt(v.subs, c.submission);
      if v.last.Some? {
        SkeletonAt(v.subs, v.last.value);
      }
      forall k ensures Scored(cs, k) <==> Scored(init, k) || (c.submission == k && c.score.Some?) {
        ScoredSnoc(cs, k);
      }
    }
  }

  lemma SkeletonAt(subs: map<string, Status>, k: string)
    requires k in subs
    ensures Skeleton(subs)[k] == subs[k].sub
  {
  }

  // ----- what the score is, in each mode -----

  lemma ColumnPadding(subs: map<string, Status>, w: nat, j: nat)
    requires subs.Keys != {} && IsWidth(subs, w) && j >= w
    ensures Column(subs, j) == 0.0
  {
    assert Column(subs, j) in Cells(subs, j);
  }

  // Adding columns past the longest row changes nothing: the padding is zero.
  lemma {:induction false} SumColumnsPadding(subs: map<string, Status>, w: nat, n: nat)
    requires subs.Keys != {} && IsWidth(subs, w) && n >= w
    ensures SumColumns(subs, n) == SumColumns(subs, w)
  {
    if n > w {
      SumColumnsPadding(subs, w, n - 1);
      ColumnPadding(subs, w, n - 1);
    }
  }

  lemma {:induction false} SumColumnsOfReset(sk: map<string, Submission>, n: nat)
    requires sk.Keys != {}
    ensures Reset(sk).Keys == sk.Keys
    ensures SumColumns(Reset(sk), n) == 0.0
  {
    assert Reset(sk).Keys == sk.Keys;
    if n > 0 {
      SumColumnsOfReset(sk, n - 1);
      assert forall k :: k in Reset(sk) ==> Cell(Reset(sk)[k], n - 1) == 0.0;
    }
  }

  lemma CurrentOfReset(mode: Mode, sk: map<string, Submission>)
    ensures Current(mode, Reset(sk), multiset{}, None) == 0.0
  {
    assert Reset(sk).Keys == sk.Keys;
    if sk.Keys != {} {
      SumColumnsOfReset(sk, Width(Reset(sk)));
    }
    var none: multiset<real> := multiset{};
    assert (set x | x in none) == {};
  }

  // At every moment the current score is the one computed from the statuses,
  // the released scores and the last submission at that moment.
  lemma ScoreIsCurrent(mode: Mode, sk: map<string, Submission>, cs: seq<Change>)
    requires Known(sk.Keys, cs)
    ensures var v := Replay(mode, sk, cs);
            ScoreOf(v.history) == Current(mode, v.subs, v.released, v.last)
  {
    if cs == [] {
      CurrentOfReset(mode, sk);
    } else {
      HistorySnoc(mode, sk, cs);
    }
  }

  lemma QueryBounds(v: View, k: string)
    requires ReleasedExact(v) && k in v.subs && v.subs[k].token
    ensures v.subs[k].score <= Query(v.released)
  {
    var x := v.subs[k].score;
    assert k in Holders(v.subs, x);
    assert v.released[x] == |Holders(v.subs, x)| > 0;
    assert x in (set y | y in v.released) + {0.0};
  }

  lemma QueryAttained(v: View)
    requires ReleasedExact(v)
    ensures Query(v.released) >= 0.0
    ensures Query(v.released) == 0.0 || exists k :: k in v.subs && v.subs[k].token && v.subs[k].score == Query(v.released)
  {
    var q := Query(v.released);
    if q != 0.0 {
      assert |Holders(v.subs, q)| > 0;
      assert Pick(Holders(v.subs, q)) in Holders(v.subs, q);
    }
  }

  // With tokens: the best of zero, every tokened submission and the last one.
  lemma TokenedLastIsBest(sk: map<string, Submission>, cs: seq<Change>)
    requires Known(sk.Keys, cs)
    ensures var v := Replay(MaxTokenedLast, sk, cs);
            var best := ScoreOf(v.history);
            && best >= 0.0
            && (forall k :: k in sk && v.subs[k].token ==> v.subs[k].score <= best)
            && (v.last.Some? ==> v.subs[v.last.value].score <= best)
            && (best == 0.0
                || (exists k :: k in sk && v.subs[k].token && v.subs[k].score == best)
                || (v.last.Some? && v.subs[v.last.value].score == best))
  {
    var v := Replay(MaxTokenedLast, sk, cs);
    ScoreIsCurrent(MaxTokenedLast, sk, cs);
    ReplayReleased(MaxTokenedLast, sk, cs);
    forall k | k in sk && v.subs[k].token ensures v.subs[k].score <= Query(v.released) {
      QueryBounds(v, k);
    }
    QueryAttained(v);
  }

  // With subtasks: for any number of columns that covers every row, the sum of
  // the best value in each column.
  lemma SubtaskIsSumOfBest(sk: map<string, Submission>, cs: seq<Change>, n: nat)
    requires Known(sk.Keys, cs) && sk.Keys != {}
    requires forall k :: k in sk ==> |Row(Replay(MaxSubtask, sk, cs).subs[k])| <= n
    ensures ScoreOf(Replay(MaxSubtask, sk, cs).history) == SumColumns(Replay(MaxSubtask, sk, cs).subs, n)
  {
    var v := Replay(MaxSubtask, sk, cs);
    ScoreIsCurrent(MaxSubtask, sk, cs);
    assert IsWidth(v.subs, Width(v.subs));
    SumColumnsPadding(v.subs, Width(v.subs), n);
  }

  // ----- the history -----

  // No two neighbours are equal, and the implicit score before the first entry
  // is zero.
  predicate Alternates(h: seq<Entry>) {
    && (h != [] ==> h[0].score != 0.0)
    && forall i :: 0 < i < |h| ==> h[i].score != h[i - 1].score
  }

  lemma ExtendAlternates(h: seq<Entry>, time: int, score: real)
    requires Alternates(h)
    ensures Alternates(Extend(h, time, score))
  {
  }

  lemma HistorySnoc(mode: Mode, sk: map<string, Submission>, cs: seq<Change>)
    requires Known(sk.Keys, cs) && cs != []
    ensures var w := Replay(mode, sk, cs);
            w.history == Extend(Replay(mode, sk, cs[..|cs| - 1]).history, cs[|cs| - 1].time, Current(mode, w.subs, w.released, w.last))
  {
  }

  lemma {:induction false} ReplayAlternates(mode: Mode, sk: map<string, Submission>, cs: seq<Change>)
    requires Known(sk.Keys, cs)
    ensures Alternates(Replay(mode, sk, cs).history)
  {
    if cs != [] {
      var init, w := cs[..|cs| - 1], Replay(mode, sk, cs);
      ReplayAlternates(mode, sk, init);
      HistorySnoc(mode, sk, cs);
      ExtendAlternates(Replay(mode, sk, init).history, cs[|cs| - 1].time, Current(mode, w.subs, w.released, w.last));
    }
  }

  predicate TimesGrow(h: seq<Entry>) {
    forall i, j :: 0 <= i <= j < |h| ==> h[i].time <= h[j].time
  }

  predicate ChangeTimesGrow(cs: seq<Change>) {
    forall i, j :: 0 <= i <= j < |cs| ==> cs[i].time <= cs[j].time
  }

  lemma ExtendGrows(h: seq<Entry>, time: int, score: real)
    requires TimesGrow(h) && (h != [] ==> h[|h| - 1].time <= time)
    ensures TimesGrow(Extend(h, time, score))
    ensures var g := Extend(h, time, score); g != [] ==> g[|g| - 1].time <= time
  {
  }

  lemma {:induction false} ReplayTimesGrow(mode: Mode, sk: map<string, Submission>, cs: seq<Change>)
    requires Known(sk.Keys, cs) && ChangeTimesGrow(cs)
    ensures var h := Replay(mode, sk, cs).history;
            TimesGrow(h) && (h != [] ==> cs != [] && h[|h| - 1].time <= cs[|cs| - 1].time)
  {
    if cs != [] {
      var n := |cs| - 1;
      var v := Replay(mode, sk, cs[..n]);
      ReplayTimesGrow(mode, sk, cs[..n]);
      var w := Replay(mode, sk, cs);
      ExtendGrows(v.history, cs[n].time, Current(mode, w.subs, w.released, w.last));
    }
  }
}
