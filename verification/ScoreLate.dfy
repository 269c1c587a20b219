// A submission that arrives after changes to others, and what the history tells
// about the score at every moment.
module ScoreLate {
  import opened Basics
  import opened ScoreReplay
  import opened ScoreLaws

  // ----- histories and moments -----

  predicate StrictTimes(cs: seq<Change>) {
    forall i, j :: 0 <= i < j < |cs| ==> cs[i].time < cs[j].time
  }

  // The score after the first n changes.
  ghost function ScoreAfter(mode: Mode, sk: map<string, Submission>, cs: seq<Change>, n: nat): real
    requires Known(sk.Keys, cs) && n <= |cs|
  {
    ScoreOf(Replay(mode, sk, cs[..n]).history)
  }

  ghost predicate SameScores(m1: Mode, sk1: map<string, Submission>, m2: Mode, sk2: map<string, Submission>, cs: seq<Change>)
    requires Known(sk1.Keys, cs) && Known(sk2.Keys, cs)
  {
    forall n: nat :: n <= |cs| ==> SameAfter(m1, sk1, m2, sk2, cs, n)
  }

  ghost predicate SameAfter(m1: Mode, sk1: map<string, Submission>, m2: Mode, sk2: map<string, Submission>, cs: seq<Change>, n: nat)
    requires Known(sk1.Keys, cs) && Known(sk2.Keys, cs) && n <= |cs|
  {
    ScoreAfter(m1, sk1, cs, n) == ScoreAfter(m2, sk2, cs, n)
  }

  lemma SameBefore(m1: Mode, sk1: map<string, Submission>, m2: Mode, sk2: map<string, Submission>, cs: seq<Change>, n: nat)
    requires Known(sk1.Keys, cs) && Known(sk2.Keys, cs) && n < |cs|
    ensures SameAfter(m1, sk1, m2, sk2, cs[..|cs| - 1], n) <==> SameAfter(m1, sk1, m2, sk2, cs, n)
  {
    assert cs[..|cs| - 1][..n] == cs[..n];
  }

  lemma SameScoresInit(m1: Mode, sk1: map<string, Submission>, m2: Mode, sk2: map<string, Submission>, cs: seq<Change>)
    requires Known(sk1.Keys, cs) && Known(sk2.Keys, cs) && cs != [] && SameScores(m1, sk1, m2, sk2, cs)
    ensures SameScores(m1, sk1, m2, sk2, cs[..|cs| - 1]) && SameAfter(m1, sk1, m2, sk2, cs, |cs|)
  {
    var init := cs[..|cs| - 1];
    forall n: nat | n < |cs| ensures SameAfter(m1, sk1, m2, sk2, init, n) {
      SameBefore(m1, sk1, m2, sk2, cs, n);
    }
  }

  lemma SameScoresSnoc(m1: Mode, sk1: map<string, Submission>, m2: Mode, sk2: map<string, Submission>, cs: seq<Change>)
    requires Known(sk1.Keys, cs) && Known(sk2.Keys, cs) && cs != []
    requires SameScores(m1, sk1, m2, sk2, cs[..|cs| - 1]) && SameAfter(m1, sk1, m2, sk2, cs, |cs|)
    ensures SameScores(m1, sk1, m2, sk2, cs)
  {
    forall n: nat | n <= |cs| ensures SameAfter(m1, sk1, m2, sk2, cs, n) {
      if n < |cs| {
        SameBefore(m1, sk1, m2, sk2, cs, n);
      }
    }
  }

  predicate Precedes(h: seq<Entry>, time: int) {
    forall i :: 0 <= i < |h| ==> h[i].time < time
  }

  lemma ExtendTells(h: seq<Entry>, g: seq<Entry>, time: int, x: real, y: real)
    requires Precedes(h, time) && Precedes(g, time)
    ensures ScoreOf(Extend(h, time, x)) == x
    ensures Extend(h, time, x) == Extend(g, time, y) <==> h == g && x == y
  {
    var a, b := Extend(h, time, x), Extend(g, time, y);
    if a == b {
      assert |h| < |a| ==> a[|h|].time == time;
      assert |g| < |b| ==> b[|g|].time == time;
      assert h == a[..|h|] && g == b[..|g|];
    }
  }

  lemma ReplayPrecedes(mode: Mode, sk: map<string, Submission>, cs: seq<Change>)
    requires Known(sk.Keys, cs) && StrictTimes(cs) && cs != []
    ensures Precedes(Replay(mode, sk, cs[..|cs| - 1]).history, cs[|cs| - 1].time)
  {
    ReplayTimesGrow(mode, sk, cs[..|cs| - 1]);
  }

  lemma LastScore(mode: Mode, sk: map<string, Submission>, cs: seq<Change>)
    requires Known(sk.Keys, cs) && cs != []
    ensures Replay(mode, sk, cs).history ==
            Extend(Replay(mode, sk, cs[..|cs| - 1]).history, cs[|cs| - 1].time, ScoreAfter(mode, sk, cs, |cs|))
  {
    assert cs[..|cs|] == cs;
    ScoreIsCurrent(mode, sk, cs);
  }

  // When no two changes have the same time, the history tells the score at
  // every moment.
  lemma {:induction false} HistoryTells(m1: Mode, sk1: map<string, Submission>, m2: Mode, sk2: map<string, Submission>, cs: seq<Change>)
    requires Known(sk1.Keys, cs) && Known(sk2.Keys, cs) && StrictTimes(cs)
    ensures Replay(m1, sk1, cs).history == Replay(m2, sk2, cs).history <==> SameScores(m1, sk1, m2, sk2, cs)
  {
    if cs != [] {
      var init, c := cs[..|cs| - 1], cs[|cs| - 1];
      HistoryTells(m1, sk1, m2, sk2, init);
      LastScore(m1, sk1, cs);
      LastScore(m2, sk2, cs);
      ReplayPrecedes(m1, sk1, cs);
      ReplayPrecedes(m2, sk2, cs);
      ExtendTells(Replay(m1, sk1, init).history, Replay(m2, sk2, init).history, c.time,
                  ScoreAfter(m1, sk1, cs, |cs|), ScoreAfter(m2, sk2, cs, |cs|));
      if SameScores(m1, sk1, m2, sk2, cs) {
        SameScoresInit(m1, sk1, m2, sk2, cs);
      } else if SameScores(m1, sk1, m2, sk2, init) && SameAfter(m1, sk1, m2, sk2, cs, |cs|) {
        SameScoresSnoc(m1, sk1, m2, sk2, cs);
      }
    }
  }

  // Whatever the times, equal scores at every moment give equal histories.
  lemma {:induction false} ScoresTell(m1: Mode, sk1: map<string, Submission>, m2: Mode, sk2: map<string, Submission>, cs: seq<Change>)
    requires Known(sk1.Keys, cs) && Known(sk2.Keys, cs) && SameScores(m1, sk1, m2, sk2, cs)
    ensures Replay(m1, sk1, cs).history == Replay(m2, sk2, cs).history
  {
    if cs != [] {
      SameScoresInit(m1, sk1, m2, sk2, cs);
      ScoresTell(m1, sk1, m2, sk2, cs[..|cs| - 1]);
      LastScore(m1, sk1, cs);
      LastScore(m2, sk2, cs);
    }
  }

  // The mode decides the history and nothing else.
  lemma {:induction false} ModeDecidesHistory(m1: Mode, m2: Mode, sk: map<string, Submission>, cs: seq<Change>)
    requires Known(sk.Keys, cs)
    ensures Replay(m2, sk, cs) == Replay(m1, sk, cs).(history := Replay(m2, sk, cs).history)
  {
    if cs != [] {
      var init := cs[..|cs| - 1];
      ModeDecidesHistory(m1, m2, sk, init);
      StepDecidesHistory(m1, m2, Replay(m1, sk, init), Replay(m2, sk, init), cs[|cs| - 1]);
    }
  }

  lemma StepDecidesHistory(m1: Mode, m2: Mode, v: View, w: View, c: Change)
    requires WellFormed(v) && WellFormed(w) && c.submission in v.subs && w == v.(history := w.history)
    ensures Step(m2, w, c) == Step(m1, v, c).(history := Step(m2, w, c).history)
  {
  }

  // ----- the weight of a submission without changes -----

  function WithFresh(v: View, k: string, s: Submission): View {
    v.(subs := v.subs[k := Default(s)])
  }

  // Nothing that counts is below the zero that a submission without changes
  // brings along.
  ghost predicate Clear(mode: Mode, subs: map<string, Status>) {
    subs.Keys == {} ||
    match mode
    case Max => MaxOf(ScoresOf(subs)) >= 0.0
    case MaxSubtask => forall j: nat :: Column(subs, j) >= 0.0
    case MaxTokenedLast => true
  }

  lemma FreshBest(subs: map<string, Status>, k: string, s: Submission)
    requires subs.Keys != {} && k !in subs
    ensures var best := MaxOf(ScoresOf(subs));
            MaxOf(ScoresOf(subs[k := Default(s)])) == if best >= 0.0 then best else 0.0
  {
    var more := subs[k := Default(s)];
    assert more[k].score == 0.0;
    forall x ensures x in ScoresOf(more) <==> x in ScoresOf(subs) + {0.0} {
      if x in ScoresOf(subs) {
        var q :| q in subs && subs[q].score == x;
        assert more[q].score == x;
      }
    }
  }

  lemma FreshCells(subs: map<string, Status>, k: string, s: Submission, j: nat)
    requires k !in subs
    ensures Cells(subs[k := Default(s)], j) == Cells(subs, j) + {0.0}
  {
    var more := subs[k := Default(s)];
    assert Cell(more[k], j) == 0.0;
    forall x ensures x in Cells(more, j) <==> x in Cells(subs, j) + {0.0} {
      if x in Cells(subs, j) {
        var q :| q in subs && Cell(subs[q], j) == x;
        assert more[q] == subs[q];
      }
    }
  }

  lemma FreshColumn(subs: map<string, Status>, k: string, s: Submission, j: nat)
    requires subs.Keys != {} && k !in subs
    ensures subs[k := Default(s)].Keys != {}
    ensures var best := Column(subs, j);
            Column(subs[k := Default(s)], j) == if best >= 0.0 then best else 0.0
  {
    assert k in subs[k := Default(s)].Keys;
    FreshCells(subs, k, s, j);
  }

  lemma FreshWidth(subs: map<string, Status>, k: string, s: Submission)
    requires subs.Keys != {} && k !in subs
    ensures Width(subs[k := Default(s)]) == Width(subs)
  {
    var more, w := subs[k := Default(s)], Width(subs);
    assert IsWidth(subs, w) && IsWidth(more, Width(more));
    assert |Row(more[k])| == 1;
    var p :| p in subs && |Row(subs[p])| == w;
    assert |Row(more[p])| == w;
  }

  ghost predicate ColumnsClear(subs: map<string, Status>, n: nat)
    requires subs.Keys != {}
  {
    forall j: nat :: j < n ==> Column(subs, j) >= 0.0
  }

  // A fresh row raises the sum unless no column has a negative maximum.
  lemma {:induction false} FreshColumns(subs: map<string, Status>, k: string, s: Submission, n: nat)
    requires subs.Keys != {} && k !in subs
    ensures subs[k := Default(s)].Keys != {}
    ensures SumColumns(subs[k := Default(s)], n) >= SumColumns(subs, n)
    ensures SumColumns(subs[k := Default(s)], n) == SumColumns(subs, n) <==> ColumnsClear(subs, n)
  {
    assert k in subs[k := Default(s)].Keys;
    if n > 0 {
      FreshColumns(subs, k, s, n - 1);
      FreshColumn(subs, k, s, n - 1);
      ColumnsClearMore(subs, n);
      SumColumnsMore(subs, n);
      SumColumnsMore(subs[k := Default(s)], n);
    }
  }

  lemma ColumnsClearMore(subs: map<string, Status>, n: nat)
    requires subs.Keys != {} && n > 0
    ensures ColumnsClear(subs, n) <==> ColumnsClear(subs, n - 1) && Column(subs, n - 1) >= 0.0
  {
  }

  lemma SumColumnsMore(subs: map<string, Status>, n: nat)
    requires subs.Keys != {} && n > 0
    ensures SumColumns(subs, n) == SumColumns(subs, n - 1) + Column(subs, n - 1)
  {
  }

  lemma FreshSum(subs: map<string, Status>, k: string, s: Submission)
    requires subs.Keys != {} && k !in subs
    ensures subs[k := Default(s)].Keys != {}
    ensures SumColumns(subs[k := Default(s)], Width(subs[k := Default(s)])) == SumColumns(subs, Width(subs))
            <==> forall j: nat :: Column(subs, j) >= 0.0
  {
    var w := Width(subs);
    FreshWidth(subs, k, s);
    FreshColumns(subs, k, s, w);
    assert ColumnsClear(subs, w) <==> forall j: nat :: j < w ==> Column(subs, j) >= 0.0;
    forall j: nat | j >= w ensures Column(subs, j) >= 0.0 {
      ColumnPadding(subs, w, j);
    }
  }

  // A submission without changes leaves the score alone exactly next to
  // submissions it does not outweigh.
  lemma FreshIffClear(mode: Mode, subs: map<string, Status>, released: multiset<real>, last: Option<string>,
                      k: string, s: Submission)
    requires (last.Some? ==> last.value in subs) && subs.Keys != {} && k !in subs
    ensures Current(mode, subs[k := Default(s)], released, last) == Current(mode, subs, released, last) <==> Clear(mode, subs)
  {
    assert k in subs[k := Default(s)].Keys;
    match mode
    case Max => FreshBest(subs, k, s);
    case MaxSubtask => FreshSum(subs, k, s);
    case MaxTokenedLast =>
  }

  // ----- two replays, with and without the submission -----

  // Alike up to the history and one submission without changes.
  ghost predicate Besides(v: View, w: View, k: string, s: Submission) {
    w.subs == v.subs[k := Default(s)] && w.released == v.released && w.last == v.last
  }

  lemma StepBesides(mode: Mode, v: View, w: View, c: Change, k: string, s: Submission)
    requires WellFormed(v) && WellFormed(w) && c.submission in v.subs && k !in v.subs && Besides(v, w, k, s)
    ensures c.submission in w.subs && Besides(Step(mode, v, c), Step(mode, w, c), k, s)
  {
    var t := Patch(v.subs[c.submission], c);
    assert v.subs[k := Default(s)][c.submission := t] == v.subs[c.submission := t][k := Default(s)];
    if v.last.Some? {
      assert w.subs[v.last.value] == v.subs[v.last.value];
    }
  }

  lemma {:induction false} UntouchedIsFresh(mode: Mode, sk: map<string, Submission>, cs: seq<Change>, k: string, s: Submission)
    requires Known(sk.Keys, cs) && k !in sk
    ensures Known(sk[k := s].Keys, cs)
    ensures Besides(Replay(mode, sk, cs), Replay(mode, sk[k := s], cs), k, s)
  {
    if cs == [] {
      assert Reset(sk[k := s]) == Reset(sk)[k := Default(s)];
    } else {
      var init, c := cs[..|cs| - 1], cs[|cs| - 1];
      UntouchedIsFresh(mode, sk, init, k, s);
      StepBesides(mode, Replay(mode, sk, init), Replay(mode, sk[k := s], init), c, k, s);
    }
  }

  // At every moment of the replay a submission without changes weighs nothing.
  ghost predicate Welcome(mode: Mode, sk: map<string, Submission>, cs: seq<Change>)
    requires Known(sk.Keys, cs)
  {
    forall n: nat :: n <= |cs| ==> ClearAfter(mode, sk, cs, n)
  }

  ghost predicate ClearAfter(mode: Mode, sk: map<string, Submission>, cs: seq<Change>, n: nat)
    requires Known(sk.Keys, cs) && n <= |cs|
  {
    Clear(mode, Replay(mode, sk, cs[..n]).subs)
  }

  lemma SameScoreIffClear(mode: Mode, sk: map<string, Submission>, cs: seq<Change>, k: string, s: Submission)
    requires Known(sk.Keys, cs) && k !in sk
    ensures Known(sk[k := s].Keys, cs)
    ensures ScoreOf(Replay(mode, sk[k := s], cs).history) == ScoreOf(Replay(mode, sk, cs).history)
            <==> Clear(mode, Replay(mode, sk, cs).subs)
  {
    if cs == [] {
      ClearAtFirst(mode, sk);
    } else {
      var v := Replay(mode, sk, cs);
      UntouchedIsFresh(mode, sk, cs, k, s);
      ScoreIsCurrent(mode, sk, cs);
      ScoreIsCurrent(mode, sk[k := s], cs);
      assert cs[0].submission in v.subs.Keys;
      FreshIffClear(mode, v.subs, v.released, v.last, k, s);
    }
  }

  lemma SameAfterIffClear(mode: Mode, sk: map<string, Submission>, cs: seq<Change>, k: string, s: Submission, n: nat)
    requires Known(sk.Keys, cs) && k !in sk && Known(sk[k := s].Keys, cs) && n <= |cs|
    ensures SameAfter(mode, sk, mode, sk[k := s], cs, n) <==> ClearAfter(mode, sk, cs, n)
  {
    SameScoreIffClear(mode, sk, cs[..n], k, s);
  }

  lemma MoreKnown(sk: map<string, Submission>, cs: seq<Change>, k: string, s: Submission)
    requires Known(sk.Keys, cs)
    ensures Known(sk[k := s].Keys, cs)
  {
  }

  lemma SameScoresIffWelcome(mode: Mode, sk: map<string, Submission>, cs: seq<Change>, k: string, s: Submission)
    requires Known(sk.Keys, cs) && k !in sk
    ensures Known(sk[k := s].Keys, cs)
    ensures SameScores(mode, sk, mode, sk[k := s], cs) <==> Welcome(mode, sk, cs)
  {
    MoreKnown(sk, cs, k, s);
    if SameScores(mode, sk, mode, sk[k := s], cs) {
      forall n: nat | n <= |cs| ensures ClearAfter(mode, sk, cs, n) {
        SameAfterIffClear(mode, sk, cs, k, s, n);
      }
    }
    if Welcome(mode, sk, cs) {
      var more := sk[k := s];
      forall n: nat | n <= |cs| ensures SameAfter(mode, sk, mode, more, cs, n) {
        SameAfterIffClear(mode, sk, cs, k, s, n);
      }
    }
  }

  // A welcome submission, created late, leaves the history as if it had been
  // there from the start.
  lemma ReplayWithFresh(mode: Mode, sk: map<string, Submission>, cs: seq<Change>, k: string, s: Submission)
    requires Known(sk.Keys, cs) && Welcome(mode, sk, cs) && k !in sk
    ensures Known(sk[k := s].Keys, cs)
    ensures Replay(mode, sk[k := s], cs) == WithFresh(Replay(mode, sk, cs), k, s)
  {
    UntouchedIsFresh(mode, sk, cs, k, s);
    SameScoresIffWelcome(mode, sk, cs, k, s);
    ScoresTell(mode, sk, mode, sk[k := s], cs);
  }

  // ----- for the best score, the history itself shows it -----

  predicate NeverNegative(h: seq<Entry>) {
    forall i :: 0 <= i < |h| ==> h[i].score >= 0.0
  }

  // With a submission nothing refers to, no score is negative.
  lemma {:induction false} ClampedNeverNegative(sk: map<string, Submission>, cs: seq<Change>, k: string, s: Submission)
    requires Known(sk.Keys, cs) && k !in sk
    ensures Known(sk[k := s].Keys, cs)
    ensures NeverNegative(Replay(Max, sk[k := s], cs).history)
  {
    if cs != [] {
      ClampedNeverNegative(sk, cs[..|cs| - 1], k, s);
      UntouchedIsFresh(Max, sk, cs, k, s);
      FreshBest(Replay(Max, sk, cs).subs, k, s);
    }
  }

  lemma {:induction false} BestWelcomeIff(sk: map<string, Submission>, cs: seq<Change>)
    requires Known(sk.Keys, cs)
    ensures Welcome(Max, sk, cs) <==> NeverNegative(Replay(Max, sk, cs).history)
  {
    if cs == [] {
      ClearAtFirst(Max, sk);
    } else {
      BestWelcomeIff(sk, cs[..|cs| - 1]);
      BestClearIff(sk, cs);
      if Welcome(Max, sk, cs) {
        WelcomeInit(Max, sk, cs);
      } else if NeverNegative(Replay(Max, sk, cs).history) {
        WelcomeSnoc(Max, sk, cs);
      }
    }
  }

  lemma BestClearIff(sk: map<string, Submission>, cs: seq<Change>)
    requires Known(sk.Keys, cs) && cs != []
    ensures NeverNegative(Replay(Max, sk, cs).history)
            <==> NeverNegative(Replay(Max, sk, cs[..|cs| - 1]).history) && ClearAfter(Max, sk, cs, |cs|)
  {
    assert cs[..|cs|] == cs && cs[0].submission in sk;
    ScoreIsCurrent(Max, sk, cs);
    ExtendNeverNegative(Replay(Max, sk, cs[..|cs| - 1]).history, cs[|cs| - 1].time, ScoreOf(Replay(Max, sk, cs).history));
  }

  lemma ExtendNeverNegative(h: seq<Entry>, time: int, score: real)
    ensures NeverNegative(Extend(h, time, score)) <==> NeverNegative(h) && score >= 0.0
  {
    var g := Extend(h, time, score);
    assert forall i :: 0 <= i < |h| ==> h[i] == g[i];
    assert |g| > |h| ==> g[|h|].score == score;
    assert |g| == |h| && h != [] ==> h[|h| - 1].score == score;
  }

  lemma ClearBefore(mode: Mode, sk: map<string, Submission>, cs: seq<Change>, n: nat)
    requires Known(sk.Keys, cs) && n < |cs|
    ensures ClearAfter(mode, sk, cs[..|cs| - 1], n) <==> ClearAfter(mode, sk, cs, n)
  {
    assert cs[..|cs| - 1][..n] == cs[..n];
  }

  lemma WelcomeInit(mode: Mode, sk: map<string, Submission>, cs: seq<Change>)
    requires Known(sk.Keys, cs) && cs != [] && Welcome(mode, sk, cs)
    ensures Welcome(mode, sk, cs[..|cs| - 1]) && ClearAfter(mode, sk, cs, |cs|)
  {
    var init := cs[..|cs| - 1];
    forall n: nat | n < |cs| ensures ClearAfter(mode, sk, init, n) {
      ClearBefore(mode, sk, cs, n);
    }
  }

  lemma WelcomeSnoc(mode: Mode, sk: map<string, Submission>, cs: seq<Change>)
    requires Known(sk.Keys, cs) && cs != [] && Welcome(mode, sk, cs[..|cs| - 1]) && ClearAfter(mode, sk, cs, |cs|)
    ensures Welcome(mode, sk, cs)
  {
    forall n: nat | n <= |cs| ensures ClearAfter(mode, sk, cs, n) {
      if n < |cs| {
        ClearBefore(mode, sk, cs, n);
      }
    }
  }

  lemma ClearAtFirst(mode: Mode, sk: map<string, Submission>)
    ensures Clear(mode, Reset(sk))
  {
    if sk.Keys != {} {
      RowsClear(mode, Reset(sk));
    }
  }

  // ----- without negative values every submission is welcome -----

  predicate NonNegative(c: Change) {
    && (c.score.Some? ==> c.score.value >= 0.0)
    && (c.extra.Some? ==> forall i :: 0 <= i < |c.extra.value| ==> c.extra.value[i] >= 0.0)
  }

  predicate AllNonNegative(cs: seq<Change>) {
    forall i :: 0 <= i < |cs| ==> NonNegative(cs[i])
  }

  predicate RowsNonNegative(subs: map<string, Status>) {
    forall k :: k in subs ==> subs[k].score >= 0.0 && forall i :: 0 <= i < |subs[k].extra| ==> subs[k].extra[i] >= 0.0
  }

  lemma {:induction false} ReplayRowsNonNegative(mode: Mode, sk: map<string, Submission>, cs: seq<Change>)
    requires Known(sk.Keys, cs) && AllNonNegative(cs)
    ensures RowsNonNegative(Replay(mode, sk, cs).subs)
  {
    if cs != [] {
      var init, c := cs[..|cs| - 1], cs[|cs| - 1];
      ReplayRowsNonNegative(mode, sk, init);
      assert NonNegative(c);
    }
  }

  lemma RowsClear(mode: Mode, subs: map<string, Status>)
    requires RowsNonNegative(subs)
    ensures Clear(mode, subs)
  {
    if subs.Keys != {} {
      var p := Pick(subs.Keys);
      assert subs[p].score in ScoresOf(subs);
      forall j: nat ensures Column(subs, j) >= 0.0 {
        assert Cell(subs[p], j) >= 0.0;
        assert Cell(subs[p], j) in Cells(subs, j);
      }
    }
  }

  lemma NonNegativeIsWelcome(mode: Mode, sk: map<string, Submission>, cs: seq<Change>)
    requires Known(sk.Keys, cs) && AllNonNegative(cs)
    ensures Welcome(mode, sk, cs)
  {
    forall n: nat | n <= |cs| ensures ClearAfter(mode, sk, cs, n) {
      ReplayRowsNonNegative(mode, sk, cs[..n]);
      RowsClear(mode, Replay(mode, sk, cs[..n]).subs);
    }
  }

  // ----- exactly when a submission may come late -----

  // Of two changes at the same time only the score after both need show in the
  // history; the sums over subtasks may then hide a negative column.
  ghost predicate Telling(mode: Mode, sk: map<string, Submission>, cs: seq<Change>)
    requires Known(sk.Keys, cs)
  {
    mode.MaxSubtask? ==> StrictTimes(cs) || Welcome(mode, sk, cs)
  }

  lemma LateReplayIff(mode: Mode, sk: map<string, Submission>, cs: seq<Change>, k: string, s: Submission)
    requires Known(sk.Keys, cs) && k !in sk && Telling(mode, sk, cs)
    ensures Known(sk[k := s].Keys, cs)
    ensures Replay(mode, sk[k := s], cs) == WithFresh(Replay(mode, sk, cs), k, s) <==> Welcome(mode, sk, cs)
  {
    UntouchedIsFresh(mode, sk, cs, k, s);
    if Welcome(mode, sk, cs) {
      ReplayWithFresh(mode, sk, cs, k, s);
    } else if mode.Max? {
      ClampedNeverNegative(sk, cs, k, s);
      BestWelcomeIff(sk, cs);
    } else if mode.MaxSubtask? {
      HistoryTells(mode, sk, mode, sk[k := s], cs);
      SameScoresIffWelcome(mode, sk, cs, k, s);
    }
  }
}
