// The objects of src/cmsranking/Scoring.py:39-231, updated in place.
module Scoring {
  import opened Basics
  import opened ScoreReplay
  import opened ScoreLaws
  import opened ChangeOrder
  import opened ScoreOps

  // A multiset of numbers kept as a list.
  class NumberSet {
    var impl: seq<real>
    ghost const owner: (string, string)

    constructor (ghost owner: (string, string))
      ensures impl == [] && this.owner == owner
    {
      impl := [];
      this.owner := owner;
    }

    ghost function Contents(): multiset<real>
      reads this
    {
      multiset(impl)
    }

    method Insert(x: real)
      modifies this
      ensures Contents() == old(Contents()) + multiset{x}
    {
      impl := impl + [x];
    }

    method Remove(x: real)
      requires x in impl
      modifies this
      ensures Contents() == old(Contents()) - multiset{x}
    {
      var i := 0;
      while impl[i] != x
        invariant 0 <= i < |impl| && x !in impl[..i]
        decreases |impl| - i
      {
        i := i + 1;
      }
      assert impl == impl[..i] + [x] + impl[i + 1..];
      impl := impl[..i] + impl[i + 1..];
    }

    method Query() returns (m: real)
      ensures m == ScoreReplay.Query(Contents())
    {
      m := 0.0;
      for i := 0 to |impl|
        invariant forall j :: 0 <= j < i ==> impl[j] <= m
        invariant m == 0.0 || m in impl
        invariant m >= 0.0
      {
        if impl[i] > m {
          m := impl[i];
        }
      }
      QueryIs(impl, m);
    }

    method Clear()
      modifies this
      ensures Contents() == multiset{}
    {
      impl := [];
    }
  }

  lemma QueryIs(xs: seq<real>, m: real)
    requires forall j :: 0 <= j < |xs| ==> xs[j] <= m
    requires m >= 0.0 && (m == 0.0 || m in xs)
    ensures ScoreReplay.Query(multiset(xs)) == m
  {
    var s := (set x | x in multiset(xs)) + {0.0};
    assert m in s;
    forall x | x in s ensures x <= m {
      if x in multiset(xs) {
        assert x in xs;
      }
    }
  }

  // ----- the three ways to compute a score -----

  method MaxScore(subs: map<string, Status>) returns (m: real)
    ensures m == Current(Max, subs, multiset{}, None)
  {
    m := 0.0;
    var todo := subs.Keys;
    while todo != {}
      invariant todo <= subs.Keys
      invariant subs.Keys != todo ==> exists k :: k in subs && k !in todo && subs[k].score == m
      invariant forall k :: k in subs && k !in todo ==> subs[k].score <= m
      invariant subs.Keys == {} ==> m == 0.0
      decreases |todo|
    {
      var k :| k in todo;
      if subs.Keys == todo || subs[k].score > m {
        m := subs[k].score;
      }
      todo := todo - {k};
    }
    if subs.Keys != {} {
      assert m in ScoresOf(subs);
    }
  }

  method LongestRow(subs: map<string, Status>) returns (w: nat)
    ensures w == Width(subs)
  {
    w := 0;
    var todo := subs.Keys;
    while todo != {}
      invariant todo <= subs.Keys
      invariant forall k :: k in subs && k !in todo ==> |Row(subs[k])| <= w
      invariant w == 0 || exists k :: k in subs && |Row(subs[k])| == w
      invariant subs.Keys != todo ==> w > 0
      decreases |todo|
    {
      var k :| k in todo;
      if |Row(subs[k])| > w {
        w := |Row(subs[k])|;
      }
      todo := todo - {k};
    }
    WidthIs(subs, w);
  }

  lemma WidthIs(subs: map<string, Status>, w: nat)
    requires forall k :: k in subs ==> |Row(subs[k])| <= w
    requires w == 0 || exists k :: k in subs && |Row(subs[k])| == w
    ensures Width(subs) == w
  {
    var v := Width(subs);
    assert IsWidth(subs, v);
  }

  method BestInColumn(subs: map<string, Status>, j: nat) returns (m: real)
    requires subs.Keys != {}
    ensures m == Column(subs, j)
  {
    var k :| k in subs.Keys;
    m := Cell(subs[k], j);
    var todo := subs.Keys - {k};
    while todo != {}
      invariant todo <= subs.Keys
      invariant exists k :: k in subs && Cell(subs[k], j) == m
      invariant forall k :: k in subs && k !in todo ==> Cell(subs[k], j) <= m
      decreases |todo|
    {
      var k :| k in todo;
      if Cell(subs[k], j) > m {
        m := Cell(subs[k], j);
      }
      todo := todo - {k};
    }
    assert m in Cells(subs, j);
  }

  method SumOfBest(subs: map<string, Status>) returns (m: real)
    ensures m == Current(MaxSubtask, subs, multiset{}, None)
  {
    m := 0.0;
    if subs.Keys != {} {
      var w := LongestRow(subs);
      for j := 0 to w
        invariant m == SumColumns(subs, j)
      {
        var best := BestInColumn(subs, j);
        m := m + best;
      }
    }
  }

  class Score {
    var submissions: map<string, Status>
    var changes: seq<Change>
    const released: NumberSet
    var last: Option<string>
    var history: seq<Entry>
    var mode: Mode
    // The user and task whose score this is; no two Score objects share one.
    ghost const owner: (string, string)

    ghost function State(): ScoreState
      reads this, released
    {
      ScoreState(mode, changes, View(submissions, released.Contents(), last, history))
    }

    constructor (mode: Mode, ghost owner: (string, string))
      ensures State() == NewScore(mode)
      ensures fresh(released) && this.owner == released.owner == owner
    {
      submissions, changes, last, history := map[], [], None, [];
      released := new NumberSet(owner);
      this.mode := mode;
      this.owner := owner;
    }

    function CurrentScore(): (r: real)
      reads this, released
      ensures r == GetScore(State())
    {
      if history == [] then 0.0 else history[|history| - 1].score
    }

    method Compute() returns (score: real)
      requires last.Some? ==> last.value in submissions
      ensures score == Current(mode, submissions, released.Contents(), last)
    {
      match mode
      case Max => score := MaxScore(submissions);
      case MaxSubtask => score := SumOfBest(submissions);
      case MaxTokenedLast =>
        var best := released.Query();
        var l := if last.Some? then submissions[last.value].score else 0.0;
        score := if best >= l then best else l;
    }

    // The status of a submission, with its score among the released ones while
    // it has a token.
    method Rerelease(k: string, change: Change)
      requires WellFormed(State().view) && change.submission == k && k in submissions
      requires ReleasedExact(State().view)
      modifies this`submissions, released
      ensures submissions == old(submissions)[k := Patch(old(submissions)[k], change)]
      ensures released.Contents() == Swap(old(released.Contents()), old(submissions)[k], submissions[k])
    {
      StepKeepsReleased(mode, State().view, change);
      if submissions[k].token {
        released.Remove(submissions[k].score);
      }
      submissions := submissions[k := Patch(submissions[k], change)];
      if submissions[k].token {
        released.Insert(submissions[k].score);
      }
    }

    // The first half of append_change: the status, the released scores and
    // the last submission.
    method ApplyChange(change: Change)
      requires WellFormed(State().view) && change.submission in submissions
      requires ReleasedExact(State().view)
      modifies this`submissions, this`last, released
      ensures State() == old(State()).(view := Absorb(old(State().view), change))
    {
      var k := change.submission;
      Rerelease(k, change);
      if change.score.Some? && (last.None? || submissions[k].sub.time > submissions[last.value].sub.time) {
        last := Some(k);
      }
    }

    method AppendChange(change: Change)
      requires WellFormed(State().view) && change.submission in submissions
      requires ReleasedExact(State().view)
      modifies this`submissions, this`last, this`history, released
      ensures State() == old(State()).(view := Step(mode, old(State().view), change))
    {
      ApplyChange(change);
      var score := Compute();
      if score != CurrentScore() {
        history := history + [Entry(change.time, score)];
      }
    }

    method ResetHistory()
      requires Known(submissions.Keys, changes)
      modifies this`submissions, this`last, this`history, released
      ensures State() == ScoreOps.ResetHistory(old(State()))
    {
      last := None;
      released.Clear();
      history := [];
      ghost var sk := Skeleton(submissions);
      ResetSubmissions();
      SkeletonOfReset(sk);
      ReplayChanges(sk);
    }

    // The loop of reset_history over the changes.
    method ReplayChanges(ghost sk: map<string, Submission>)
      requires Known(sk.Keys, changes)
      requires State().view == Blank(Reset(sk))
      modifies this`submissions, this`last, this`history, released
      ensures State() == old(State()).(view := Replay(mode, sk, changes))
    {
      assert changes[..0] == [];
      for i := 0 to |changes|
        invariant State().view == Replay(mode, sk, changes[..i])
      {
        ReplayChange(sk, i);
      }
      assert changes[..|changes|] == changes;
    }

    method ReplayChange(ghost sk: map<string, Submission>, i: nat)
      requires Known(sk.Keys, changes) && i < |changes|
      requires State().view == Replay(mode, sk, changes[..i])
      modifies this`submissions, this`last, this`history, released
      ensures State().view == Replay(mode, sk, changes[..i + 1])
    {
      ReplayNext(mode, sk, changes, i);
      AppendChange(changes[i]);
    }

    method ResetSubmissions()
      modifies this`submissions
      ensures submissions == Reset(Skeleton(old(submissions)))
    {
      var todo := submissions.Keys;
      while todo != {}
        invariant todo <= submissions.Keys == old(submissions).Keys
        invariant forall k :: k in todo ==> submissions[k] == old(submissions)[k]
        invariant forall k :: k in submissions && k !in todo ==> submissions[k] == Default(old(submissions)[k].sub)
        decreases |todo|
      {
        var k :| k in todo;
        submissions := submissions[k := Default(submissions[k].sub)];
        todo := todo - {k};
      }
    }

    method CreateSubchange(subchange: Change)
      requires Safe(State()) && subchange.submission in submissions
      modifies this`submissions, this`changes, this`last, this`history, released
      ensures State() == ScoreOps.CreateSubchange(old(State()), subchange)
    {
      if |changes| == 0 || Before(changes[|changes| - 1], subchange) {
        changes := changes + [subchange];
        AppendChange(subchange);
      } else {
        var i := 0;
        while i < |changes| && !Before(subchange, changes[i])
          invariant 0 <= i <= |changes|
          invariant forall j :: 0 <= j < i ==> !Before(subchange, changes[j])
        {
          i := i + 1;
        }
        InsertAt(changes, subchange, i);
        InsertKnown(submissions.Keys, changes, subchange);
        if i < |changes| {
          changes := changes[..i] + [subchange] + changes[i..];
        }
        ResetHistory();
      }
    }

    method UpdateSubchange(key: string, subchange: Change)
      requires Safe(State()) && subchange.submission in submissions
      modifies this`submissions, this`changes, this`last, this`history, released
      ensures State() == ScoreOps.UpdateSubchange(old(State()), key, subchange)
    {
      for i := 0 to |changes|
        invariant |changes| == |old(changes)|
        invariant forall j :: 0 <= j < i ==> changes[j] == if old(changes)[j].key == key then subchange else old(changes)[j]
        invariant forall j :: i <= j < |changes| ==> changes[j] == old(changes)[j]
        modifies this`changes
      {
        if changes[i].key == key {
          changes := changes[i := subchange];
        }
      }
      ReplaceKnown(submissions.Keys, old(changes), key, subchange);
      assert changes == Replace(old(changes), key, subchange);
      ResetHistory();
    }

    method DeleteSubchange(key: string)
      requires Safe(State())
      modifies this`submissions, this`changes, this`last, this`history, released
      ensures State() == ScoreOps.DeleteSubchange(old(State()), key)
    {
      FilterKnown(submissions.Keys, changes, Key(key));
      changes := Filter(changes, Key(key));
      ResetHistory();
    }

    method CreateSubmission(key: string, submission: Submission)
      modifies this`submissions
      ensures State() == ScoreOps.CreateSubmission(old(State()), key, submission)
    {
      submissions := submissions[key := Default(submission)];
    }

    method UpdateSubmission(key: string, submission: Submission)
      requires Safe(State())
      modifies this`submissions, this`last, this`history, released
      ensures State() == ScoreOps.UpdateSubmission(old(State()), key, submission)
    {
      submissions := submissions[key := Default(submission)];
      ResetHistory();
    }

    method DeleteSubmission(key: string)
      requires Safe(State())
      modifies this`submissions, this`changes, this`last, this`history, released
      ensures State() == ScoreOps.DeleteSubmission(old(State()), key)
    {
      if key in submissions {
        FilterKnown(submissions.Keys, changes, Of(key));
        submissions := submissions - {key};
        changes := Filter(changes, Of(key));
        ResetHistory();
      }
    }

    method UpdateScoreMode(mode: Mode)
      modifies this`mode
      ensures State() == ScoreOps.UpdateScoreMode(old(State()), mode)
    {
      this.mode := mode;
    }
  }

  lemma SkeletonOfReset(sk: map<string, Submission>)
    ensures Skeleton(Reset(sk)) == sk && Reset(sk).Keys == sk.Keys
  {
  }

  lemma ReplayNext(mode: Mode, sk: map<string, Submission>, cs: seq<Change>, i: nat)
    requires Known(sk.Keys, cs) && i < |cs|
    ensures ReleasedExact(Replay(mode, sk, cs[..i]))
    ensures Replay(mode, sk, cs[..i + 1]) == Step(mode, Replay(mode, sk, cs[..i]), cs[i])
  {
    ReplayReleased(mode, sk, cs[..i]);
    assert cs[..i + 1] == cs[..i] + [cs[i]];
    ReplayAppend(mode, sk, cs[..i], cs[i]);
  }

  lemma ReplaceKnown(subs: set<string>, cs: seq<Change>, key: string, c: Change)
    requires Known(subs, cs) && c.submission in subs
    ensures Known(subs, Replace(cs, key, c))
  {
  }

  // The insertion loop: i is the first position whose change comes after c.
  lemma {:induction false} InsertAt(cs: seq<Change>, c: Change, i: int)
    requires 0 <= i <= |cs|
    requires forall j :: 0 <= j < i ==> !Before(c, cs[j])
    requires i < |cs| ==> Before(c, cs[i])
    ensures Insert(cs, c) == if i < |cs| then cs[..i] + [c] + cs[i..] else cs
  {
    if i > 0 {
      InsertAt(cs[1..], c, i - 1);
      assert cs == [cs[0]] + cs[1..];
      assert cs[1..][..i - 1] == cs[1..i] && cs[1..][i - 1..] == cs[i..];
    }
  }
}
