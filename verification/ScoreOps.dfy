// The operations of a Score object as functions on its state, and the fact
// that they keep it equal to a replay of the base tables.
module ScoreOps {
  import opened Basics
  import opened ScoreReplay
  import opened ScoreLaws
  import opened ScoreLate
  import opened ChangeOrder

  datatype ScoreState = ScoreState(mode: Mode, changes: seq<Change>, view: View)

  ghost predicate Safe(s: ScoreState) {
    && WellFormed(s.view)
    && Known(s.view.subs.Keys, s.changes)
    && ReleasedExact(s.view)
  }

  function NewScore(mode: Mode): ScoreState {
    ScoreState(mode, [], Blank(map[]))
  }

  function GetScore(s: ScoreState): real {
    ScoreOf(s.view.history)
  }

  ghost function ResetHistory(s: ScoreState): ScoreState
    requires Known(s.view.subs.Keys, s.changes)
  {
    s.(view := Replay(s.mode, Skeleton(s.view.subs), s.changes))
  }

  ghost function CreateSubchange(s: ScoreState, c: Change): ScoreState
    requires Safe(s) && c.submission in s.view.subs
  {
    if s.changes == [] || Before(s.changes[|s.changes| - 1], c) then
      s.(changes := s.changes + [c], view := Step(s.mode, s.view, c))
    else
      InsertKnown(s.view.subs.Keys, s.changes, c);
      ResetHistory(s.(changes := Insert(s.changes, c)))
  }

  lemma {:induction false} InsertKnown(subs: set<string>, cs: seq<Change>, c: Change)
    requires Known(subs, cs) && c.submission in subs
    ensures Known(subs, Insert(cs, c))
  {
    if cs != [] && !Before(c, cs[0]) {
      InsertKnown(subs, cs[1..], c);
    }
  }

  ghost function UpdateSubchange(s: ScoreState, key: string, c: Change): ScoreState
    requires Safe(s) && c.submission in s.view.subs
  {
    ResetHistory(s.(changes := Replace(s.changes, key, c)))
  }

  ghost function DeleteSubchange(s: ScoreState, key: string): ScoreState
    requires Safe(s)
  {
    FilterKnown(s.view.subs.Keys, s.changes, Key(key));
    ResetHistory(s.(changes := Filter(s.changes, Key(key))))
  }

  lemma FilterKnown(subs: set<string>, cs: seq<Change>, d: Drop)
    requires Known(subs, cs)
    ensures Known(subs, Filter(cs, d))
    ensures d.Of? ==> Known(subs - {d.submission}, Filter(cs, d))
  {
    var r := Filter(cs, d);
    assert forall i :: 0 <= i < |r| ==> r[i] in r;
  }

  function CreateSubmission(s: ScoreState, k: string, sub: Submission): ScoreState {
    s.(view := WithFresh(s.view, k, sub))
  }

  ghost function UpdateSubmission(s: ScoreState, k: string, sub: Submission): ScoreState
    requires Safe(s)
  {
    ResetHistory(s.(view := WithFresh(s.view, k, sub)))
  }

  ghost function DeleteSubmission(s: ScoreState, k: string): ScoreState
    requires Safe(s)
  {
    if k in s.view.subs then
      FilterKnown(s.view.subs.Keys, s.changes, Of(k));
      ResetHistory(s.(view := s.view.(subs := s.view.subs - {k}), changes := Filter(s.changes, Of(k))))
    else s
  }

  function UpdateScoreMode(s: ScoreState, mode: Mode): ScoreState {
    s.(mode := mode)
  }

  // ----- no operation can break the bookkeeping -----

  lemma ResetIsSafe(s: ScoreState)
    requires Known(s.view.subs.Keys, s.changes)
    ensures Safe(ResetHistory(s))
    ensures ResetHistory(s).view.subs.Keys == s.view.subs.Keys
  {
    assert Skeleton(s.view.subs).Keys == s.view.subs.Keys;
    ReplayReleased(s.mode, Skeleton(s.view.subs), s.changes);
  }

  lemma CreateSubchangeIsSafe(s: ScoreState, c: Change)
    requires Safe(s) && c.submission in s.view.subs
    ensures Safe(CreateSubchange(s, c))
    ensures Skeleton(CreateSubchange(s, c).view.subs) == Skeleton(s.view.subs)
  {
    if s.changes == [] || Before(s.changes[|s.changes| - 1], c) {
      StepKeepsReleased(s.mode, s.view, c);
    } else {
      InsertKnown(s.view.subs.Keys, s.changes, c);
      ResetIsSafe(s.(changes := Insert(s.changes, c)));
    }
  }

  lemma CreateSubmissionIsSafe(s: ScoreState, k: string, sub: Submission)
    requires Safe(s) && k !in s.view.subs
    ensures Safe(CreateSubmission(s, k, sub))
  {
    var t := CreateSubmission(s, k, sub);
    forall x ensures Holders(t.view.subs, x) == Holders(s.view.subs, x) {
    }
  }

  // ----- agreement with the base tables -----

  predicate WellKeyed(chs: map<string, Change>) {
    forall k :: k in chs ==> chs[k].key == k
  }

  // The state is the replay of exactly these changes, in order, over exactly
  // these submissions.
  ghost predicate Reflects(s: ScoreState, mode: Mode, subs: map<string, Submission>, chs: map<string, Change>) {
    && s.mode == mode
    && Sorted(s.changes)
    && Elems(s.changes) == chs.Values
    && Known(subs.Keys, s.changes)
    && s.view == Replay(mode, subs, s.changes)
  }

  lemma ReflectsSafe(s: ScoreState, mode: Mode, subs: map<string, Submission>, chs: map<string, Change>)
    requires Reflects(s, mode, subs, chs)
    ensures Safe(s) && Skeleton(s.view.subs) == subs && s.view.subs.Keys == subs.Keys
  {
    ReplayReleased(mode, subs, s.changes);
  }

  // The base tables determine the whole state.
  lemma ReflectsUnique(s: ScoreState, t: ScoreState, mode: Mode, subs: map<string, Submission>, chs: map<string, Change>)
    requires Reflects(s, mode, subs, chs) && Reflects(t, mode, subs, chs)
    ensures s == t
  {
    SortedUnique(s.changes, t.changes);
  }

  lemma NewReflects(mode: Mode)
    ensures Reflects(NewScore(mode), mode, map[], map[])
  {
    var none: map<string, Submission> := map[];
    assert Reset(none) == map[];
  }

  lemma ListedKeys(cs: seq<Change>, chs: map<string, Change>)
    requires WellKeyed(chs) && Sorted(cs) && Elems(cs) == chs.Values
    ensures UniqueKeys(cs)
    ensures forall i :: 0 <= i < |cs| ==> cs[i].key in chs && chs[cs[i].key] == cs[i]
    ensures forall k :: k in chs ==> chs[k] in cs
  {
    forall i | 0 <= i < |cs| ensures cs[i].key in chs && chs[cs[i].key] == cs[i] {
      assert cs[i] in Elems(cs);
      var k :| k in chs && chs[k] == cs[i];
    }
    forall k | k in chs ensures chs[k] in cs {
      assert chs[k] in Elems(cs);
    }
    forall i, j | 0 <= i < j < |cs| ensures cs[i].key != cs[j].key {
      BeforeIrreflexive(cs[i]);
    }
  }

  lemma CreateSubchangeReflects(s: ScoreState, mode: Mode, subs: map<string, Submission>, chs: map<string, Change>, c: Change)
    requires Reflects(s, mode, subs, chs) && WellKeyed(chs)
    requires c.key !in chs && c.submission in subs
    ensures Safe(s) && c.submission in s.view.subs
    ensures Reflects(CreateSubchange(s, c), mode, subs, chs[c.key := c])
  {
    ReflectsSafe(s, mode, subs, chs);
    ListedKeys(s.changes, chs);
    PlaceSorted(s.changes, c);
    assert chs[c.key := c].Values == chs.Values + {c} by {
      assert forall k :: k in chs ==> chs[c.key := c][k] == chs[k];
      assert chs[c.key := c][c.key] == c;
    }
    if s.changes == [] || Before(s.changes[|s.changes| - 1], c) {
      ReplayAppend(mode, subs, s.changes, c);
    } else {
      InsertKnown(subs.Keys, s.changes, c);
    }
  }

  // Replacing a change keeps the agreement exactly when the new version keeps
  // its place in the order.
  lemma UpdateSubchangeReflectsIff(s: ScoreState, mode: Mode, subs: map<string, Submission>, chs: map<string, Change>, c: Change)
    requires Reflects(s, mode, subs, chs) && WellKeyed(chs)
    requires c.key in chs && c.submission in subs
    ensures Safe(s) && c.submission in s.view.subs
    ensures Reflects(UpdateSubchange(s, c.key, c), mode, subs, chs[c.key := c]) <==> KeepsPlace(s.changes, c.key, c)
  {
    ReflectsSafe(s, mode, subs, chs);
    ReplaceInTable(s.changes, chs, c);
  }

  lemma ReplaceInTable(cs: seq<Change>, chs: map<string, Change>, c: Change)
    requires WellKeyed(chs) && Sorted(cs) && Elems(cs) == chs.Values && c.key in chs
    ensures Sorted(Replace(cs, c.key, c)) <==> KeepsPlace(cs, c.key, c)
    ensures Elems(Replace(cs, c.key, c)) == chs[c.key := c].Values
  {
    ListedKeys(cs, chs);
    ReplaceSortedIff(cs, c.key, c);
    ReplaceElems(cs, chs, c);
  }

  lemma ReplaceElems(cs: seq<Change>, chs: map<string, Change>, c: Change)
    requires WellKeyed(chs) && c.key in chs
    requires forall i :: 0 <= i < |cs| ==> cs[i].key in chs && chs[cs[i].key] == cs[i]
    requires forall k :: k in chs ==> chs[k] in cs
    ensures Elems(Replace(cs, c.key, c)) == chs[c.key := c].Values
  {
    var r, m := Replace(cs, c.key, c), chs[c.key := c];
    forall i | 0 <= i < |r| ensures r[i].key in m && m[r[i].key] == r[i] {
      assert r[i] == if cs[i].key == c.key then c else cs[i];
    }
    forall k | k in m ensures m[k] in r {
      ReplaceHolds(cs, chs, c, k);
    }
    ElemsAreValues(r, m);
  }

  lemma ElemsAreValues(cs: seq<Change>, m: map<string, Change>)
    requires forall i :: 0 <= i < |cs| ==> cs[i].key in m && m[cs[i].key] == cs[i]
    requires forall k :: k in m ==> m[k] in cs
    ensures Elems(cs) == m.Values
  {
  }

  lemma ReplaceHolds(cs: seq<Change>, chs: map<string, Change>, c: Change, k: string)
    requires WellKeyed(chs) && c.key in chs
    requires k in chs && chs[k] in cs
    ensures chs[c.key := c][k] in Replace(cs, c.key, c)
  {
    var i :| 0 <= i < |cs| && cs[i] == chs[k];
    assert Replace(cs, c.key, c)[i] == chs[c.key := c][k];
  }

  lemma DeleteSubchangeReflects(s: ScoreState, mode: Mode, subs: map<string, Submission>, chs: map<string, Change>, key: string)
    requires Reflects(s, mode, subs, chs) && WellKeyed(chs)
    ensures Safe(s)
    ensures Reflects(DeleteSubchange(s, key), mode, subs, chs - {key})
  {
    ReflectsSafe(s, mode, subs, chs);
    FilterSorted(s.changes, Key(key));
    FilterKnown(subs.Keys, s.changes, Key(key));
    FilterElems(s.changes, Key(key), chs, chs - {key});
  }

  lemma FilterElems(cs: seq<Change>, d: Drop, chs: map<string, Change>, rest: map<string, Change>)
    requires Elems(cs) == chs.Values
    requires forall k :: k in rest <==> k in chs && Keeps(d, chs[k])
    requires forall k :: k in rest ==> rest[k] == chs[k]
    ensures Elems(Filter(cs, d)) == rest.Values
  {
    var r := Filter(cs, d);
    forall x | x in Elems(r) ensures x in rest.Values {
      assert x in Elems(cs);
      var k :| k in chs && chs[k] == x;
      assert rest[k] == x;
    }
    forall x | x in rest.Values ensures x in Elems(r) {
      var k :| k in rest && rest[k] == x;
      assert chs[k] in Elems(cs);
    }
  }

  predicate NonNegativeTable(chs: map<string, Change>) {
    forall k :: k in chs ==> NonNegative(chs[k])
  }

  lemma ListedNonNegative(cs: seq<Change>, chs: map<string, Change>)
    requires Elems(cs) == chs.Values && NonNegativeTable(chs)
    ensures AllNonNegative(cs)
  {
    forall i | 0 <= i < |cs| ensures NonNegative(cs[i]) {
      assert cs[i] in Elems(cs);
    }
  }

  // Leaving the history alone is right exactly when the new submission would
  // have weighed nothing at any moment.
  lemma CreateSubmissionReflectsIff(s: ScoreState, mode: Mode, subs: map<string, Submission>, chs: map<string, Change>,
                                    k: string, sub: Submission)
    requires Reflects(s, mode, subs, chs) && k !in subs && Telling(mode, subs, s.changes)
    ensures Reflects(CreateSubmission(s, k, sub), mode, subs[k := sub], chs) <==> Welcome(mode, subs, s.changes)
  {
    LateReplayIff(mode, subs, s.changes, k, sub);
  }

  lemma UpdateSubmissionReflects(s: ScoreState, mode: Mode, subs: map<string, Submission>, chs: map<string, Change>,
                                 k: string, sub: Submission)
    requires Reflects(s, mode, subs, chs) && k in subs
    ensures Safe(s)
    ensures Reflects(UpdateSubmission(s, k, sub), mode, subs[k := sub], chs)
  {
    ReflectsSafe(s, mode, subs, chs);
    assert Skeleton(WithFresh(s.view, k, sub).subs) == Skeleton(s.view.subs)[k := sub];
  }

  // ----- a new score mode -----

  // The mode is set after the replay, so the history is the one of the old mode:
  // the state is a replay in the new mode exactly when both modes give the same
  // history.
  lemma SetModeReflectsIff(s: ScoreState, mode: Mode, subs: map<string, Submission>, chs: map<string, Change>,
                           k: string, sub: Submission, m: Mode)
    requires Reflects(s, mode, subs, chs) && k in subs
    ensures Safe(s) && Known(subs[k := sub].Keys, s.changes)
    ensures var more := subs[k := sub];
            Reflects(UpdateScoreMode(UpdateSubmission(s, k, sub), m), m, more, chs)
            <==> Replay(mode, more, s.changes).history == Replay(m, more, s.changes).history
    ensures m == mode ==> Reflects(UpdateScoreMode(UpdateSubmission(s, k, sub), m), m, subs[k := sub], chs)
  {
    UpdateSubmissionReflects(s, mode, subs, chs, k, sub);
    assert subs[k := sub].Keys == subs.Keys;
    ModeDecidesHistory(mode, m, subs[k := sub], s.changes);
  }

  // When no two changes have the same time: exactly when both modes give the
  // same score after every change.
  lemma SetModeMoments(s: ScoreState, mode: Mode, subs: map<string, Submission>, chs: map<string, Change>,
                       k: string, sub: Submission, m: Mode)
    requires Reflects(s, mode, subs, chs) && k in subs && StrictTimes(s.changes)
    ensures Safe(s) && Known(subs[k := sub].Keys, s.changes)
    ensures var more := subs[k := sub];
            Reflects(UpdateScoreMode(UpdateSubmission(s, k, sub), m), m, more, chs) <==> SameScores(mode, more, m, more, s.changes)
  {
    SetModeReflectsIff(s, mode, subs, chs, k, sub, m);
    HistoryTells(mode, subs[k := sub], m, subs[k := sub], s.changes);
  }

  // Whatever the modes, the next update of a submission brings the state back
  // to one replay.
  lemma NextUpdateHeals(s: ScoreState, mode: Mode, subs: map<string, Submission>, chs: map<string, Change>,
                        k: string, sub: Submission, m: Mode, j: string, again: Submission)
    requires Reflects(s, mode, subs, chs) && k in subs && j in subs
    ensures Safe(s)
    ensures var stale := UpdateScoreMode(UpdateSubmission(s, k, sub), m);
            Safe(stale) && Reflects(UpdateScoreMode(UpdateSubmission(stale, j, again), m), m, subs[k := sub][j := again], chs)
  {
    var more := subs[k := sub];
    UpdateSubmissionReflects(s, mode, subs, chs, k, sub);
    ReflectsSafe(UpdateSubmission(s, k, sub), mode, more, chs);
    var stale := UpdateScoreMode(UpdateSubmission(s, k, sub), m);
    assert Skeleton(WithFresh(stale.view, j, again).subs) == Skeleton(stale.view.subs)[j := again];
  }

  // The changes of one submission removed.
  function Without(chs: map<string, Change>, k: string): map<string, Change> {
    map x | x in chs && chs[x].submission != k :: chs[x]
  }

  lemma DeleteSubmissionReflects(s: ScoreState, mode: Mode, subs: map<string, Submission>, chs: map<string, Change>, k: string)
    requires Reflects(s, mode, subs, chs) && k in subs
    ensures Safe(s)
    ensures Reflects(DeleteSubmission(s, k), mode, subs - {k}, Without(chs, k))
  {
    ReflectsSafe(s, mode, subs, chs);
    FilterSorted(s.changes, Of(k));
    FilterKnown(subs.Keys, s.changes, Of(k));
    FilterElems(s.changes, Of(k), chs, Without(chs, k));
    assert Skeleton(s.view.subs - {k}) == Skeleton(s.view.subs) - {k};
  }

  // ----- the state that reflects given tables -----

  ghost predicate Lists(cs: seq<Change>, chs: map<string, Change>) {
    Sorted(cs) && Elems(cs) == chs.Values
  }

  // The changes of a table in order.
  ghost function SortedList(chs: map<string, Change>): seq<Change> {
    if exists cs :: Lists(cs, chs) then
      var cs :| Lists(cs, chs);
      cs
    else []
  }

  lemma {:induction false} SortedListLists(chs: map<string, Change>)
    requires WellKeyed(chs)
    ensures Lists(SortedList(chs), chs)
    decreases |chs|
  {
    if chs.Keys == {} {
      assert chs == map[];
      assert Lists([], chs);
    } else {
      var k := Pick(chs.Keys);
      var rest := chs - {k};
      SortedListLists(rest);
      var cs := SortedList(rest);
      ListedKeys(cs, rest);
      PlaceSorted(cs, chs[k]);
      assert chs.Values == rest.Values + {chs[k]} by {
        assert forall x :: x in chs ==> x == k || (x in rest && rest[x] == chs[x]);
      }
      assert Lists(Place(cs, chs[k]), chs);
    }
  }

  // One replay of the changes of a table, in order, over its submissions.
  ghost function Canonical(mode: Mode, subs: map<string, Submission>, chs: map<string, Change>): ScoreState {
    var cs := SortedList(chs);
    if Known(subs.Keys, cs) then ScoreState(mode, cs, Replay(mode, subs, cs)) else NewScore(mode)
  }

  lemma ReflectsCanonical(s: ScoreState, mode: Mode, subs: map<string, Submission>, chs: map<string, Change>)
    requires Reflects(s, mode, subs, chs)
    ensures s == Canonical(mode, subs, chs)
  {
    assert Lists(s.changes, chs);
    SortedUnique(s.changes, SortedList(chs));
  }

  lemma CanonicalReflects(mode: Mode, subs: map<string, Submission>, chs: map<string, Change>)
    requires WellKeyed(chs) && forall k :: k in chs ==> chs[k].submission in subs
    ensures Reflects(Canonical(mode, subs, chs), mode, subs, chs)
  {
    SortedListLists(chs);
    var cs := SortedList(chs);
    ListedKeys(cs, chs);
  }
}
