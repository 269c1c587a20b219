// Whole runs of the operations of one Score object: the order in which
// submissions and subchanges arrive does not matter.
module ScoreRuns {
  import opened ScoreReplay
  import opened ScoreLate
  import opened ChangeOrder
  import opened ScoreOps

  datatype Op =
    | CreateSub(key: string, sub: Submission)
    | UpdateSub(key: string, sub: Submission)
    | DeleteSub(key: string)
    | CreateCh(change: Change)
    | UpdateCh(change: Change)
    | DeleteCh(key: string)

  // What survives of the data the run was about.
  datatype Tables = Tables(subs: map<string, Submission>, chs: map<string, Change>)

  function After(t: Tables, op: Op): Tables {
    match op
    case CreateSub(k, s) => t.(subs := t.subs[k := s])
    case UpdateSub(k, s) => t.(subs := t.subs[k := s])
    case DeleteSub(k) => Tables(t.subs - {k}, Without(t.chs, k))
    case CreateCh(c) => t.(chs := t.chs[c.key := c])
    case UpdateCh(c) => t.(chs := t.chs[c.key := c])
    case DeleteCh(k) => t.(chs := t.chs - {k})
  }

  function Survivors(ops: seq<Op>): Tables {
    if ops == [] then Tables(map[], map[]) else After(Survivors(ops[..|ops| - 1]), ops[|ops| - 1])
  }

  // Fresh keys are created, stored ones updated or deleted, and changes belong
  // to stored submissions.
  predicate Possible(t: Tables, op: Op) {
    match op
    case CreateSub(k, _) => k !in t.subs
    case UpdateSub(k, _) => k in t.subs
    case DeleteSub(k) => k in t.subs
    case CreateCh(c) => c.key !in t.chs && c.submission in t.subs
    case UpdateCh(c) => c.key in t.chs && c.submission in t.subs
    case DeleteCh(_) => true
  }

  // Moreover a new submission would have weighed nothing so far, and an updated
  // change keeps its place in the order.
  ghost predicate Regular(mode: Mode, t: Tables, op: Op) {
    && Possible(t, op)
    && var cs := SortedList(t.chs);
       match op
       case CreateSub(_, _) => Known(t.subs.Keys, cs) && Welcome(mode, t.subs, cs)
       case UpdateCh(c) => KeepsPlace(cs, c.key, c)
       case _ => true
  }

  ghost predicate RegularRun(mode: Mode, ops: seq<Op>) {
    ops == [] || (RegularRun(mode, ops[..|ops| - 1]) && Regular(mode, Survivors(ops[..|ops| - 1]), ops[|ops| - 1]))
  }

  lemma {:induction false} SurvivorsWellKeyed(mode: Mode, ops: seq<Op>)
    requires RegularRun(mode, ops)
    ensures WellKeyed(Survivors(ops).chs)
  {
    if ops != [] {
      SurvivorsWellKeyed(mode, ops[..|ops| - 1]);
    }
  }

  ghost function Apply(s: ScoreState, op: Op): ScoreState
    requires Safe(s)
    requires op.CreateCh? || op.UpdateCh? ==> op.change.submission in s.view.subs
  {
    match op
    case CreateSub(k, sub) => CreateSubmission(s, k, sub)
    case UpdateSub(k, sub) => UpdateSubmission(s, k, sub)
    case DeleteSub(k) => DeleteSubmission(s, k)
    case CreateCh(c) => CreateSubchange(s, c)
    case UpdateCh(c) => UpdateSubchange(s, c.key, c)
    case DeleteCh(k) => DeleteSubchange(s, k)
  }

  // The changes are too close in time for the history to tell.
  ghost predicate Blurred(mode: Mode, t: Tables, op: Op) {
    var cs := SortedList(t.chs);
    op.CreateSub? && Known(t.subs.Keys, cs) && !Telling(mode, t.subs, cs)
  }

  lemma ReflectsList(s: ScoreState, mode: Mode, t: Tables)
    requires Reflects(s, mode, t.subs, t.chs) && WellKeyed(t.chs)
    ensures s.changes == SortedList(t.chs)
  {
    ReflectsCanonical(s, mode, t.subs, t.chs);
    SortedListLists(t.chs);
    SortedUnique(s.changes, SortedList(t.chs));
  }

  // The regular operations are exactly those that keep the state one replay of
  // what survives.
  lemma ApplyReflectsIff(s: ScoreState, mode: Mode, t: Tables, op: Op)
    requires Reflects(s, mode, t.subs, t.chs) && WellKeyed(t.chs) && Possible(t, op)
    ensures Safe(s)
    ensures op.CreateCh? || op.UpdateCh? ==> op.change.submission in s.view.subs
    ensures Regular(mode, t, op) ==> Reflects(Apply(s, op), mode, After(t, op).subs, After(t, op).chs)
    ensures !Regular(mode, t, op) && !Blurred(mode, t, op) ==> !Reflects(Apply(s, op), mode, After(t, op).subs, After(t, op).chs)
  {
    ReflectsSafe(s, mode, t.subs, t.chs);
    ReflectsList(s, mode, t);
    match op
    case CreateSub(k, sub) =>
      if Telling(mode, t.subs, s.changes) {
        CreateSubmissionReflectsIff(s, mode, t.subs, t.chs, k, sub);
      } else {
        assert !Regular(mode, t, op);
      }
    case UpdateSub(k, sub) => UpdateSubmissionReflects(s, mode, t.subs, t.chs, k, sub);
    case DeleteSub(k) => DeleteSubmissionReflects(s, mode, t.subs, t.chs, k);
    case CreateCh(c) => CreateSubchangeReflects(s, mode, t.subs, t.chs, c);
    case UpdateCh(c) => UpdateSubchangeReflectsIff(s, mode, t.subs, t.chs, c);
    case DeleteCh(k) => DeleteSubchangeReflects(s, mode, t.subs, t.chs, k);
  }

  // The state after a run of operations on a new Score object: after every
  // step it is the replay of what survives.
  ghost function Run(mode: Mode, ops: seq<Op>): (s: ScoreState)
    requires RegularRun(mode, ops)
    ensures Reflects(s, mode, Survivors(ops).subs, Survivors(ops).chs)
  {
    if ops == [] then
      NewReflects(mode);
      NewScore(mode)
    else
      var init, op := ops[..|ops| - 1], ops[|ops| - 1];
      SurvivorsWellKeyed(mode, init);
      ApplyReflectsIff(Run(mode, init), mode, Survivors(init), op);
      Apply(Run(mode, init), op)
  }

  // Two runs that leave the same data leave the same score, history, released
  // scores, last submission and statuses, whatever the order of arrival.
  lemma ArrivalOrderIrrelevant(mode: Mode, a: seq<Op>, b: seq<Op>)
    requires RegularRun(mode, a) && RegularRun(mode, b)
    requires Survivors(a) == Survivors(b)
    ensures Run(mode, a) == Run(mode, b)
  {
    ReflectsUnique(Run(mode, a), Run(mode, b), mode, Survivors(a).subs, Survivors(a).chs);
  }

  // In particular the incremental state is one replay of the surviving changes.
  lemma RunIsReplay(mode: Mode, ops: seq<Op>, cs: seq<Change>)
    requires RegularRun(mode, ops)
    requires Sorted(cs) && Elems(cs) == Survivors(ops).chs.Values
    ensures Known(Survivors(ops).subs.Keys, cs)
    ensures Run(mode, ops).changes == cs
    ensures Run(mode, ops).view == Replay(mode, Survivors(ops).subs, cs)
  {
    SortedUnique(Run(mode, ops).changes, cs);
  }

  // ----- runs without negative scores and without moves in time -----

  predicate Plain(t: Tables, op: Op) {
    && Possible(t, op)
    && (op.CreateCh? || op.UpdateCh? ==> NonNegative(op.change))
    && (op.UpdateCh? ==> t.chs[op.change.key].time == op.change.time)
  }

  predicate PlainRun(ops: seq<Op>) {
    ops == [] || (PlainRun(ops[..|ops| - 1]) && Plain(Survivors(ops[..|ops| - 1]), ops[|ops| - 1]))
  }

  lemma SameTimeKeepsPlace(cs: seq<Change>, chs: map<string, Change>, c: Change)
    requires Sorted(cs) && Elems(cs) == chs.Values && WellKeyed(chs)
    requires c.key in chs && chs[c.key].time == c.time
    ensures KeepsPlace(cs, c.key, c)
  {
    ListedKeys(cs, chs);
  }

  lemma PlainIsRegular(s: ScoreState, mode: Mode, t: Tables, op: Op)
    requires Reflects(s, mode, t.subs, t.chs) && WellKeyed(t.chs) && NonNegativeTable(t.chs) && Plain(t, op)
    ensures Regular(mode, t, op)
  {
    ReflectsList(s, mode, t);
    match op
    case CreateSub(k, sub) =>
      ListedNonNegative(s.changes, t.chs);
      NonNegativeIsWelcome(mode, t.subs, s.changes);
    case UpdateCh(c) => SameTimeKeepsPlace(s.changes, t.chs, c);
    case _ =>
  }

  lemma {:induction false} PlainRunIsRegular(mode: Mode, ops: seq<Op>)
    requires PlainRun(ops)
    ensures RegularRun(mode, ops) && NonNegativeTable(Survivors(ops).chs)
  {
    if ops != [] {
      var init := ops[..|ops| - 1];
      PlainRunIsRegular(mode, init);
      SurvivorsWellKeyed(mode, init);
      PlainIsRegular(Run(mode, init), mode, Survivors(init), ops[|ops| - 1]);
    }
  }
}
