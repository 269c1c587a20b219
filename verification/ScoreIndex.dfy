// The scoring store as a function of the callbacks it receives: one score per
// user and task that have a submission (src/cmsranking/Scoring.py:234-377).
module ScoreIndex {
  import opened Basics
  import opened ScoreReplay
  import opened ScoreLate
  import opened ChangeOrder
  import opened ScoreOps

  datatype Pair = Pair(user: string, task: string)

  type Index = map<Pair, ScoreState>

  function PairOf(s: Submission): Pair {
    Pair(s.user, s.task)
  }

  function PairsOf(subs: map<string, Submission>): set<Pair> {
    set k | k in subs :: PairOf(subs[k])
  }

  function SubsOf(subs: map<string, Submission>, p: Pair): map<string, Submission> {
    map k | k in subs && PairOf(subs[k]) == p :: subs[k]
  }

  predicate Belongs(subs: map<string, Submission>, c: Change, p: Pair) {
    c.submission in subs && PairOf(subs[c.submission]) == p
  }

  function ChsOf(subs: map<string, Submission>, chs: map<string, Change>, p: Pair): map<string, Change> {
    map k | k in chs && Belongs(subs, chs[k], p) :: chs[k]
  }

  // ----- the callbacks -----

  ghost predicate SafeIndex(idx: Index) {
    forall p :: p in idx ==> Safe(idx[p])
  }

  function ScoreAt(idx: Index, p: Pair, mode: Mode): ScoreState {
    if p in idx then idx[p] else NewScore(mode)
  }

  function CreateSub(idx: Index, k: string, s: Submission, mode: Mode): Index {
    var p := PairOf(s);
    idx[p := CreateSubmission(ScoreAt(idx, p, mode), k, s)]
  }

  // There is a score for this pair.
  ghost predicate Has(idx: Index, s: Submission) {
    PairOf(s) in idx && Safe(idx[PairOf(s)])
  }

  ghost function DeleteSub(idx: Index, k: string, s: Submission): Index
    requires Has(idx, s)
  {
    var p := PairOf(s);
    var t := DeleteSubmission(idx[p], k);
    if t.view.subs.Keys == {} then idx - {p} else idx[p := t]
  }

  ghost function UpdateSub(idx: Index, k: string, was: Submission, s: Submission, mode: Mode): Index
    requires Has(idx, was)
  {
    var p := PairOf(s);
    if PairOf(was) != p then CreateSub(DeleteSub(idx, k, was), k, s, mode)
    else idx[p := UpdateScoreMode(UpdateSubmission(idx[p], k, s), mode)]
  }

  // There is a score that knows the submission of this change.
  ghost predicate Listed(idx: Index, c: Change, s: Submission) {
    Has(idx, s) && c.submission in idx[PairOf(s)].view.subs
  }

  ghost function CreateCh(idx: Index, c: Change, s: Submission): Index
    requires Listed(idx, c, s)
  {
    var p := PairOf(s);
    idx[p := CreateSubchange(idx[p], c)]
  }

  // s is the stored submission of the change, if there still is one.
  ghost function DeleteCh(idx: Index, c: Change, s: Option<Submission>): Index
    requires s.Some? ==> Has(idx, s.value)
  {
    if s.None? then idx
    else
      var p := PairOf(s.value);
      idx[p := DeleteSubchange(idx[p], c.key)]
  }

  ghost function UpdateCh(idx: Index, was: Change, c: Change, t: Option<Submission>, s: Submission): Index
    requires Listed(idx, c, s) && (t.Some? ==> Has(idx, t.value))
    requires Listed(DeleteCh(idx, was, t), c, s)
  {
    var p := PairOf(s);
    if was.submission != c.submission then CreateCh(DeleteCh(idx, was, t), c, s)
    else idx[p := UpdateSubchange(idx[p], c.key, c)]
  }

  // ----- what the index is in sync with -----

  // One score per pair that has a submission, with exactly its submissions.
  ghost predicate InSync(idx: Index, subs: map<string, Submission>) {
    && idx.Keys == PairsOf(subs)
    && SafeIndex(idx)
    && forall p :: p in idx ==> Skeleton(idx[p].view.subs) == SubsOf(subs, p)
  }

  // Moreover every score is one replay of exactly the stored subchanges of its
  // submissions, in order, under the score mode of its task.
  ghost predicate Agrees(idx: Index, subs: map<string, Submission>, chs: map<string, Change>, modes: map<string, Mode>) {
    && WellKeyed(chs)
    && idx.Keys == PairsOf(subs)
    && forall p :: p in idx ==> RightAt(idx, subs, chs, modes, p)
  }

  ghost predicate RightAt(idx: Index, subs: map<string, Submission>, chs: map<string, Change>, modes: map<string, Mode>, p: Pair)
    requires p in idx
  {
    p.task in modes && idx[p] == Canonical(modes[p.task], SubsOf(subs, p), ChsOf(subs, chs, p))
  }

  lemma ScoreReflects(subs: map<string, Submission>, chs: map<string, Change>, mode: Mode, p: Pair)
    requires WellKeyed(chs)
    ensures WellKeyed(ChsOf(subs, chs, p))
    ensures Reflects(Canonical(mode, SubsOf(subs, p), ChsOf(subs, chs, p)), mode, SubsOf(subs, p), ChsOf(subs, chs, p))
  {
    CanonicalReflects(mode, SubsOf(subs, p), ChsOf(subs, chs, p));
  }

  lemma AgreesInSync(idx: Index, subs: map<string, Submission>, chs: map<string, Change>, modes: map<string, Mode>)
    requires Agrees(idx, subs, chs, modes)
    ensures InSync(idx, subs)
  {
    forall p | p in idx ensures Safe(idx[p]) && Skeleton(idx[p].view.subs) == SubsOf(subs, p) {
      assert RightAt(idx, subs, chs, modes, p);
      ScoreReflects(subs, chs, modes[p.task], p);
      ReflectsSafe(idx[p], modes[p.task], SubsOf(subs, p), ChsOf(subs, chs, p));
    }
  }

  // The base tables determine the index: a restart that rebuilds it from the
  // stored entities gets the same scores and histories.
  lemma AgreesUnique(a: Index, b: Index, subs: map<string, Submission>, chs: map<string, Change>, modes: map<string, Mode>)
    requires Agrees(a, subs, chs, modes) && Agrees(b, subs, chs, modes)
    ensures a == b
  {
    forall p | p in a ensures a[p] == b[p] {
      assert RightAt(a, subs, chs, modes, p) && RightAt(b, subs, chs, modes, p);
    }
  }

  lemma InSyncListed(idx: Index, subs: map<string, Submission>, k: string)
    requires InSync(idx, subs) && k in subs
    ensures PairOf(subs[k]) in idx && k in idx[PairOf(subs[k])].view.subs
    ensures forall p :: p in idx && p != PairOf(subs[k]) ==> k !in idx[p].view.subs
  {
    forall p | p in idx ensures k in idx[p].view.subs <==> PairOf(subs[k]) == p {
      assert Skeleton(idx[p].view.subs).Keys == idx[p].view.subs.Keys;
    }
  }

  // ----- nothing the callbacks do can fail or lose track of a submission -----

  lemma PairsOfAdd(subs: map<string, Submission>, k: string, s: Submission)
    requires k !in subs
    ensures PairsOf(subs[k := s]) == PairsOf(subs) + {PairOf(s)}
  {
    var more := subs[k := s];
    forall p ensures p in PairsOf(more) <==> p in PairsOf(subs) + {PairOf(s)} {
      if p in PairsOf(subs) {
        var x :| x in subs && PairOf(subs[x]) == p;
        assert more[x] == subs[x];
      }
      assert PairOf(more[k]) == PairOf(s);
    }
  }

  lemma SubsOfAdd(subs: map<string, Submission>, k: string, s: Submission, p: Pair)
    ensures SubsOf(subs[k := s], p) == if PairOf(s) == p then SubsOf(subs, p)[k := s] else SubsOf(subs, p) - {k}
  {
  }

  lemma NoSubsOf(subs: map<string, Submission>, p: Pair)
    ensures SubsOf(subs, p) == map[] <==> p !in PairsOf(subs)
  {
    if p in PairsOf(subs) {
      var k :| k in subs && PairOf(subs[k]) == p;
      assert k in SubsOf(subs, p);
    } else {
      assert forall k :: k in subs ==> PairOf(subs[k]) in PairsOf(subs);
      assert SubsOf(subs, p).Keys == {};
    }
  }

  lemma PairsOfRemove(subs: map<string, Submission>, k: string)
    requires k in subs
    ensures PairsOf(subs - {k}) ==
            if SubsOf(subs, PairOf(subs[k])) - {k} == map[] then PairsOf(subs) - {PairOf(subs[k])} else PairsOf(subs)
  {
    var rest, q := subs - {k}, PairOf(subs[k]);
    assert SubsOf(rest, q) == SubsOf(subs, q) - {k};
    NoSubsOf(rest, q);
    forall p | p != q ensures p in PairsOf(rest) <==> p in PairsOf(subs) {
      assert SubsOf(rest, p) == SubsOf(subs, p);
      NoSubsOf(rest, p);
      NoSubsOf(subs, p);
    }
    assert q in PairsOf(subs);
  }

  // One score changed, the others still match.
  lemma PatchInSync(idx: Index, subs: map<string, Submission>, more: map<string, Submission>, p: Pair, t: ScoreState)
    requires InSync(idx, subs) && Safe(t)
    requires PairsOf(more) == PairsOf(subs) + {p}
    requires Skeleton(t.view.subs) == SubsOf(more, p)
    requires forall q :: q in idx && q != p ==> SubsOf(more, q) == SubsOf(subs, q)
    ensures InSync(idx[p := t], more)
  {
  }

  lemma OthersKeepSubs(idx: Index, subs: map<string, Submission>, k: string, s: Submission)
    requires k in subs ==> PairOf(subs[k]) == PairOf(s)
    ensures forall q :: q in idx && q != PairOf(s) ==> SubsOf(subs[k := s], q) == SubsOf(subs, q)
  {
    forall q | q in idx && q != PairOf(s) ensures SubsOf(subs[k := s], q) == SubsOf(subs, q) {
      SubsOfAdd(subs, k, s, q);
    }
  }

  lemma ScoreAtMatches(idx: Index, subs: map<string, Submission>, p: Pair, mode: Mode)
    requires InSync(idx, subs)
    ensures Safe(ScoreAt(idx, p, mode)) && Skeleton(ScoreAt(idx, p, mode).view.subs) == SubsOf(subs, p)
  {
    NewReflects(mode);
    ReflectsSafe(NewScore(mode), mode, map[], map[]);
    NoSubsOf(subs, p);
  }

  lemma CreateSubInSync(idx: Index, subs: map<string, Submission>, k: string, s: Submission, mode: Mode)
    requires InSync(idx, subs) && k !in subs
    ensures InSync(CreateSub(idx, k, s, mode), subs[k := s])
  {
    var p := PairOf(s);
    var t := ScoreAt(idx, p, mode);
    ScoreAtMatches(idx, subs, p, mode);
    assert Skeleton(t.view.subs).Keys == t.view.subs.Keys;
    CreateSubmissionIsSafe(t, k, s);
    assert Skeleton(CreateSubmission(t, k, s).view.subs) == Skeleton(t.view.subs)[k := s];
    SubsOfAdd(subs, k, s, p);
    PairsOfAdd(subs, k, s);
    OthersKeepSubs(idx, subs, k, s);
    PatchInSync(idx, subs, subs[k := s], p, CreateSubmission(t, k, s));
  }

  lemma DeleteSubInSync(idx: Index, subs: map<string, Submission>, k: string)
    requires InSync(idx, subs) && k in subs
    ensures Has(idx, subs[k])
    ensures InSync(DeleteSub(idx, k, subs[k]), subs - {k})
  {
    var p, rest := PairOf(subs[k]), subs - {k};
    InSyncListed(idx, subs, k);
    PairsOfRemove(subs, k);
    DeleteSubmissionIsSafe(idx[p], k);
    var t := DeleteSubmission(idx[p], k);
    assert SubsOf(rest, p) == SubsOf(subs, p) - {k};
    KeysOfSkeleton(t.view.subs);
    EmptyAfter(t, SubsOf(rest, p));
    DeletedInSync(idx, subs, k, t);
  }

  lemma KeysOfSkeleton(subs: map<string, Status>)
    ensures Skeleton(subs).Keys == subs.Keys
  {
  }

  lemma EmptyAfter(t: ScoreState, subs: map<string, Submission>)
    requires Skeleton(t.view.subs) == subs
    ensures t.view.subs.Keys == {} <==> subs == map[]
  {
    KeysOfSkeleton(t.view.subs);
    assert subs.Keys == {} <==> subs == map[];
  }

  lemma DeletedInSync(idx: Index, subs: map<string, Submission>, k: string, t: ScoreState)
    requires InSync(idx, subs) && k in subs && PairOf(subs[k]) in idx
    requires Safe(t) && Skeleton(t.view.subs) == SubsOf(subs - {k}, PairOf(subs[k]))
    requires t.view.subs.Keys == {} <==> SubsOf(subs - {k}, PairOf(subs[k])) == map[]
    ensures InSync(if t.view.subs.Keys == {} then idx - {PairOf(subs[k])} else idx[PairOf(subs[k]) := t], subs - {k})
  {
    var p, rest := PairOf(subs[k]), subs - {k};
    PairsOfRemove(subs, k);
    RemovedElsewhere(subs, k, p);
    var after := if t.view.subs.Keys == {} then idx - {p} else idx[p := t];
    forall q | q in after ensures Safe(after[q]) && Skeleton(after[q].view.subs) == SubsOf(rest, q) {
      if q != p {
        assert after[q] == idx[q];
        RemovedElsewhere(subs, k, q);
      }
    }
  }

  lemma RemovedElsewhere(subs: map<string, Submission>, k: string, q: Pair)
    ensures SubsOf(subs - {k}, q) == SubsOf(subs, q) - {k}
    ensures k in subs && PairOf(subs[k]) != q ==> SubsOf(subs - {k}, q) == SubsOf(subs, q)
  {
  }

  lemma DeleteSubmissionIsSafe(s: ScoreState, k: string)
    requires Safe(s) && k in s.view.subs
    ensures Safe(DeleteSubmission(s, k))
    ensures Skeleton(DeleteSubmission(s, k).view.subs) == Skeleton(s.view.subs) - {k}
  {
    FilterKnown(s.view.subs.Keys, s.changes, Of(k));
    var t := s.(view := s.view.(subs := s.view.subs - {k}), changes := Filter(s.changes, Of(k)));
    ResetIsSafe(t);
    assert Skeleton(s.view.subs - {k}) == Skeleton(s.view.subs) - {k};
  }

  lemma UpdateSubmissionIsSafe(s: ScoreState, k: string, sub: Submission)
    requires Safe(s) && k in s.view.subs
    ensures Safe(UpdateSubmission(s, k, sub))
    ensures Skeleton(UpdateSubmission(s, k, sub).view.subs) == Skeleton(s.view.subs)[k := sub]
  {
    ResetIsSafe(s.(view := WithFresh(s.view, k, sub)));
    assert Skeleton(WithFresh(s.view, k, sub).subs) == Skeleton(s.view.subs)[k := sub];
  }

  lemma UpdateSubInSync(idx: Index, subs: map<string, Submission>, k: string, s: Submission, mode: Mode)
    requires InSync(idx, subs) && k in subs
    ensures Has(idx, subs[k])
    ensures InSync(UpdateSub(idx, k, subs[k], s, mode), subs[k := s])
  {
    var p := PairOf(s);
    InSyncListed(idx, subs, k);
    if PairOf(subs[k]) != p {
      DeleteSubInSync(idx, subs, k);
      CreateSubInSync(DeleteSub(idx, k, subs[k]), subs - {k}, k, s, mode);
      assert (subs - {k})[k := s] == subs[k := s];
    } else {
      UpdateSubmissionIsSafe(idx[p], k, s);
      SubsOfAdd(subs, k, s, p);
      SamePairs(subs, k, s);
      OthersKeepSubs(idx, subs, k, s);
      PatchInSync(idx, subs, subs[k := s], p, UpdateScoreMode(UpdateSubmission(idx[p], k, s), mode));
    }
  }

  lemma SamePairs(subs: map<string, Submission>, k: string, s: Submission)
    requires k in subs && PairOf(subs[k]) == PairOf(s)
    ensures PairsOf(subs[k := s]) == PairsOf(subs)
  {
    var more := subs[k := s];
    assert forall x :: x in subs ==> x in more && PairOf(more[x]) == PairOf(subs[x]);
  }

  lemma ChangesInSync(idx: Index, subs: map<string, Submission>, p: Pair, t: ScoreState)
    requires InSync(idx, subs) && p in idx && Safe(t)
    requires Skeleton(t.view.subs) == Skeleton(idx[p].view.subs)
    ensures InSync(idx[p := t], subs)
  {
  }

  lemma CreateChInSync(idx: Index, subs: map<string, Submission>, c: Change)
    requires InSync(idx, subs) && c.submission in subs
    ensures Listed(idx, c, subs[c.submission])
    ensures InSync(CreateCh(idx, c, subs[c.submission]), subs)
  {
    InSyncListed(idx, subs, c.submission);
    var p := PairOf(subs[c.submission]);
    CreateSubchangeIsSafe(idx[p], c);
    ChangesInSync(idx, subs, p, CreateSubchange(idx[p], c));
  }

  lemma ResetSkeleton(s: ScoreState)
    requires Known(s.view.subs.Keys, s.changes)
    ensures Safe(ResetHistory(s))
    ensures Skeleton(ResetHistory(s).view.subs) == Skeleton(s.view.subs)
  {
    ResetIsSafe(s);
  }

  lemma DeleteChInSync(idx: Index, subs: map<string, Submission>, c: Change, s: Option<Submission>)
    requires InSync(idx, subs)
    requires s.Some? ==> c.submission in subs && s.value == subs[c.submission]
    ensures s.Some? ==> Has(idx, s.value)
    ensures InSync(DeleteCh(idx, c, s), subs)
  {
    if s.Some? {
      InSyncListed(idx, subs, c.submission);
      var p := PairOf(s.value);
      FilterKnown(idx[p].view.subs.Keys, idx[p].changes, Key(c.key));
      ResetSkeleton(idx[p].(changes := Filter(idx[p].changes, Key(c.key))));
      ChangesInSync(idx, subs, p, DeleteSubchange(idx[p], c.key));
    }
  }

  lemma UpdateChInSync(idx: Index, subs: map<string, Submission>, was: Change, c: Change, t: Option<Submission>)
    requires InSync(idx, subs) && c.submission in subs
    requires t.Some? ==> was.submission in subs && t.value == subs[was.submission]
    ensures Listed(idx, c, subs[c.submission]) && (t.Some? ==> Has(idx, t.value))
    ensures Listed(DeleteCh(idx, was, t), c, subs[c.submission])
    ensures InSync(UpdateCh(idx, was, c, t, subs[c.submission]), subs)
  {
    InSyncListed(idx, subs, c.submission);
    DeleteChInSync(idx, subs, was, t);
    var less := DeleteCh(idx, was, t);
    CreateChInSync(less, subs, c);
    var p := PairOf(subs[c.submission]);
    ResetSkeleton(idx[p].(changes := Replace(idx[p].changes, c.key, c)));
    ChangesInSync(idx, subs, p, UpdateSubchange(idx[p], c.key, c));
  }
}
