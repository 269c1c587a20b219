// The scoring store agrees with the submission and subchange stores: which
// callbacks keep the agreement, and exactly when the irregular ones do.
module ScoreAgreement {
  import opened Basics
  import opened ScoreReplay
  import opened ScoreLate
  import opened ChangeOrder
  import opened ScoreOps
  import opened ScoreIndex

  type Subs = map<string, Submission>
  type Chs = map<string, Change>
  type Modes = map<string, Mode>

  // Every change belongs to a stored submission.
  predicate Referenced(subs: Subs, chs: Chs) {
    forall k :: k in chs ==> chs[k].submission in subs
  }

  lemma RemoveThenAdd<V>(m: map<string, V>, k: string, v: V)
    ensures (m - {k})[k := v] == m[k := v]
  {
  }

  lemma SubsOfRemove(subs: Subs, k: string, p: Pair)
    ensures SubsOf(subs - {k}, p) == SubsOf(subs, p) - {k}
  {
  }

  lemma WithoutNone(chs: Chs, k: string)
    requires forall x :: x in chs ==> chs[x].submission != k
    ensures Without(chs, k) == chs
  {
  }

  lemma PatchAgrees(idx: Index, subs: Subs, chs: Chs, modes: Modes, more: Subs, others: Chs, p: Pair, t: ScoreState)
    requires Agrees(idx, subs, chs, modes) && p.task in modes && WellKeyed(others)
    requires PairsOf(more) == PairsOf(subs) + {p}
    requires Reflects(t, modes[p.task], SubsOf(more, p), ChsOf(more, others, p))
    requires forall q :: q in idx && q != p ==> SubsOf(more, q) == SubsOf(subs, q) && ChsOf(more, others, q) == ChsOf(subs, chs, q)
    ensures Agrees(idx[p := t], more, others, modes)
  {
    var after := idx[p := t];
    forall q | q in after ensures RightAt(after, more, others, modes, q) {
      if q == p {
        ReflectsCanonical(t, modes[p.task], SubsOf(more, p), ChsOf(more, others, p));
      } else {
        RightElsewhere(idx, subs, chs, modes, more, others, p, t, q);
      }
    }
    assert after.Keys == idx.Keys + {p};
  }

  lemma RightElsewhere(idx: Index, subs: Subs, chs: Chs, modes: Modes, more: Subs, others: Chs, p: Pair, t: ScoreState, q: Pair)
    requires Agrees(idx, subs, chs, modes) && q in idx && q != p
    requires SubsOf(more, q) == SubsOf(subs, q) && ChsOf(more, others, q) == ChsOf(subs, chs, q)
    ensures RightAt(idx[p := t], more, others, modes, q)
  {
    assert RightAt(idx, subs, chs, modes, q);
  }

  // What agreement says about the score of one stored submission.
  lemma AtPair(idx: Index, subs: Subs, chs: Chs, modes: Modes, k: string)
    requires Agrees(idx, subs, chs, modes) && k in subs
    ensures var p := PairOf(subs[k]);
            && p in idx && p.task in modes && Safe(idx[p]) && k in idx[p].view.subs
            && Reflects(idx[p], modes[p.task], SubsOf(subs, p), ChsOf(subs, chs, p))
            && PairsOf(subs) == PairsOf(subs) + {p}
  {
    var p := PairOf(subs[k]);
    assert p in PairsOf(subs);
    ScoreReflects(subs, chs, modes[p.task], p);
    ReflectsSafe(idx[p], modes[p.task], SubsOf(subs, p), ChsOf(subs, chs, p));
    assert k in SubsOf(subs, p);
  }

  // One score changed, with the submissions left alone.
  lemma PatchChanges(idx: Index, subs: Subs, chs: Chs, modes: Modes, others: Chs, p: Pair, t: ScoreState)
    requires Agrees(idx, subs, chs, modes) && p in idx && WellKeyed(others)
    requires Reflects(t, modes[p.task], SubsOf(subs, p), ChsOf(subs, others, p))
    requires forall q :: q in idx && q != p ==> ChsOf(subs, others, q) == ChsOf(subs, chs, q)
    ensures Agrees(idx[p := t], subs, others, modes)
  {
    assert PairsOf(subs) == PairsOf(subs) + {p};
    PatchAgrees(idx, subs, chs, modes, subs, others, p, t);
  }

  lemma NothingOf(subs: Subs, chs: Chs, p: Pair)
    requires p !in PairsOf(subs)
    ensures SubsOf(subs, p) == map[] && ChsOf(subs, chs, p) == map[]
  {
    NoSubsOf(subs, p);
    assert forall k :: k in SubsOf(subs, p) <==> k in subs && PairOf(subs[k]) == p;
    assert forall k :: k in chs ==> !Belongs(subs, chs[k], p);
  }

  lemma ScoreAtReflects(idx: Index, subs: Subs, chs: Chs, modes: Modes, p: Pair)
    requires Agrees(idx, subs, chs, modes) && p.task in modes
    ensures Reflects(ScoreAt(idx, p, modes[p.task]), modes[p.task], SubsOf(subs, p), ChsOf(subs, chs, p))
  {
    if p !in idx {
      NothingOf(subs, chs, p);
      NewReflects(modes[p.task]);
    } else {
      ScoreReflects(subs, chs, modes[p.task], p);
    }
  }

  lemma ChsOfNonNegative(subs: Subs, chs: Chs, p: Pair)
    requires NonNegativeTable(chs)
    ensures NonNegativeTable(ChsOf(subs, chs, p))
  {
  }

  lemma ChsOfAddSub(subs: Subs, chs: Chs, k: string, s: Submission, p: Pair)
    requires forall x :: x in chs ==> chs[x].submission != k
    ensures ChsOf(subs[k := s], chs, p) == ChsOf(subs, chs, p)
  {
  }

  // The stored changes of a user and task are those of its submissions.
  lemma ListKnown(subs: Subs, chs: Chs, p: Pair)
    requires WellKeyed(chs)
    ensures Known(SubsOf(subs, p).Keys, SortedList(ChsOf(subs, chs, p)))
  {
    var mine := ChsOf(subs, chs, p);
    SortedListLists(mine);
    ListedKeys(SortedList(mine), mine);
  }

  // A new submission of this user and task would have weighed nothing at any
  // moment of its score.
  ghost predicate WelcomeAt(subs: Subs, chs: Chs, modes: Modes, p: Pair) {
    var sk, cs := SubsOf(subs, p), SortedList(ChsOf(subs, chs, p));
    p.task in modes && Known(sk.Keys, cs) && Welcome(modes[p.task], sk, cs)
  }

  ghost predicate TellingAt(subs: Subs, chs: Chs, modes: Modes, p: Pair) {
    var sk, cs := SubsOf(subs, p), SortedList(ChsOf(subs, chs, p));
    p.task in modes && Known(sk.Keys, cs) && Telling(modes[p.task], sk, cs)
  }

  lemma NonNegativeWelcomeAt(subs: Subs, chs: Chs, modes: Modes, p: Pair)
    requires WellKeyed(chs) && NonNegativeTable(chs) && p.task in modes
    ensures WelcomeAt(subs, chs, modes, p) && TellingAt(subs, chs, modes, p)
  {
    var mine := ChsOf(subs, chs, p);
    ListKnown(subs, chs, p);
    SortedListLists(mine);
    ChsOfNonNegative(subs, chs, p);
    ListedNonNegative(SortedList(mine), mine);
    NonNegativeIsWelcome(modes[p.task], SubsOf(subs, p), SortedList(mine));
  }

  lemma ListAt(idx: Index, subs: Subs, chs: Chs, modes: Modes, p: Pair)
    requires Agrees(idx, subs, chs, modes) && p.task in modes
    ensures ScoreAt(idx, p, modes[p.task]).changes == SortedList(ChsOf(subs, chs, p))
  {
    ScoreAtReflects(idx, subs, chs, modes, p);
    SortedListLists(ChsOf(subs, chs, p));
    SortedUnique(ScoreAt(idx, p, modes[p.task]).changes, SortedList(ChsOf(subs, chs, p)));
  }

  lemma CreatedAtPair(idx: Index, subs: Subs, chs: Chs, modes: Modes, k: string, s: Submission)
    requires Agrees(idx, subs, chs, modes) && k !in subs && TellingAt(subs, chs, modes, PairOf(s))
    ensures var p, mode := PairOf(s), modes[s.task];
            Reflects(CreateSubmission(ScoreAt(idx, p, mode), k, s), mode, SubsOf(subs, p)[k := s], ChsOf(subs, chs, p))
            <==> WelcomeAt(subs, chs, modes, p)
  {
    var p := PairOf(s);
    ScoreAtReflects(idx, subs, chs, modes, p);
    ListAt(idx, subs, chs, modes, p);
    CreateSubmissionReflectsIff(ScoreAt(idx, p, modes[s.task]), modes[s.task], SubsOf(subs, p), ChsOf(subs, chs, p), k, s);
  }

  // A fresh submission leaves every score a replay of the stored tables exactly
  // when it is welcome at its own.
  lemma CreateSubAgreesIff(idx: Index, subs: Subs, chs: Chs, modes: Modes, k: string, s: Submission)
    requires Agrees(idx, subs, chs, modes) && k !in subs && TellingAt(subs, chs, modes, PairOf(s))
    requires forall x :: x in chs ==> chs[x].submission != k
    ensures Agrees(CreateSub(idx, k, s, modes[s.task]), subs[k := s], chs, modes) <==> WelcomeAt(subs, chs, modes, PairOf(s))
  {
    var p, more := PairOf(s), subs[k := s];
    var t := CreateSubmission(ScoreAt(idx, p, modes[s.task]), k, s);
    CreatedAtPair(idx, subs, chs, modes, k, s);
    SubsOfAdd(subs, k, s, p);
    PairsOfAdd(subs, k, s);
    OthersKeepSubs(idx, subs, k, s);
    forall q ensures ChsOf(more, chs, q) == ChsOf(subs, chs, q) {
      ChsOfAddSub(subs, chs, k, s, q);
    }
    if WelcomeAt(subs, chs, modes, p) {
      PatchAgrees(idx, subs, chs, modes, more, chs, p, t);
    } else {
      StaleAtPair(idx[p := t], more, chs, modes, p);
    }
  }

  lemma WithoutOf(subs: Subs, chs: Chs, k: string, p: Pair)
    requires k in subs
    ensures ChsOf(subs - {k}, Without(chs, k), p) ==
            if PairOf(subs[k]) == p then Without(ChsOf(subs, chs, p), k) else ChsOf(subs, chs, p)
  {
    var l := ChsOf(subs - {k}, Without(chs, k), p);
    var r := if PairOf(subs[k]) == p then Without(ChsOf(subs, chs, p), k) else ChsOf(subs, chs, p);
    forall x ensures x in l <==> x in r {
    }
  }

  lemma WithoutOthers(subs: Subs, chs: Chs, k: string)
    requires k in subs
    ensures forall q :: q != PairOf(subs[k]) ==>
                          SubsOf(subs - {k}, q) == SubsOf(subs, q) && ChsOf(subs - {k}, Without(chs, k), q) == ChsOf(subs, chs, q)
  {
    forall q | q != PairOf(subs[k])
      ensures SubsOf(subs - {k}, q) == SubsOf(subs, q) && ChsOf(subs - {k}, Without(chs, k), q) == ChsOf(subs, chs, q)
    {
      WithoutOf(subs, chs, k, q);
    }
  }

  // The deleted submission was one of several of its user and task.
  lemma DropOneAgrees(idx: Index, subs: Subs, chs: Chs, modes: Modes, k: string, t: ScoreState)
    requires Agrees(idx, subs, chs, modes) && k in subs
    requires var p := PairOf(subs[k]);
             && p in idx
             && SubsOf(subs - {k}, p) != map[]
             && Reflects(t, modes[p.task], SubsOf(subs - {k}, p), ChsOf(subs - {k}, Without(chs, k), p))
    ensures Agrees(idx[PairOf(subs[k]) := t], subs - {k}, Without(chs, k), modes)
  {
    var p, rest := PairOf(subs[k]), subs - {k};
    SubsOfRemove(subs, k, p);
    PairsOfRemove(subs, k);
    WithoutOthers(subs, chs, k);
    AtPair(idx, subs, chs, modes, k);
    PatchAgrees(idx, subs, chs, modes, rest, Without(chs, k), p, t);
  }

  // It was the only one.
  lemma DropLastAgrees(idx: Index, subs: Subs, chs: Chs, modes: Modes, k: string)
    requires Agrees(idx, subs, chs, modes) && k in subs
    requires SubsOf(subs - {k}, PairOf(subs[k])) == map[]
    ensures Agrees(idx - {PairOf(subs[k])}, subs - {k}, Without(chs, k), modes)
  {
    var p, rest := PairOf(subs[k]), subs - {k};
    SubsOfRemove(subs, k, p);
    PairsOfRemove(subs, k);
    WithoutOthers(subs, chs, k);
  }

  // Deleting a submission deletes its changes and, with the last one of a pair,
  // the score itself.
  lemma DeleteSubAgrees(idx: Index, subs: Subs, chs: Chs, modes: Modes, k: string)
    requires Agrees(idx, subs, chs, modes) && k in subs
    ensures Has(idx, subs[k])
    ensures Agrees(DeleteSub(idx, k, subs[k]), subs - {k}, Without(chs, k), modes)
  {
    AtPair(idx, subs, chs, modes, k);
    var p := PairOf(subs[k]);
    var t := DeleteSubmission(idx[p], k);
    DeletedAtPair(idx, subs, chs, modes, k);
    if SubsOf(subs - {k}, p) == map[] {
      DropLastAgrees(idx, subs, chs, modes, k);
    } else {
      DropOneAgrees(idx, subs, chs, modes, k, t);
    }
  }

  lemma DeletedAtPair(idx: Index, subs: Subs, chs: Chs, modes: Modes, k: string)
    requires Agrees(idx, subs, chs, modes) && k in subs
    ensures var p := PairOf(subs[k]);
            && p in idx && p.task in modes && Safe(idx[p])
            && var t := DeleteSubmission(idx[p], k);
            && Reflects(t, modes[p.task], SubsOf(subs - {k}, p), ChsOf(subs - {k}, Without(chs, k), p))
            && (t.view.subs.Keys == {} <==> SubsOf(subs - {k}, p) == map[])
  {
    AtPair(idx, subs, chs, modes, k);
    var p := PairOf(subs[k]);
    DeleteSubmissionReflects(idx[p], modes[p.task], SubsOf(subs, p), ChsOf(subs, chs, p), k);
    WithoutOf(subs, chs, k, p);
    SubsOfRemove(subs, k, p);
    EmptyKeys(SubsOf(subs - {k}, p));
  }

  lemma EmptyKeys<V>(m: map<string, V>)
    ensures m.Keys == {} <==> m == map[]
  {
    assert forall k :: k in m.Keys <==> k in m;
  }

  lemma ChsOfSamePair(subs: Subs, chs: Chs, k: string, s: Submission, p: Pair)
    requires k in subs && PairOf(subs[k]) == PairOf(s)
    ensures ChsOf(subs[k := s], chs, p) == ChsOf(subs, chs, p)
  {
  }

  lemma UpdateSubAgrees(idx: Index, subs: Subs, chs: Chs, modes: Modes, k: string, s: Submission)
    requires Agrees(idx, subs, chs, modes) && k in subs && PairOf(subs[k]) == PairOf(s)
    ensures Has(idx, subs[k]) && s.task in modes
    ensures Agrees(UpdateSub(idx, k, subs[k], s, modes[s.task]), subs[k := s], chs, modes)
  {
    AtPair(idx, subs, chs, modes, k);
    var p := PairOf(s);
    UpdateSubmissionReflects(idx[p], modes[s.task], SubsOf(subs, p), ChsOf(subs, chs, p), k, s);
    SubsOfAdd(subs, k, s, p);
    SamePairs(subs, k, s);
    OthersKeepSubs(idx, subs, k, s);
    forall q ensures ChsOf(subs[k := s], chs, q) == ChsOf(subs, chs, q) {
      ChsOfSamePair(subs, chs, k, s, q);
    }
    PatchAgrees(idx, subs, chs, modes, subs[k := s], chs, p, UpdateScoreMode(UpdateSubmission(idx[p], k, s), modes[s.task]));
  }

  // A submission that moves to another user or task takes none of its changes
  // along: the index agrees with the tables afterwards exactly when it had none
  // and is welcome where it goes.
  lemma MoveSubAgreesIff(idx: Index, subs: Subs, chs: Chs, modes: Modes, k: string, s: Submission)
    requires Agrees(idx, subs, chs, modes) && TellingAt(subs, chs, modes, PairOf(s))
    requires k in subs && PairOf(subs[k]) != PairOf(s)
    ensures Has(idx, subs[k])
    ensures Agrees(UpdateSub(idx, k, subs[k], s, modes[s.task]), subs[k := s], chs, modes)
            <==> (forall x :: x in chs ==> chs[x].submission != k) && WelcomeAt(subs, chs, modes, PairOf(s))
  {
    DeleteSubAgrees(idx, subs, chs, modes, k);
    var less := DeleteSub(idx, k, subs[k]);
    if x :| x in chs && chs[x].submission == k {
      MovedMisses(less, subs, chs, modes, k, s, x);
    } else {
      WithoutNone(chs, k);
      MovedFree(less, subs, chs, modes, k, s);
    }
  }

  // A moved submission without changes arrives like a new one.
  lemma MovedFree(less: Index, subs: Subs, chs: Chs, modes: Modes, k: string, s: Submission)
    requires Agrees(less, subs - {k}, chs, modes) && TellingAt(subs, chs, modes, PairOf(s))
    requires k in subs && PairOf(subs[k]) != PairOf(s)
    requires forall x :: x in chs ==> chs[x].submission != k
    ensures Agrees(CreateSub(less, k, s, modes[s.task]), subs[k := s], chs, modes) <==> WelcomeAt(subs, chs, modes, PairOf(s))
  {
    WithoutNone(chs, k);
    WithoutOthers(subs, chs, k);
    CreateSubAgreesIff(less, subs - {k}, chs, modes, k, s);
    RemoveThenAdd(subs, k, s);
  }

  // One that had a change does not arrive with it.
  lemma MovedMisses(less: Index, subs: Subs, chs: Chs, modes: Modes, k: string, s: Submission, x: string)
    requires Agrees(less, subs - {k}, Without(chs, k), modes) && WellKeyed(chs) && s.task in modes
    requires k in subs && x in chs && chs[x].submission == k
    ensures !Agrees(CreateSub(less, k, s, modes[s.task]), subs[k := s], chs, modes)
  {
    var p, after := PairOf(s), CreateSub(less, k, s, modes[s.task]);
    var t := ScoreAt(less, p, modes[s.task]);
    ScoreAtReflects(less, subs - {k}, Without(chs, k), modes, p);
    assert after[p].changes == t.changes;
    assert chs[x] !in Elems(t.changes);
    if Agrees(after, subs[k := s], chs, modes) {
      AgreesLists(after, subs[k := s], chs, modes, p, x);
    }
  }

  lemma AgreesLists(idx: Index, subs: Subs, chs: Chs, modes: Modes, p: Pair, x: string)
    requires Agrees(idx, subs, chs, modes) && x in chs && Belongs(subs, chs[x], p)
    ensures p in idx && chs[x] in Elems(idx[p].changes)
  {
    assert p in PairsOf(subs);
    ScoreReflects(subs, chs, modes[p.task], p);
    assert x in ChsOf(subs, chs, p);
    assert ChsOf(subs, chs, p)[x] in ChsOf(subs, chs, p).Values;
  }

  lemma ChsOfAdd(subs: Subs, chs: Chs, c: Change, p: Pair)
    ensures ChsOf(subs, chs[c.key := c], p) ==
            if Belongs(subs, c, p) then ChsOf(subs, chs, p)[c.key := c] else ChsOf(subs, chs, p) - {c.key}
  {
    var l := ChsOf(subs, chs[c.key := c], p);
    var r := if Belongs(subs, c, p) then ChsOf(subs, chs, p)[c.key := c] else ChsOf(subs, chs, p) - {c.key};
    forall x ensures x in l <==> x in r {
    }
  }

  lemma ChsOfAddFresh(subs: Subs, chs: Chs, c: Change, p: Pair)
    requires c.key !in chs || Belongs(subs, chs[c.key], p)
    requires Belongs(subs, c, p)
    ensures ChsOf(subs, chs[c.key := c], p) == ChsOf(subs, chs, p)[c.key := c]
    ensures forall q :: q != p ==> ChsOf(subs, chs[c.key := c], q) == ChsOf(subs, chs, q)
  {
    ChsOfAdd(subs, chs, c, p);
    forall q | q != p ensures ChsOf(subs, chs[c.key := c], q) == ChsOf(subs, chs, q) {
      ChsOfAdd(subs, chs, c, q);
      assert c.key !in ChsOf(subs, chs, q);
    }
  }

  lemma CreateChAgrees(idx: Index, subs: Subs, chs: Chs, modes: Modes, c: Change)
    requires Agrees(idx, subs, chs, modes) && WellKeyed(chs)
    requires c.key !in chs && c.submission in subs
    ensures Listed(idx, c, subs[c.submission])
    ensures Agrees(CreateCh(idx, c, subs[c.submission]), subs, chs[c.key := c], modes)
  {
    AtPair(idx, subs, chs, modes, c.submission);
    var p := PairOf(subs[c.submission]);
    CreateSubchangeReflects(idx[p], modes[p.task], SubsOf(subs, p), ChsOf(subs, chs, p), c);
    ChsOfAddFresh(subs, chs, c, p);
    PatchChanges(idx, subs, chs, modes, chs[c.key := c], p, CreateSubchange(idx[p], c));
  }

  lemma ChsOfRemove(subs: Subs, chs: Chs, key: string, p: Pair)
    requires key in chs && Belongs(subs, chs[key], p)
    ensures ChsOf(subs, chs - {key}, p) == ChsOf(subs, chs, p) - {key}
    ensures forall q :: q != p ==> ChsOf(subs, chs - {key}, q) == ChsOf(subs, chs, q)
  {
  }

  lemma DeleteChAgrees(idx: Index, subs: Subs, chs: Chs, modes: Modes, key: string)
    requires Agrees(idx, subs, chs, modes) && WellKeyed(chs)
    requires key in chs && chs[key].submission in subs
    ensures Has(idx, subs[chs[key].submission])
    ensures Agrees(DeleteCh(idx, chs[key], Some(subs[chs[key].submission])), subs, chs - {key}, modes)
  {
    var c := chs[key];
    AtPair(idx, subs, chs, modes, c.submission);
    var p := PairOf(subs[c.submission]);
    DeleteSubchangeReflects(idx[p], modes[p.task], SubsOf(subs, p), ChsOf(subs, chs, p), key);
    ChsOfRemove(subs, chs, key, p);
    PatchChanges(idx, subs, chs, modes, chs - {key}, p, DeleteSubchange(idx[p], key));
  }

  // A subchange that changes its submission is taken out and put back in.
  lemma MoveChAgrees(idx: Index, subs: Subs, chs: Chs, modes: Modes, c: Change)
    requires Agrees(idx, subs, chs, modes) && WellKeyed(chs)
    requires c.key in chs && chs[c.key].submission in subs && c.submission in subs
    ensures var was := chs[c.key];
            && Has(idx, subs[was.submission])
            && var less := DeleteCh(idx, was, Some(subs[was.submission]));
            && Listed(less, c, subs[c.submission])
            && Agrees(CreateCh(less, c, subs[c.submission]), subs, chs[c.key := c], modes)
  {
    var was := chs[c.key];
    DeleteChAgrees(idx, subs, chs, modes, c.key);
    PutBack(DeleteCh(idx, was, Some(subs[was.submission])), subs, chs, modes, c);
  }

  lemma PutBack(less: Index, subs: Subs, chs: Chs, modes: Modes, c: Change)
    requires Agrees(less, subs, chs - {c.key}, modes) && WellKeyed(chs)
    requires c.submission in subs
    ensures Listed(less, c, subs[c.submission])
    ensures Agrees(CreateCh(less, c, subs[c.submission]), subs, chs[c.key := c], modes)
  {
    CreateChAgrees(less, subs, chs - {c.key}, modes, c);
    RemoveThenAdd(chs, c.key, c);
  }

  // The new version of a subchange stands in the same order, by time and key,
  // to every other stored subchange of the same user and task.
  predicate Undisturbed(subs: Subs, chs: Chs, c: Change)
    requires c.key in chs && c.submission in subs
  {
    forall x :: x in chs && x != c.key && Belongs(subs, chs[x], PairOf(subs[c.submission])) ==>
                  (Before(chs[c.key], chs[x]) <==> Before(c, chs[x]))
  }

  lemma KeepsPlaceIff(cs: seq<Change>, subs: Subs, chs: Chs, c: Change)
    requires c.key in chs && c.submission in subs && chs[c.key].submission == c.submission && WellKeyed(chs)
    requires Sorted(cs) && Elems(cs) == ChsOf(subs, chs, PairOf(subs[c.submission])).Values
    ensures KeepsPlace(cs, c.key, c) <==> Undisturbed(subs, chs, c)
  {
    var p := PairOf(subs[c.submission]);
    var mine := ChsOf(subs, chs, p);
    ListedKeys(cs, mine);
    assert mine[c.key] == chs[c.key] && mine[c.key] in cs;
    var i :| 0 <= i < |cs| && cs[i] == chs[c.key];
    if KeepsPlace(cs, c.key, c) {
      forall x | x in chs && x != c.key && Belongs(subs, chs[x], p)
        ensures Before(chs[c.key], chs[x]) <==> Before(c, chs[x])
      {
        assert mine[x] in cs;
        var j :| 0 <= j < |cs| && cs[j] == chs[x];
      }
    }
    if Undisturbed(subs, chs, c) {
      forall j | 0 <= j < |cs| && cs[j].key != c.key ensures Before(cs[i], cs[j]) <==> Before(c, cs[j]) {
        assert cs[j].key in mine;
      }
    }
  }

  // Replaced in place, a subchange keeps the agreement exactly when it is
  // undisturbed.
  lemma UpdateChAgreesIff(idx: Index, subs: Subs, chs: Chs, modes: Modes, c: Change)
    requires Agrees(idx, subs, chs, modes) && WellKeyed(chs)
    requires c.key in chs && c.submission in subs && chs[c.key].submission == c.submission
    ensures var was, s := chs[c.key], subs[c.submission];
            && Listed(idx, c, s)
            && Listed(DeleteCh(idx, was, Some(s)), c, s)
    ensures Agrees(UpdateCh(idx, chs[c.key], c, Some(subs[c.submission]), subs[c.submission]), subs, chs[c.key := c], modes)
            <==> Undisturbed(subs, chs, c)
  {
    AgreesInSync(idx, subs, chs, modes);
    UpdateChInSync(idx, subs, chs[c.key], c, Some(subs[c.submission]));
    ReplacedCh(idx, subs, chs, modes, c);
  }

  lemma StaleAtPair(idx: Index, subs: Subs, chs: Chs, modes: Modes, p: Pair)
    requires p in idx && p.task in modes && WellKeyed(chs)
    requires !Reflects(idx[p], modes[p.task], SubsOf(subs, p), ChsOf(subs, chs, p))
    ensures !Agrees(idx, subs, chs, modes)
  {
    if Agrees(idx, subs, chs, modes) {
      ScoreReflects(subs, chs, modes[p.task], p);
    }
  }

  lemma ReplacedAtPair(idx: Index, subs: Subs, chs: Chs, modes: Modes, c: Change, p: Pair)
    requires Agrees(idx, subs, chs, modes) && c.key in chs && c.submission in subs
    requires chs[c.key].submission == c.submission && p == PairOf(subs[c.submission])
    ensures p in idx && p.task in modes && Safe(idx[p]) && c.submission in idx[p].view.subs
    ensures Reflects(UpdateSubchange(idx[p], c.key, c), modes[p.task], SubsOf(subs, p), ChsOf(subs, chs, p)[c.key := c])
            <==> Undisturbed(subs, chs, c)
  {
    AtPair(idx, subs, chs, modes, c.submission);
    UpdateSubchangeReflectsIff(idx[p], modes[p.task], SubsOf(subs, p), ChsOf(subs, chs, p), c);
    KeepsPlaceIff(idx[p].changes, subs, chs, c);
  }

  lemma ReplacedCh(idx: Index, subs: Subs, chs: Chs, modes: Modes, c: Change)
    requires Agrees(idx, subs, chs, modes) && WellKeyed(chs)
    requires c.key in chs && c.submission in subs && chs[c.key].submission == c.submission
    ensures var p := PairOf(subs[c.submission]);
            && p in idx && Safe(idx[p]) && c.submission in idx[p].view.subs
            && (Agrees(idx[p := UpdateSubchange(idx[p], c.key, c)], subs, chs[c.key := c], modes) <==> Undisturbed(subs, chs, c))
  {
    var p := PairOf(subs[c.submission]);
    ReplacedAtPair(idx, subs, chs, modes, c, p);
    ChsOfAddFresh(subs, chs, c, p);
    PatchedIff(idx, subs, chs, modes, chs[c.key := c], p, UpdateSubchange(idx[p], c.key, c));
  }

  lemma PatchedIff(idx: Index, subs: Subs, chs: Chs, modes: Modes, others: Chs, p: Pair, t: ScoreState)
    requires Agrees(idx, subs, chs, modes) && p in idx && WellKeyed(others)
    requires forall q :: q in idx && q != p ==> ChsOf(subs, others, q) == ChsOf(subs, chs, q)
    ensures Agrees(idx[p := t], subs, others, modes) <==> Reflects(t, modes[p.task], SubsOf(subs, p), ChsOf(subs, others, p))
  {
    if Reflects(t, modes[p.task], SubsOf(subs, p), ChsOf(subs, others, p)) {
      PatchChanges(idx, subs, chs, modes, others, p, t);
    } else {
      StaleAtPair(idx[p := t], subs, others, modes, p);
    }
  }

  // An update of a subchange keeps the agreement exactly when the subchange
  // moves to another submission or is undisturbed.
  lemma AnyUpdateChAgreesIff(idx: Index, subs: Subs, chs: Chs, modes: Modes, c: Change)
    requires Agrees(idx, subs, chs, modes) && WellKeyed(chs)
    requires c.key in chs && c.submission in subs && chs[c.key].submission in subs
    ensures var was, t, s := chs[c.key], subs[chs[c.key].submission], subs[c.submission];
            && Has(idx, t) && Listed(idx, c, s) && Listed(DeleteCh(idx, was, Some(t)), c, s)
            && (Agrees(UpdateCh(idx, was, c, Some(t), s), subs, chs[c.key := c], modes)
                <==> (was.submission == c.submission ==> Undisturbed(subs, chs, c)))
  {
    AtPair(idx, subs, chs, modes, c.submission);
    if chs[c.key].submission != c.submission {
      MoveChAgrees(idx, subs, chs, modes, c);
    } else {
      UpdateChAgreesIff(idx, subs, chs, modes, c);
    }
  }

  // ----- a task that changes its score mode -----

  // The scoring store hears nothing of it: the index agrees with the tables
  // exactly when the mode is the same or the task has no submissions.
  lemma ChangeModeAgreesIff(idx: Index, subs: Subs, chs: Chs, modes: Modes, task: string, mode: Mode)
    requires Agrees(idx, subs, chs, modes) && task in modes
    ensures Agrees(idx, subs, chs, modes[task := mode])
            <==> mode == modes[task] || forall k :: k in subs ==> subs[k].task != task
  {
    forall p | p in idx ensures RightAt(idx, subs, chs, modes[task := mode], p) <==> mode == modes[task] || p.task != task {
      ModeOfRight(idx, subs, chs, modes, subs, idx, modes[task := mode], p);
    }
    forall k | k in subs ensures PairOf(subs[k]) in idx && PairOf(subs[k]).task == subs[k].task {
      assert PairOf(subs[k]) in PairsOf(subs);
    }
  }

  // A score that was right is right under another mode only if it is the same.
  lemma ModeOfRight(idx: Index, subs: Subs, chs: Chs, modes: Modes, more: Subs, after: Index, changed: Modes, q: Pair)
    requires Agrees(idx, subs, chs, modes) && q in idx && q in after && after[q] == idx[q] && q.task in changed
    requires SubsOf(more, q) == SubsOf(subs, q) && ChsOf(more, chs, q) == ChsOf(subs, chs, q)
    ensures RightAt(after, more, chs, changed, q) <==> changed[q.task] == modes[q.task]
  {
    assert RightAt(idx, subs, chs, modes, q);
  }

  // The history of a user and task is the same in both modes.
  ghost predicate SameHistoryAt(subs: Subs, chs: Chs, p: Pair, m1: Mode, m2: Mode) {
    var sk, cs := SubsOf(subs, p), SortedList(ChsOf(subs, chs, p));
    Known(sk.Keys, cs) && Replay(m1, sk, cs).history == Replay(m2, sk, cs).history
  }

  lemma SetAtPair(idx: Index, subs: Subs, chs: Chs, modes: Modes, k: string, s: Submission, m: Mode)
    requires Agrees(idx, subs, chs, modes) && k in subs && PairOf(subs[k]) == PairOf(s)
    ensures Has(idx, subs[k]) && s.task in modes
    ensures var p := PairOf(s);
            Reflects(UpdateScoreMode(UpdateSubmission(idx[p], k, s), m), m, SubsOf(subs[k := s], p), ChsOf(subs[k := s], chs, p))
            <==> SameHistoryAt(subs[k := s], chs, p, modes[s.task], m)
  {
    var p, more := PairOf(s), subs[k := s];
    AtPair(idx, subs, chs, modes, k);
    ListAt(idx, subs, chs, modes, p);
    SubsOfAdd(subs, k, s, p);
    ChsOfSamePair(subs, chs, k, s, p);
    SetModeReflectsIff(idx[p], modes[s.task], SubsOf(subs, p), ChsOf(subs, chs, p), k, s, m);
  }

  // The next submission that is updated sets the mode of its score, after its
  // replay in the old one. The index agrees with the tables again exactly when
  // the mode is the old one, or no other user has a submission for the task and
  // both modes give this user the same history.
  lemma SetModeAgreesIff(idx: Index, subs: Subs, chs: Chs, modes: Modes, k: string, s: Submission, m: Mode)
    requires Agrees(idx, subs, chs, modes) && k in subs && PairOf(subs[k]) == PairOf(s)
    ensures Has(idx, subs[k]) && s.task in modes
    ensures Agrees(UpdateSub(idx, k, subs[k], s, m), subs[k := s], chs, modes[s.task := m])
            <==> (m == modes[s.task] || forall p :: p in PairsOf(subs) && p.task == s.task ==> p == PairOf(s))
                 && SameHistoryAt(subs[k := s], chs, PairOf(s), modes[s.task], m)
  {
    var p, more, changed := PairOf(s), subs[k := s], modes[s.task := m];
    AtPair(idx, subs, chs, modes, k);
    SetAtPair(idx, subs, chs, modes, k, s, m);
    var t := UpdateScoreMode(UpdateSubmission(idx[p], k, s), m);
    SamePairs(subs, k, s);
    OthersKeepSubs(idx, subs, k, s);
    forall q ensures ChsOf(more, chs, q) == ChsOf(subs, chs, q) {
      ChsOfSamePair(subs, chs, k, s, q);
    }
    if !SameHistoryAt(more, chs, p, modes[s.task], m) {
      StaleAtPair(idx[p := t], more, chs, changed, p);
    } else {
      PatchMode(idx, subs, chs, modes, more, p, t, m);
    }
  }

  lemma PatchMode(idx: Index, subs: Subs, chs: Chs, modes: Modes, more: Subs, p: Pair, t: ScoreState, m: Mode)
    requires Agrees(idx, subs, chs, modes) && p in idx && PairsOf(more) == PairsOf(subs)
    requires Reflects(t, m, SubsOf(more, p), ChsOf(more, chs, p))
    requires forall q :: q in idx && q != p ==> SubsOf(more, q) == SubsOf(subs, q) && ChsOf(more, chs, q) == ChsOf(subs, chs, q)
    ensures Agrees(idx[p := t], more, chs, modes[p.task := m])
            <==> m == modes[p.task] || forall q :: q in PairsOf(subs) && q.task == p.task ==> q == p
  {
    var after, changed := idx[p := t], modes[p.task := m];
    ReflectsCanonical(t, m, SubsOf(more, p), ChsOf(more, chs, p));
    assert RightAt(after, more, chs, changed, p);
    forall q | q in idx && q != p
      ensures RightAt(after, more, chs, changed, q) <==> m == modes[p.task] || q.task != p.task
    {
      assert RightAt(idx, subs, chs, modes, q);
      ModeOfRight(idx, subs, chs, modes, more, after, changed, q);
    }
    ModeAtOthers(idx, subs, chs, modes, more, after, changed, p);
  }

  lemma ModeAtOthers(idx: Index, subs: Subs, chs: Chs, modes: Modes, more: Subs, after: Index, changed: Modes, p: Pair)
    requires Agrees(idx, subs, chs, modes) && PairsOf(more) == PairsOf(subs) && after.Keys == idx.Keys
    requires p in idx && p.task in changed && RightAt(after, more, chs, changed, p)
    requires forall q :: q in idx && q != p ==>
                           (RightAt(after, more, chs, changed, q) <==> changed[p.task] == modes[p.task] || q.task != p.task)
    ensures Agrees(after, more, chs, changed)
            <==> changed[p.task] == modes[p.task] || forall q :: q in PairsOf(subs) && q.task == p.task ==> q == p
  {
  }
}
