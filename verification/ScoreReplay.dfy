// What the score of one user on one task is: a replay of its changes, in
// order, over its submissions (src/cmsranking/Scoring.py). Everything here is a
// value; the classes that update these values in place are in Scoring.dfy.
module ScoreReplay {
  import opened Basics

  datatype Mode = Max | MaxSubtask | MaxTokenedLast

  // The entity, as the store keeps it.
  datatype Submission = Submission(user: string, task: string, time: int)

  // The entity together with the attributes filled in by the scoring code.
  datatype Status = Status(sub: Submission, score: real, token: bool, extra: seq<real>)

  datatype Change = Change(key: string, submission: string, time: int,
                           score: Option<real>, token: Option<bool>, extra: Option<seq<real>>)

  datatype Entry = Entry(time: int, score: real)

  // What a Score object derives from its changes.
  datatype View = View(subs: map<string, Status>, released: multiset<real>,
                       last: Option<string>, history: seq<Entry>)

  function Default(s: Submission): Status {
    Status(s, 0.0, false, [])
  }

  function Skeleton(subs: map<string, Status>): map<string, Submission> {
    map k | k in subs :: subs[k].sub
  }

  function Reset(sk: map<string, Submission>): map<string, Status> {
    map k | k in sk :: Default(sk[k])
  }

  // ----- the three score modes -----

  function Row(s: Status): (r: seq<real>)
    ensures r != []
  {
    if s.extra == [] then [s.score] else s.extra
  }

  function Cell(s: Status, j: nat): real {
    if j < |Row(s)| then Row(s)[j] else 0.0
  }

  ghost function Column(subs: map<string, Status>, j: nat): real
    requires subs.Keys != {}
  {
    MaxOf(Cells(subs, j))
  }

  ghost function Cells(subs: map<string, Status>, j: nat): (cs: set<real>)
    ensures subs.Keys != {} ==> cs != {}
  {
    var cs := set k | k in subs :: Cell(subs[k], j);
    assert subs.Keys != {} ==> Cell(subs[Pick(subs.Keys)], j) in cs;
    cs
  }

  ghost predicate IsWidth(subs: map<string, Status>, w: nat) {
    && (forall k :: k in subs ==> |Row(subs[k])| <= w)
    && (subs.Keys != {} ==> exists k :: k in subs && |Row(subs[k])| == w)
    && (subs.Keys == {} ==> w == 0)
  }

  ghost function Width(subs: map<string, Status>): (w: nat)
    ensures IsWidth(subs, w)
    decreases |subs|
  {
    if subs.Keys == {} then 0
    else
      var k := Pick(subs.Keys);
      var rest := subs - {k};
      assert forall x :: x in subs ==> x == k || (x in rest && rest[x] == subs[x]);
      var w := Width(rest);
      if |Row(subs[k])| <= w then
        assert rest.Keys != {};
        w
      else |Row(subs[k])|
  }

  ghost function SumColumns(subs: map<string, Status>, n: nat): real
    requires subs.Keys != {}
  {
    if n == 0 then 0.0 else SumColumns(subs, n - 1) + Column(subs, n - 1)
  }

  ghost function ScoresOf(subs: map<string, Status>): (ss: set<real>)
    ensures subs.Keys != {} ==> ss != {}
  {
    var ss := set k | k in subs :: subs[k].score;
    assert subs.Keys != {} ==> subs[Pick(subs.Keys)].score in ss;
    ss
  }

  ghost function Query(released: multiset<real>): real {
    MaxOf((set x | x in released) + {0.0})
  }

  ghost function Current(mode: Mode, subs: map<string, Status>, released: multiset<real>, last: Option<string>): real
    requires last.Some? ==> last.value in subs
  {
    match mode
    case Max => if subs.Keys == {} then 0.0 else MaxOf(ScoresOf(subs))
    case MaxSubtask => if subs.Keys == {} then 0.0 else SumColumns(subs, Width(subs))
    case MaxTokenedLast =>
      var l := if last.Some? then subs[last.value].score else 0.0;
      if Query(released) >= l then Query(released) else l
  }

  function ScoreOf(history: seq<Entry>): real {
    if history == [] then 0.0 else history[|history| - 1].score
  }

  // ----- one change, and a replay of many -----

  predicate Known(subs: set<string>, cs: seq<Change>) {
    forall i :: 0 <= i < |cs| ==> cs[i].submission in subs
  }

  ghost predicate WellFormed(v: View) {
    v.last.Some? ==> v.last.value in v.subs
  }

  function Patch(s: Status, c: Change): Status {
    Status(s.sub, c.score.GetOr(s.score), c.token.GetOr(s.token), c.extra.GetOr(s.extra))
  }

  function Swap(released: multiset<real>, before: Status, after: Status): multiset<real> {
    var r := if before.token then released - multiset{before.score} else released;
    if after.token then r + multiset{after.score} else r
  }

  function NewLast(v: View, c: Change): (l: Option<string>)
    requires WellFormed(v) && c.submission in v.subs
  {
    if c.score.Some? && (v.last.None? || v.subs[c.submission].sub.time > v.subs[v.last.value].sub.time)
    then Some(c.submission) else v.last
  }

  function Extend(history: seq<Entry>, time: int, score: real): seq<Entry> {
    if score != ScoreOf(history) then history + [Entry(time, score)] else history
  }

  // A change without its effect on the history.
  function Absorb(v: View, c: Change): (w: View)
    requires WellFormed(v) && c.submission in v.subs
    ensures WellFormed(w) && w.subs.Keys == v.subs.Keys
    ensures Skeleton(w.subs) == Skeleton(v.subs)
  {
    var s := v.subs[c.submission];
    var t := Patch(s, c);
    var subs := v.subs[c.submission := t];
    assert subs.Keys == v.subs.Keys;
    View(subs, Swap(v.released, s, t), NewLast(v, c), v.history)
  }

  ghost function Step(mode: Mode, v: View, c: Change): (w: View)
    requires WellFormed(v) && c.submission in v.subs
    ensures WellFormed(w) && w.subs.Keys == v.subs.Keys
    ensures Skeleton(w.subs) == Skeleton(v.subs)
  {
    var w := Absorb(v, c);
    w.(history := Extend(v.history, c.time, Current(mode, w.subs, w.released, w.last)))
  }

  function Blank(subs: map<string, Status>): View {
    View(subs, multiset{}, None, [])
  }

  ghost function Replay(mode: Mode, sk: map<string, Submission>, cs: seq<Change>): (v: View)
    requires Known(sk.Keys, cs)
    ensures WellFormed(v) && v.subs.Keys == sk.Keys
    ensures Skeleton(v.subs) == sk
  {
    if cs == [] then Blank(Reset(sk))
    else Step(mode, Replay(mode, sk, cs[..|cs| - 1]), cs[|cs| - 1])
  }

  lemma ReplayAppend(mode: Mode, sk: map<string, Submission>, cs: seq<Change>, c: Change)
    requires Known(sk.Keys, cs) && c.submission in sk
    ensures Known(sk.Keys, cs + [c])
    ensures Replay(mode, sk, cs + [c]) == Step(mode, Replay(mode, sk, cs), c)
  {
    assert (cs + [c])[..|cs|] == cs;
  }
}
