// The six entity stores of the ranking server, their references and what a
// deletion drags along (src/cmsranking/Store.py:268-298,
// src/cmsranking/RankingWebServer.py:592-608).
module Entities {
  import opened Basics
  import opened ScoreReplay

  datatype Kind = ContestKind | TaskKind | TeamKind | UserKind | SubmissionKind | SubchangeKind

  datatype Ref = Ref(kind: Kind, key: string)

  // Only what the consistency checks and the scoring look at.
  datatype Entity =
    | Contest
    | Task(contest: string, mode: Mode)
    | Team
    | User(team: Option<string>)
    | Sub(sub: Submission)
    | Chg(change: Change)

  function KindOf(e: Entity): Kind {
    match e
    case Contest => ContestKind
    case Task(_, _) => TaskKind
    case Team => TeamKind
    case User(_) => UserKind
    case Sub(_) => SubmissionKind
    case Chg(_) => SubchangeKind
  }

  // The entities whose existence consistent() asks about.
  function Refs(e: Entity): set<Ref> {
    match e
    case Contest => {}
    case Task(contest, _) => {Ref(ContestKind, contest)}
    case Team => {}
    case User(team) => if team.Some? then {Ref(TeamKind, team.value)} else {}
    case Sub(s) => {Ref(TaskKind, s.task), Ref(UserKind, s.user)}
    case Chg(c) => {Ref(SubmissionKind, c.submission)}
  }

  // The stores that each store drags along, as main() wires them.
  function Depends(k: Kind): set<Kind> {
    match k
    case SubchangeKind => {}
    case SubmissionKind => {SubchangeKind}
    case UserKind => {SubmissionKind}
    case TeamKind => {UserKind}
    case TaskKind => {SubmissionKind}
    case ContestKind => {TaskKind}
  }

  function Rank(k: Kind): nat {
    match k
    case SubchangeKind => 0
    case SubmissionKind => 1
    case UserKind => 2
    case TaskKind => 2
    case TeamKind => 3
    case ContestKind => 3
  }

  type Rows = map<Ref, Entity>

  predicate Typed(rows: Rows) {
    forall r :: r in rows ==> KindOf(rows[r]) == r.kind && (r.kind.SubchangeKind? ==> rows[r].change.key == r.key)
  }

  predicate Consistent(rows: Rows, e: Entity) {
    forall r :: r in Refs(e) ==> r in rows
  }

  predicate Closed(rows: Rows) {
    forall r :: r in rows ==> Consistent(rows, rows[r])
  }

  // ----- the same on the fields of the entities -----

  // The entity names this one in one of its fields.
  predicate Names(e: Entity, r: Ref) {
    match e
    case Task(contest, _) => r.kind.ContestKind? && r.key == contest
    case User(team) => r.kind.TeamKind? && team == Some(r.key)
    case Sub(s) => (r.kind.TaskKind? && r.key == s.task) || (r.kind.UserKind? && r.key == s.user)
    case Chg(c) => r.kind.SubmissionKind? && r.key == c.submission
    case _ => false
  }

  // A task needs its contest, a user its team if it has one, a submission its task
  // and its user, and a subchange its submission.
  predicate Supported(rows: Rows, e: Entity) {
    match e
    case Task(contest, _) => Ref(ContestKind, contest) in rows
    case User(team) => team.None? || Ref(TeamKind, team.value) in rows
    case Sub(s) => Ref(TaskKind, s.task) in rows && Ref(UserKind, s.user) in rows
    case Chg(c) => Ref(SubmissionKind, c.submission) in rows
    case _ => true
  }

  lemma RefsAreNames(e: Entity, r: Ref)
    ensures r in Refs(e) <==> Names(e, r)
  {
  }

  lemma ConsistentIff(rows: Rows, e: Entity)
    ensures Consistent(rows, e) <==> Supported(rows, e)
  {
    match e {
      case Task(contest, _) => assert Ref(ContestKind, contest) in Refs(e);
      case User(team) => assert team.Some? ==> Ref(TeamKind, team.value) in Refs(e);
      case Sub(s) => assert Ref(TaskKind, s.task) in Refs(e) && Ref(UserKind, s.user) in Refs(e);
      case Chg(c) => assert Ref(SubmissionKind, c.submission) in Refs(e);
      case _ =>
    }
  }

  // The wiring is right: what may refer to a kind is what it drags along.
  lemma WiringComplete(e: Entity, r: Ref)
    requires r in Refs(e)
    ensures KindOf(e) in Depends(r.kind) && Rank(KindOf(e)) < Rank(r.kind)
  {
  }

  // An entity goes down with root if it is root or refers to something that
  // goes down with root.
  ghost predicate Doomed(rows: Rows, root: Ref, r: Ref)
    decreases 4 - Rank(r.kind)
  {
    r == root || (r in rows && exists q :: q in Refs(rows[r]) && Rank(q.kind) > Rank(r.kind) && Doomed(rows, root, q))
  }

  lemma DoomedStep(rows: Rows, root: Ref, r: Ref) returns (q: Ref)
    requires Doomed(rows, root, r) && r != root
    ensures r in rows && q in Refs(rows[r]) && Rank(q.kind) > Rank(r.kind) && Doomed(rows, root, q)
  {
    q :| q in Refs(rows[r]) && Rank(q.kind) > Rank(r.kind) && Doomed(rows, root, q);
  }

  // Same rank or higher: only root itself.
  lemma {:induction false} DoomedRank(rows: Rows, root: Ref, r: Ref)
    requires Doomed(rows, root, r) && r != root
    ensures Rank(r.kind) < Rank(root.kind)
    decreases 4 - Rank(r.kind)
  {
    var q := DoomedStep(rows, root, r);
    if q != root {
      DoomedRank(rows, root, q);
    }
  }

  // The same kind by kind: a deletion takes along the tasks of a contest, the users of
  // a team, the submissions of these tasks and users, and their subchanges.
  predicate TaskFalls(rows: Rows, root: Ref, task: string) {
    var r := Ref(TaskKind, task);
    r == root || (r in rows && rows[r].Task? && root == Ref(ContestKind, rows[r].contest))
  }

  predicate UserFalls(rows: Rows, root: Ref, user: string) {
    var r := Ref(UserKind, user);
    r == root || (r in rows && rows[r].User? && rows[r].team.Some? && root == Ref(TeamKind, rows[r].team.value))
  }

  predicate SubmissionFalls(rows: Rows, root: Ref, key: string) {
    var r := Ref(SubmissionKind, key);
    r == root || (r in rows && rows[r].Sub? && (TaskFalls(rows, root, rows[r].sub.task) || UserFalls(rows, root, rows[r].sub.user)))
  }

  predicate SubchangeFalls(rows: Rows, root: Ref, key: string) {
    var r := Ref(SubchangeKind, key);
    r == root || (r in rows && rows[r].Chg? && SubmissionFalls(rows, root, rows[r].change.submission))
  }

  predicate Falls(rows: Rows, root: Ref, r: Ref) {
    match r.kind
    case TaskKind => TaskFalls(rows, root, r.key)
    case UserKind => UserFalls(rows, root, r.key)
    case SubmissionKind => SubmissionFalls(rows, root, r.key)
    case SubchangeKind => SubchangeFalls(rows, root, r.key)
    case _ => r == root
  }

  lemma DoomedByName(rows: Rows, root: Ref, r: Ref, q: Ref)
    requires Typed(rows) && r in rows && Names(rows[r], q) && Doomed(rows, root, q)
    ensures Doomed(rows, root, r)
  {
    RefsAreNames(rows[r], q);
    WiringComplete(rows[r], q);
  }

  lemma FallsThrough(rows: Rows, root: Ref, r: Ref)
    requires Typed(rows) && Falls(rows, root, r) && r != root
    ensures r in rows && exists q :: Names(rows[r], q) && Rank(q.kind) > Rank(r.kind) && Falls(rows, root, q)
  {
    var e := rows[r];
    match r.kind {
      case TaskKind => assert Names(e, root);
      case UserKind => assert Names(e, root);
      case SubmissionKind =>
        var t, u := Ref(TaskKind, e.sub.task), Ref(UserKind, e.sub.user);
        assert Names(e, t) && Names(e, u) && (Falls(rows, root, t) || Falls(rows, root, u));
      case SubchangeKind => assert Names(e, Ref(SubmissionKind, e.change.submission));
    }
  }

  lemma NamedFalls(rows: Rows, root: Ref, r: Ref, q: Ref)
    requires Typed(rows) && r in rows && Names(rows[r], q) && Falls(rows, root, q)
    ensures Falls(rows, root, r)
  {
  }

  // What goes down with root, without following references.
  lemma {:induction false} DoomedIffFalls(rows: Rows, root: Ref, r: Ref)
    requires Typed(rows)
    ensures Doomed(rows, root, r) <==> Falls(rows, root, r)
    decreases 4 - Rank(r.kind)
  {
    if r != root {
      if Doomed(rows, root, r) {
        var q := DoomedStep(rows, root, r);
        RefsAreNames(rows[r], q);
        DoomedIffFalls(rows, root, q);
        NamedFalls(rows, root, r, q);
      }
      if Falls(rows, root, r) {
        FallsThrough(rows, root, r);
        var q :| Names(rows[r], q) && Rank(q.kind) > Rank(r.kind) && Falls(rows, root, q);
        DoomedIffFalls(rows, root, q);
        DoomedByName(rows, root, r, q);
      }
    }
  }

  // Going down with root is going down with something that refers to root.
  ghost predicate DoomedVia(rows: Rows, root: Ref, r: Ref) {
    exists o :: o in rows && root in Refs(rows[o]) && Doomed(rows, o, r)
  }

  lemma {:induction false} DoomedThrough(rows: Rows, root: Ref, r: Ref)
    requires Typed(rows) && r != root
    ensures Doomed(rows, root, r) <==> DoomedVia(rows, root, r)
    decreases 4 - Rank(r.kind)
  {
    if Doomed(rows, root, r) {
      var q := DoomedStep(rows, root, r);
      if q == root {
        assert Doomed(rows, r, r);
      } else {
        DoomedThrough(rows, root, q);
        var o :| o in rows && root in Refs(rows[o]) && Doomed(rows, o, q);
        assert Doomed(rows, o, r);
      }
    }
    if DoomedVia(rows, root, r) {
      var o :| o in rows && root in Refs(rows[o]) && Doomed(rows, o, r);
      if o == r {
        WiringComplete(rows[r], root);
        assert Doomed(rows, root, root);
      } else {
        var q := DoomedStep(rows, o, r);
        if q == root {
          assert Doomed(rows, root, root);
        } else {
          DoomedThrough(rows, root, q);
        }
      }
    }
  }

  // Taking out root and what goes down with some other entities changes
  // nothing for those that remain.
  lemma {:induction false} DoomedAmongRest(rows: Rows, rest: Rows, o: Ref, r: Ref)
    requires Typed(rows) && r in rest
    requires forall x :: x in rest ==> x in rows && rest[x] == rows[x]
    // a remaining entity of a rank below o refers to remaining entities only
    requires forall x :: x in rest && Rank(x.kind) < Rank(o.kind) ==> forall q :: q in Refs(rest[x]) ==> q in rest || q == o
    ensures Doomed(rest, o, r) <==> Doomed(rows, o, r)
    decreases 4 - Rank(r.kind)
  {
    if r != o {
      if Rank(r.kind) >= Rank(o.kind) {
        if Doomed(rows, o, r) { DoomedRank(rows, o, r); }
        if Doomed(rest, o, r) { DoomedRank(rest, o, r); }
      } else {
        forall q | q in Refs(rest[r]) ensures Doomed(rest, o, q) <==> Doomed(rows, o, q) {
          WiringComplete(rest[r], q);
          if q != o {
            DoomedAmongRest(rows, rest, o, q);
          }
        }
      }
    }
  }
}
