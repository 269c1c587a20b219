// The build engine of the task preparation tool: the tree of targets and the
// depth-first execution of one of them, on values
// (src/cmstaskenv/cmsMake.py:597-690).
module BuildTree {
  import opened Basics

  // A target's dependencies, and the action that makes it; a source file has
  // none.
  datatype Node = Node(deps: seq<string>, rule: Option<nat>)

  type Tree = map<string, Node>

  // The modification time of every file.
  type Files = map<string, nat>

  // What an action does to the files; none if it fails.
  type Actions = (nat, Files) -> Option<Files>

  datatype Event = Visit(target: string) | Ran(target: string) | Finished(target: string)

  datatype Outcome = Done | Circular | Unknown | MissingFile | ActionFailed

  datatype State = State(done: set<string>, files: Files, log: seq<Event>)

  datatype Result = Result(outcome: Outcome, state: State)

  // ----- time stamps -----

  predicate Present(files: Files, deps: seq<string>) {
    forall i :: 0 <= i < |deps| ==> deps[i] in files
  }

  function DepTime(files: Files, deps: seq<string>): nat
    requires Present(files, deps)
  {
    if deps == [] then 0
    else
      var n := |deps| - 1;
      var t := DepTime(files, deps[..n]);
      if files[deps[n]] > t then files[deps[n]] else t
  }

  function GenTime(files: Files, target: string): nat {
    if target in files then files[target] else 0
  }

  // ----- depth-first execution -----

  // The part after the dependencies have been made.
  function Make(node: Node, act: Actions, target: string, s: State): Result {
    if !Present(s.files, node.deps) then Result(MissingFile, s)
    else if GenTime(s.files, target) >= DepTime(s.files, node.deps) then Result(Done, s.(log := s.log + [Finished(target)]))
    else
      var ran := s.(log := s.log + [Ran(target)]);
      if node.rule.None? then Result(ActionFailed, ran)
      else
        match act(node.rule.value, s.files)
        case None => Result(ActionFailed, ran)
        case Some(files) => Result(Done, State(ran.done, files, ran.log + [Finished(target)]))
  }

  function Visited(s: State, target: string): State {
    s.(done := s.done + {target}, log := s.log + [Visit(target)])
  }

  function Execute(tree: Tree, act: Actions, target: string, stack: set<string>, s: State): (r: Result)
    ensures s.done <= r.state.done
    decreases |tree.Keys - s.done|, 0, 1
  {
    if target !in tree then Result(Unknown, s)
    else if target in stack then Result(Circular, s)
    else if target in s.done then Result(Done, s)
    else
      assert tree.Keys - Visited(s, target).done < tree.Keys - s.done by {
        assert target in tree.Keys - s.done;
      }
      Smaller(tree.Keys - Visited(s, target).done, tree.Keys - s.done);
      var r := ExecuteAll(tree, act, tree[target].deps, stack + {target}, Visited(s, target));
      if r.outcome.Done? then Make(tree[target], act, target, r.state) else r
  }

  // The targets one after the other, until one does not succeed.
  function ExecuteAll(tree: Tree, act: Actions, targets: seq<string>, stack: set<string>, s: State): (r: Result)
    ensures s.done <= r.state.done
    decreases |tree.Keys - s.done|, 1, |targets|
  {
    if targets == [] then Result(Done, s)
    else
      var r := Execute(tree, act, targets[0], stack, s);
      if r.outcome.Done? then
        NotLarger(tree.Keys - r.state.done, tree.Keys - s.done);
        ExecuteAll(tree, act, targets[1..], stack, r.state)
      else r
  }

  lemma Smaller<T>(a: set<T>, b: set<T>)
    requires a < b
    ensures |a| < |b|
  {
    var rest := b - a;
    assert b == a + rest && |b| == |a| + |rest|;
    assert rest != {};
  }

  lemma NotLarger<T>(a: set<T>, b: set<T>)
    requires a <= b
    ensures |a| <= |b|
  {
    if a != b {
      Smaller(a, b);
    }
  }

  // ----- reachability -----

  predicate Edge(tree: Tree, a: string, b: string) {
    a in tree && b in tree[a].deps
  }

  // A path along dependencies.
  predicate Path(tree: Tree, p: seq<string>) {
    p != [] && forall i :: 0 <= i < |p| - 1 ==> Edge(tree, p[i], p[i + 1])
  }

  ghost predicate Reaches(tree: Tree, a: string, b: string) {
    exists p :: Path(tree, p) && p[0] == a && p[|p| - 1] == b
  }

  // There is a path of at least one step.
  ghost predicate LeadsTo(tree: Tree, a: string, b: string) {
    exists p :: Path(tree, p) && |p| > 1 && p[0] == a && p[|p| - 1] == b
  }

  // A cycle can be reached from a.
  ghost predicate Cyclic(tree: Tree, a: string) {
    exists c :: Reaches(tree, a, c) && LeadsTo(tree, c, c)
  }

  lemma PathTail(tree: Tree, p: seq<string>)
    requires Path(tree, p) && |p| > 1
    ensures Path(tree, p[1..])
  {
    var rest := p[1..];
    forall i | 0 <= i < |rest| - 1 ensures Edge(tree, rest[i], rest[i + 1]) {
      assert Edge(tree, p[i + 1], p[i + 2]);
    }
  }

  lemma LeadsFurther(tree: Tree, a: string, b: string, c: string)
    requires (a == b || LeadsTo(tree, a, b)) && Edge(tree, b, c)
    ensures LeadsTo(tree, a, c)
  {
    if a == b {
      assert Path(tree, [a, c]);
    } else {
      var p :| Path(tree, p) && |p| > 1 && p[0] == a && p[|p| - 1] == b;
      var q := p + [c];
      assert forall i :: 0 <= i < |q| - 1 ==> Edge(tree, q[i], q[i + 1]);
      assert Path(tree, q);
    }
  }

  lemma StepBefore(tree: Tree, a: string, b: string, c: string)
    requires Edge(tree, a, b) && Reaches(tree, b, c)
    ensures Reaches(tree, a, c)
  {
    var p :| Path(tree, p) && p[0] == b && p[|p| - 1] == c;
    var q := [a] + p;
    assert forall i :: 0 <= i < |q| - 1 ==> Edge(tree, q[i], q[i + 1]);
    assert Path(tree, q) && q[0] == a && q[|q| - 1] == c;
  }

  lemma CyclicBefore(tree: Tree, a: string, b: string)
    requires Edge(tree, a, b) && Cyclic(tree, b)
    ensures Cyclic(tree, a)
  {
    var c :| Reaches(tree, b, c) && LeadsTo(tree, c, c);
    StepBefore(tree, a, b, c);
  }

  lemma CyclicAtItself(tree: Tree, a: string)
    requires LeadsTo(tree, a, a)
    ensures Cyclic(tree, a)
  {
    assert Path(tree, [a]);
    assert Reaches(tree, a, a);
  }

  // ----- orders -----

  predicate Covers(order: seq<string>, deps: seq<string>) {
    forall d :: d in deps ==> d in order
  }

  // Every target comes after its dependencies, and comes once.
  predicate Topological(tree: Tree, order: seq<string>) {
    && (forall i :: 0 <= i < |order| ==> order[i] in tree && Covers(order[..i], tree[order[i]].deps))
    && (forall i, j :: 0 <= i < j < |order| ==> order[i] != order[j])
  }

  lemma TopologicalMore(tree: Tree, order: seq<string>, t: string)
    requires Topological(tree, order) && t in tree && t !in order && Covers(order, tree[t].deps)
    ensures Topological(tree, order + [t])
  {
    var more := order + [t];
    forall i | 0 <= i < |more| ensures more[i] in tree && Covers(more[..i], tree[more[i]].deps) {
      if i < |order| {
        assert more[..i] == order[..i];
      } else {
        assert more[..i] == order;
      }
    }
  }

  // A path that starts in an order stays in it and goes strictly back.
  lemma {:induction false} PathGoesBack(tree: Tree, order: seq<string>, p: seq<string>, i: nat) returns (j: nat)
    requires Topological(tree, order) && Path(tree, p) && i < |order| && p[0] == order[i]
    ensures j <= i && order[j] == p[|p| - 1] && (|p| > 1 ==> j < i)
    decreases |p|
  {
    if |p| == 1 {
      j := i;
    } else {
      assert Edge(tree, p[0], p[1]);
      assert p[1] in order[..i];
      var k :| 0 <= k < i && order[..i][k] == p[1];
      PathTail(tree, p);
      j := PathGoesBack(tree, order, p[1..], k);
    }
  }

  // Nothing in an order can reach a cycle.
  lemma OrderIsAcyclic(tree: Tree, order: seq<string>, t: string)
    requires Topological(tree, order) && t in order
    ensures !Cyclic(tree, t)
    ensures forall u :: Reaches(tree, t, u) ==> u in order
  {
    var i :| 0 <= i < |order| && order[i] == t;
    forall u | Reaches(tree, t, u) ensures u in order && !LeadsTo(tree, u, u) {
      var p :| Path(tree, p) && p[0] == t && p[|p| - 1] == u;
      var j := PathGoesBack(tree, order, p, i);
      if LeadsTo(tree, u, u) {
        var q :| Path(tree, q) && |q| > 1 && q[0] == u && q[|q| - 1] == u;
        var k := PathGoesBack(tree, order, q, j);
        assert false;
      }
    }
  }

  // Neither can a target whose dependencies are all in it.
  lemma ConeIsFinished(tree: Tree, order: seq<string>, t: string)
    requires Topological(tree, order) && t in tree && Covers(order, tree[t].deps)
    ensures !Cyclic(tree, t)
    ensures forall u :: LeadsTo(tree, t, u) ==> u in order
  {
    forall u | LeadsTo(tree, t, u) ensures u in order && !LeadsTo(tree, u, u) {
      var p :| Path(tree, p) && |p| > 1 && p[0] == t && p[|p| - 1] == u;
      assert Edge(tree, p[0], p[1]);
      PathTail(tree, p);
      assert Reaches(tree, p[1], u);
      OrderIsAcyclic(tree, order, p[1]);
    }
    forall c | Reaches(tree, t, c) ensures c == t || LeadsTo(tree, t, c) {
      var p :| Path(tree, p) && p[0] == t && p[|p| - 1] == c;
    }
  }
}
