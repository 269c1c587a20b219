// What a build does: it finds exactly the cycles, makes every target after its
// dependencies and at most once, and leaves nothing for a second build.
module BuildRuns {
  import opened BuildTree

  // ----- what the log says -----

  function Visits(log: seq<Event>): seq<string> {
    if log == [] then []
    else
      var e := log[|log| - 1];
      Visits(log[..|log| - 1]) + if e.Visit? then [e.target] else []
  }

  function Finishes(log: seq<Event>): seq<string> {
    if log == [] then []
    else
      var e := log[|log| - 1];
      Finishes(log[..|log| - 1]) + if e.Finished? then [e.target] else []
  }

  lemma LogMore(log: seq<Event>, e: Event)
    ensures Visits(log + [e]) == if e.Visit? then Visits(log) + [e.target] else Visits(log)
    ensures Finishes(log + [e]) == if e.Finished? then Finishes(log) + [e.target] else Finishes(log)
  {
    assert (log + [e])[..|log|] == log;
  }

  predicate Distinct(xs: seq<string>) {
    forall i, j :: 0 <= i < j < |xs| ==> xs[i] != xs[j]
  }

  // Whenever an action ran, its target had dependencies and they were finished.
  predicate RanReady(tree: Tree, log: seq<Event>) {
    forall i :: 0 <= i < |log| && log[i].Ran? ==>
      MayRun(tree, Finishes(log[..i]), log[i].target)
  }

  predicate MayRun(tree: Tree, order: seq<string>, t: string) {
    t in tree && tree[t].deps != [] && Covers(order, tree[t].deps)
  }

  lemma RanReadyMore(tree: Tree, log: seq<Event>, e: Event)
    requires RanReady(tree, log)
    requires e.Ran? ==> MayRun(tree, Finishes(log), e.target)
    ensures RanReady(tree, log + [e])
  {
    var more := log + [e];
    forall i | 0 <= i < |more| && more[i].Ran?
      ensures MayRun(tree, Finishes(more[..i]), more[i].target)
    {
      assert more[..i] == log[..i];
      assert i == |log| ==> log[..i] == log;
    }
  }

  // True of the log at every moment, whatever the outcome.
  ghost predicate Orderly(tree: Tree, s: State) {
    && Topological(tree, Finishes(s.log))
    && RanReady(tree, s.log)
    && Distinct(Visits(s.log))
    && (forall t :: t in s.done <==> t in Visits(s.log))
  }

  // Every visited target is finished or still on the stack.
  ghost predicate Settled(s: State, stack: set<string>) {
    && (forall t :: t in s.done <==> t in Finishes(s.log) || t in stack)
    && (forall t :: t in stack ==> t !in Finishes(s.log))
  }

  // Every target on the stack is waiting for this one.
  ghost predicate Waiting(tree: Tree, stack: set<string>, target: string) {
    forall t :: t in stack ==> LeadsTo(tree, t, target)
  }

  // ----- one target -----

  lemma VisitKeeps(tree: Tree, s: State, target: string, stack: set<string>)
    requires Orderly(tree, s) && Settled(s, stack) && target in tree && target !in s.done && target !in stack
    ensures Orderly(tree, Visited(s, target)) && Settled(Visited(s, target), stack + {target})
    ensures Finishes(Visited(s, target).log) == Finishes(s.log)
  {
    LogMore(s.log, Visit(target));
    RanReadyMore(tree, s.log, Visit(target));
  }

  lemma FinishKeeps(tree: Tree, s: State, target: string, stack: set<string>)
    requires Orderly(tree, s) && Settled(s, stack + {target}) && target in tree && target !in stack
    requires Covers(Finishes(s.log), tree[target].deps)
    ensures var t := s.(log := s.log + [Finished(target)]);
            Orderly(tree, t) && Settled(t, stack) && Finishes(t.log) == Finishes(s.log) + [target]
  {
    LogMore(s.log, Finished(target));
    TopologicalMore(tree, Finishes(s.log), target);
    RanReadyMore(tree, s.log, Finished(target));
  }

  lemma RanKeeps(tree: Tree, s: State, target: string, stack: set<string>)
    requires Orderly(tree, s) && Settled(s, stack) && MayRun(tree, Finishes(s.log), target)
    ensures var t := s.(log := s.log + [Ran(target)]);
            Orderly(tree, t) && Settled(t, stack) && Finishes(t.log) == Finishes(s.log)
  {
    LogMore(s.log, Ran(target));
    RanReadyMore(tree, s.log, Ran(target));
  }

  lemma MakeKeeps(tree: Tree, act: Actions, target: string, stack: set<string>, s: State)
    requires Orderly(tree, s) && Settled(s, stack + {target}) && target in tree && target !in stack
    requires Covers(Finishes(s.log), tree[target].deps)
    ensures var r := Make(tree[target], act, target, s);
            && Orderly(tree, r.state) && !r.outcome.Circular? && !r.outcome.Unknown?
            && (r.outcome.Done? ==> Settled(r.state, stack) && Finishes(r.state.log) == Finishes(s.log) + [target])
  {
    var node := tree[target];
    FinishKeeps(tree, s, target, stack);
    if Present(s.files, node.deps) && GenTime(s.files, target) < DepTime(s.files, node.deps) {
      RanKeeps(tree, s, target, stack + {target});
      if node.rule.Some? && act(node.rule.value, s.files).Some? {
        RanAndFinished(tree, s, target, stack, act(node.rule.value, s.files).value);
      }
    }
  }

  lemma RanAndFinished(tree: Tree, s: State, target: string, stack: set<string>, files: Files)
    requires Orderly(tree, s) && Settled(s, stack + {target}) && target !in stack && MayRun(tree, Finishes(s.log), target)
    ensures var t := State(s.done, files, s.log + [Ran(target)] + [Finished(target)]);
            Orderly(tree, t) && Settled(t, stack) && Finishes(t.log) == Finishes(s.log) + [target]
  {
    RanKeeps(tree, s, target, stack + {target});
    FinishKeeps(tree, State(s.done, files, s.log + [Ran(target)]), target, stack);
  }

  // What holds after a target has been requested: the order only grows; if it
  // succeeded the target is in it; and a cycle was reported only if there is one.
  ghost predicate After(tree: Tree, s: State, stack: set<string>, r: Result) {
    && Orderly(tree, r.state)
    && (r.outcome.Done? ==> Settled(r.state, stack) && Finishes(s.log) <= Finishes(r.state.log))
  }

  lemma {:induction false} ExecuteKeeps(tree: Tree, act: Actions, target: string, stack: set<string>, s: State)
    requires Orderly(tree, s) && Settled(s, stack) && Waiting(tree, stack, target)
    ensures var r := Execute(tree, act, target, stack, s);
            && After(tree, s, stack, r)
            && (r.outcome.Done? ==> target in Finishes(r.state.log))
            && (r.outcome.Circular? ==> Cyclic(tree, target))
            && (ClosedTree(tree) && target in tree ==> !r.outcome.Unknown?)
    decreases |tree.Keys - s.done|, 0, 1
  {
    if target in tree && target in stack {
      CyclicAtItself(tree, target);
    } else if target in tree && target !in s.done {
      var v, deps, more := Visited(s, target), tree[target].deps, stack + {target};
      VisitKeeps(tree, s, target, stack);
      assert target in tree.Keys - s.done;
      Smaller(tree.Keys - v.done, tree.Keys - s.done);
      WaitingForAll(tree, stack, target);
      if ClosedTree(tree) {
        DepsInTree(tree, target);
      }
      ExecuteAllKeeps(tree, act, deps, more, v);
      ExecuteEnds(tree, act, target, stack, s, ExecuteAll(tree, act, deps, more, v));
    }
  }

  // The dependencies have been requested, with result r.
  lemma ExecuteEnds(tree: Tree, act: Actions, target: string, stack: set<string>, s: State, r: Result)
    requires target in tree && target !in stack && Orderly(tree, s) && Settled(s, stack) && target !in s.done
    requires After(tree, Visited(s, target), stack + {target}, r)
    requires r.outcome.Done? ==> Covers(Finishes(r.state.log), tree[target].deps)
    requires r.outcome.Circular? ==> exists d :: d in tree[target].deps && Cyclic(tree, d)
    ensures var e := if r.outcome.Done? then Make(tree[target], act, target, r.state) else r;
            && After(tree, s, stack, e)
            && (e.outcome.Done? ==> target in Finishes(e.state.log))
            && (e.outcome.Circular? ==> Cyclic(tree, target))
            && (e.outcome.Unknown? ==> r.outcome.Unknown?)
  {
    VisitKeeps(tree, s, target, stack);
    if r.outcome.Done? {
      MakeKeeps(tree, act, target, stack, r.state);
    } else if r.outcome.Circular? {
      var d :| d in tree[target].deps && Cyclic(tree, d);
      CyclicBefore(tree, target, d);
    }
  }

  lemma DepsInTree(tree: Tree, target: string)
    requires ClosedTree(tree) && target in tree
    ensures forall d :: d in tree[target].deps ==> d in tree
  {
    forall d | d in tree[target].deps ensures d in tree {
      assert Edge(tree, target, d);
    }
  }

  lemma WaitingForAll(tree: Tree, stack: set<string>, target: string)
    requires Waiting(tree, stack, target) && target in tree
    ensures forall d :: d in tree[target].deps ==> Waiting(tree, stack + {target}, d)
  {
    forall d | d in tree[target].deps ensures Waiting(tree, stack + {target}, d) {
      forall t | t in stack + {target} ensures LeadsTo(tree, t, d) {
        LeadsFurther(tree, t, target, d);
      }
    }
  }

  lemma {:induction false} ExecuteAllKeeps(tree: Tree, act: Actions, targets: seq<string>, stack: set<string>, s: State)
    requires Orderly(tree, s) && Settled(s, stack)
    requires forall d :: d in targets ==> Waiting(tree, stack, d)
    ensures var r := ExecuteAll(tree, act, targets, stack, s);
            && After(tree, s, stack, r)
            && (r.outcome.Done? ==> Covers(Finishes(r.state.log), targets))
            && (r.outcome.Circular? ==> exists d :: d in targets && Cyclic(tree, d))
            && (ClosedTree(tree) && (forall d :: d in targets ==> d in tree) ==> !r.outcome.Unknown?)
    decreases |tree.Keys - s.done|, 1, |targets|
  {
    if targets != [] {
      assert targets[0] in targets && forall d :: d in targets[1..] ==> d in targets;
      ExecuteKeeps(tree, act, targets[0], stack, s);
      var r := Execute(tree, act, targets[0], stack, s);
      if r.outcome.Done? {
        NotLarger(tree.Keys - r.state.done, tree.Keys - s.done);
        ExecuteAllKeeps(tree, act, targets[1..], stack, r.state);
      }
    }
  }

  // ----- a whole build -----

  // Several targets in turn, each with a stack of its own.
  function Build(tree: Tree, act: Actions, targets: seq<string>, files: Files): Result {
    ExecuteAll(tree, act, targets, {}, State({}, files, []))
  }

  // The targets are requested in turn, and none after one that does not succeed.
  lemma {:induction false} InTurn(tree: Tree, act: Actions, targets: seq<string>, last: string, stack: set<string>, s: State)
    ensures ExecuteAll(tree, act, targets + [last], stack, s) ==
            var r := ExecuteAll(tree, act, targets, stack, s);
            if r.outcome.Done? then Execute(tree, act, last, stack, r.state) else r
    decreases |targets|
  {
    var all := targets + [last];
    if targets == [] {
      assert all[1..] == [];
    } else {
      var r := Execute(tree, act, targets[0], stack, s);
      assert all[0] == targets[0] && all[1..] == targets[1..] + [last];
      if r.outcome.Done? {
        InTurn(tree, act, targets[1..], last, stack, r.state);
      }
    }
  }

  ghost predicate ClosedTree(tree: Tree) {
    forall t, d :: Edge(tree, t, d) ==> d in tree
  }

  // Stopped by an unknown target, a missing file or a failing action.
  predicate Stopped(o: Outcome) {
    o.Unknown? || o.MissingFile? || o.ActionFailed?
  }

  // A request reports a circular dependency exactly when a cycle can be reached
  // from its target, unless something else stops it first.
  lemma CircularIff(tree: Tree, act: Actions, target: string, s: State)
    requires Orderly(tree, s) && Settled(s, {})
    ensures var r := Execute(tree, act, target, {}, s);
            && (r.outcome.Circular? ==> Cyclic(tree, target))
            && (r.outcome.Done? ==> !Cyclic(tree, target))
            && (!Stopped(r.outcome) ==> (r.outcome.Circular? <==> Cyclic(tree, target)))
            && (ClosedTree(tree) && target in tree ==> !r.outcome.Unknown?)
            && (r.outcome.Done? ==> Orderly(tree, r.state) && Settled(r.state, {}))
  {
    ExecuteKeeps(tree, act, target, {}, s);
    var r := Execute(tree, act, target, {}, s);
    if r.outcome.Done? {
      OrderIsAcyclic(tree, Finishes(r.state.log), target);
    }
  }

  lemma NothingYet(tree: Tree, files: Files)
    ensures Orderly(tree, State({}, files, [])) && Settled(State({}, files, []), {})
  {
  }

  // Why a request did not succeed: a target that can be reached is not in the tree, or
  // has a dependency for which there is no file, or ran last and has no action or one
  // that fails.
  ghost predicate Explained(tree: Tree, act: Actions, target: string, r: Result) {
    match r.outcome
    case Unknown => exists u :: Reaches(tree, target, u) && u !in tree
    case MissingFile => exists u, d :: Reaches(tree, target, u) && Edge(tree, u, d) && d !in r.state.files
    case ActionFailed => exists u :: Reaches(tree, target, u) && RanInVain(tree, act, u, r.state)
    case _ => true
  }

  predicate RanInVain(tree: Tree, act: Actions, u: string, s: State) {
    && u in tree && s.log != [] && s.log[|s.log| - 1] == Ran(u)
    && (tree[u].rule.None? || act(tree[u].rule.value, s.files).None?)
  }

  lemma ExplainedBefore(tree: Tree, act: Actions, target: string, d: string, r: Result)
    requires Edge(tree, target, d) && Explained(tree, act, d, r)
    ensures Explained(tree, act, target, r)
  {
    forall u | Reaches(tree, d, u) ensures Reaches(tree, target, u) {
      StepBefore(tree, target, d, u);
    }
  }

  lemma ReachesItself(tree: Tree, a: string)
    ensures Reaches(tree, a, a)
  {
    assert Path(tree, [a]);
  }

  lemma MakeExplained(tree: Tree, act: Actions, target: string, s: State)
    requires target in tree
    ensures Explained(tree, act, target, Make(tree[target], act, target, s))
  {
    ReachesItself(tree, target);
    var node := tree[target];
    if !Present(s.files, node.deps) {
      var i :| 0 <= i < |node.deps| && node.deps[i] !in s.files;
      assert Edge(tree, target, node.deps[i]);
    } else if GenTime(s.files, target) < DepTime(s.files, node.deps) {
      assert Make(node, act, target, s).outcome.ActionFailed? ==> RanInVain(tree, act, target, Make(node, act, target, s).state);
    }
  }

  lemma {:induction false} ExecuteExplained(tree: Tree, act: Actions, target: string, stack: set<string>, s: State)
    ensures Explained(tree, act, target, Execute(tree, act, target, stack, s))
    decreases |tree.Keys - s.done|, 0, 1
  {
    ReachesItself(tree, target);
    if target in tree && target !in stack && target !in s.done {
      var v, deps, more := Visited(s, target), tree[target].deps, stack + {target};
      assert target in tree.Keys - s.done;
      Smaller(tree.Keys - v.done, tree.Keys - s.done);
      ExecuteAllExplained(tree, act, deps, more, v);
      var r := ExecuteAll(tree, act, deps, more, v);
      if r.outcome.Done? {
        MakeExplained(tree, act, target, r.state);
      } else {
        var d :| d in deps && Explained(tree, act, d, r);
        ExplainedBefore(tree, act, target, d, r);
      }
    }
  }

  lemma {:induction false} ExecuteAllExplained(tree: Tree, act: Actions, targets: seq<string>, stack: set<string>, s: State)
    ensures var r := ExecuteAll(tree, act, targets, stack, s);
            r.outcome.Done? || exists d :: d in targets && Explained(tree, act, d, r)
    decreases |tree.Keys - s.done|, 1, |targets|
  {
    if targets != [] {
      assert targets[0] in targets && forall d :: d in targets[1..] ==> d in targets;
      ExecuteExplained(tree, act, targets[0], stack, s);
      var r := Execute(tree, act, targets[0], stack, s);
      if r.outcome.Done? {
        NotLarger(tree.Keys - r.state.done, tree.Keys - s.done);
        ExecuteAllExplained(tree, act, targets[1..], stack, r.state);
      }
    }
  }

  // Across all requested targets: every target is visited at most once; when an
  // action runs, everything its target depends on is finished and no cycle can be
  // reached from it; a successful build has finished everything it depends on.
  lemma BuildOrder(tree: Tree, act: Actions, targets: seq<string>, files: Files)
    ensures var r := Build(tree, act, targets, files);
            && Distinct(Visits(r.state.log))
            && (forall i :: 0 <= i < |r.state.log| && r.state.log[i].Ran? ==>
                  var t := r.state.log[i].target;
                  !Cyclic(tree, t) && forall u :: LeadsTo(tree, t, u) ==> u in Finishes(r.state.log[..i]))
            && (r.outcome.Done? ==>
                  forall t, u :: t in targets && Reaches(tree, t, u) ==> u in Finishes(r.state.log) && !Cyclic(tree, t))
            && (r.outcome.Circular? ==> exists t :: t in targets && Cyclic(tree, t))
  {
    NothingYet(tree, files);
    ExecuteAllKeeps(tree, act, targets, {}, State({}, files, []));
    var r := Build(tree, act, targets, files);
    var log := r.state.log;
    forall i | 0 <= i < |log| && log[i].Ran?
      ensures !Cyclic(tree, log[i].target) && forall u :: LeadsTo(tree, log[i].target, u) ==> u in Finishes(log[..i])
    {
      FinishesPrefix(log, i);
      TopologicalPrefix(tree, Finishes(log), Finishes(log[..i]));
      ConeIsFinished(tree, Finishes(log[..i]), log[i].target);
    }
    if r.outcome.Done? {
      forall t, u | t in targets && Reaches(tree, t, u) ensures u in Finishes(log) && !Cyclic(tree, t) {
        OrderIsAcyclic(tree, Finishes(log), t);
      }
    }
  }

  lemma {:induction false} FinishesPrefix(log: seq<Event>, i: nat)
    requires i <= |log|
    ensures Finishes(log[..i]) <= Finishes(log)
  {
    if i < |log| {
      FinishesPrefix(log[..|log| - 1], i);
      assert log[..|log| - 1][..i] == log[..i];
    } else {
      assert log[..i] == log;
    }
  }

  lemma TopologicalPrefix(tree: Tree, order: seq<string>, front: seq<string>)
    requires Topological(tree, order) && front <= order
    ensures Topological(tree, front)
  {
    forall i | 0 <= i < |front| ensures front[i] in tree && Covers(front[..i], tree[front[i]].deps) {
      assert front[..i] == order[..i] && front[i] == order[i];
    }
  }
}
