// Incremental builds: what a successful build leaves is up to date, and a second
// build finds nothing to do.
module BuildAgain {
  import opened Basics
  import opened BuildTree
  import opened BuildRuns

  // The file of t, and no other, was made anew at a time no file is later than.
  ghost predicate Refreshed(before: Files, after: Files, t: string) {
    && after.Keys == before.Keys + {t}
    && (forall u :: u in before && u != t ==> after[u] == before[u])
    && (forall u :: u in before ==> before[u] <= after[t])
  }

  // Every action refreshes the file of its own target only; the action of a phony
  // target touches no file.
  ghost predicate Honest(tree: Tree, act: Actions, phony: set<string>) {
    forall t, files :: t in tree && tree[t].rule.Some? ==> Behaves(act(tree[t].rule.value, files), files, t, phony)
  }

  ghost predicate Behaves(result: Option<Files>, files: Files, t: string, phony: set<string>) {
    result.Some? ==> if t in phony then result.value == files else Refreshed(files, result.value, t)
  }

  // A request for u would not run its action.
  predicate UpToDate(tree: Tree, files: Files, u: string) {
    u in tree && Present(files, tree[u].deps) && GenTime(files, u) >= DepTime(files, tree[u].deps)
  }

  ghost predicate FreshAll(tree: Tree, files: Files, phony: set<string>, order: seq<string>) {
    forall u :: u in order ==> u in tree && Present(files, tree[u].deps) && (u !in phony ==> UpToDate(tree, files, u))
  }

  lemma {:induction false} DepTimeBounds(files: Files, deps: seq<string>)
    requires Present(files, deps)
    ensures forall d :: d in deps ==> files[d] <= DepTime(files, deps)
    ensures DepTime(files, deps) == 0 || exists d :: d in deps && files[d] == DepTime(files, deps)
  {
    if deps != [] {
      var n := |deps| - 1;
      DepTimeBounds(files, deps[..n]);
      assert deps == deps[..n] + [deps[n]];
    }
  }

  // The times of files that an action did not touch.
  lemma {:induction false} DepTimeKept(a: Files, b: Files, deps: seq<string>)
    requires Present(a, deps) && forall d :: d in deps ==> d in b && b[d] == a[d]
    ensures Present(b, deps) && DepTime(b, deps) == DepTime(a, deps)
  {
    if deps != [] {
      var n := |deps| - 1;
      assert forall d :: d in deps[..n] ==> d in deps;
      DepTimeKept(a, b, deps[..n]);
    }
  }

  lemma RefreshKeeps(tree: Tree, before: Files, after: Files, phony: set<string>, order: seq<string>, t: string)
    requires Topological(tree, order) && FreshAll(tree, before, phony, order) && t !in order && Refreshed(before, after, t)
    ensures FreshAll(tree, after, phony, order)
  {
    forall u | u in order ensures Present(after, tree[u].deps) && (u !in phony ==> UpToDate(tree, after, u)) {
      var deps := tree[u].deps;
      var i :| 0 <= i < |order| && order[i] == u;
      forall d | d in deps ensures d in after && after[d] == before[d] {
        assert d in order[..i];
        var j :| 0 <= j < |deps| && deps[j] == d;
      }
      DepTimeKept(before, after, deps);
    }
  }

  lemma FreshMore(tree: Tree, files: Files, phony: set<string>, order: seq<string>, t: string)
    requires FreshAll(tree, files, phony, order) && t in tree && Present(files, tree[t].deps)
    requires t !in phony ==> UpToDate(tree, files, t)
    ensures FreshAll(tree, files, phony, order + [t])
  {
  }

  lemma MakeFresh(tree: Tree, act: Actions, phony: set<string>, t: string, s: State)
    requires Honest(tree, act, phony) && Topological(tree, Finishes(s.log)) && FreshAll(tree, s.files, phony, Finishes(s.log))
    requires t in tree && t !in Finishes(s.log) && Covers(Finishes(s.log), tree[t].deps)
    ensures var r := Make(tree[t], act, t, s);
            r.outcome.Done? ==> FreshAll(tree, r.state.files, phony, Finishes(s.log) + [t])
  {
    var node, order := tree[t], Finishes(s.log);
    if Present(s.files, node.deps) {
      if GenTime(s.files, t) >= DepTime(s.files, node.deps) || t in phony {
        FreshMore(tree, s.files, phony, order, t);
      } else if node.rule.Some? {
        assert Behaves(act(node.rule.value, s.files), s.files, t, phony);
        if act(node.rule.value, s.files).Some? {
          var after := act(node.rule.value, s.files).value;
          RefreshKeeps(tree, s.files, after, phony, order, t);
          RefreshedIsUpToDate(tree, s.files, after, order, t);
          FreshMore(tree, after, phony, order, t);
        }
      }
    }
    assert t in phony && node.rule.Some? ==> Behaves(act(node.rule.value, s.files), s.files, t, phony);
  }

  lemma RefreshedIsUpToDate(tree: Tree, before: Files, after: Files, order: seq<string>, t: string)
    requires t in tree && Present(before, tree[t].deps) && Covers(order, tree[t].deps) && t !in order && Refreshed(before, after, t)
    ensures UpToDate(tree, after, t)
  {
    var deps := tree[t].deps;
    forall d | d in deps ensures d in after && after[d] == before[d] {
      var j :| 0 <= j < |deps| && deps[j] == d;
    }
    DepTimeKept(before, after, deps);
    DepTimeBounds(before, deps);
  }

  ghost predicate Sound(tree: Tree, phony: set<string>, s: State) {
    FreshAll(tree, s.files, phony, Finishes(s.log))
  }

  lemma {:induction false} ExecuteSound(tree: Tree, act: Actions, phony: set<string>, target: string, stack: set<string>, s: State)
    requires Honest(tree, act, phony) && Orderly(tree, s) && Settled(s, stack) && Waiting(tree, stack, target) && Sound(tree, phony, s)
    ensures var r := Execute(tree, act, target, stack, s);
            r.outcome.Done? ==> Sound(tree, phony, r.state)
    decreases |tree.Keys - s.done|, 0, 1
  {
    if target in tree && target !in stack && target !in s.done {
      var v, deps, more := Visited(s, target), tree[target].deps, stack + {target};
      VisitKeeps(tree, s, target, stack);
      assert target in tree.Keys - s.done;
      Smaller(tree.Keys - v.done, tree.Keys - s.done);
      WaitingForAll(tree, stack, target);
      ExecuteAllSound(tree, act, phony, deps, more, v);
      ExecuteAllKeeps(tree, act, deps, more, v);
      var r := ExecuteAll(tree, act, deps, more, v);
      if r.outcome.Done? {
        MakeKeeps(tree, act, target, stack, r.state);
        MakeFresh(tree, act, phony, target, r.state);
      }
    }
  }

  lemma {:induction false} ExecuteAllSound(tree: Tree, act: Actions, phony: set<string>, targets: seq<string>, stack: set<string>, s: State)
    requires Honest(tree, act, phony) && Orderly(tree, s) && Settled(s, stack) && Sound(tree, phony, s)
    requires forall d :: d in targets ==> Waiting(tree, stack, d)
    ensures var r := ExecuteAll(tree, act, targets, stack, s);
            r.outcome.Done? ==> Sound(tree, phony, r.state)
    decreases |tree.Keys - s.done|, 1, |targets|
  {
    if targets != [] {
      assert targets[0] in targets && forall d :: d in targets[1..] ==> d in targets;
      ExecuteSound(tree, act, phony, targets[0], stack, s);
      ExecuteKeeps(tree, act, targets[0], stack, s);
      var r := Execute(tree, act, targets[0], stack, s);
      if r.outcome.Done? {
        NotLarger(tree.Keys - r.state.done, tree.Keys - s.done);
        ExecuteAllSound(tree, act, phony, targets[1..], stack, r.state);
      }
    }
  }

  // After a successful build every file that was requested or depended on is at
  // least as new as each of its dependencies.
  lemma BuildIsSound(tree: Tree, act: Actions, phony: set<string>, targets: seq<string>, files: Files)
    requires Honest(tree, act, phony)
    ensures var r := Build(tree, act, targets, files);
            r.outcome.Done? ==>
              && Sound(tree, phony, r.state)
              && forall u, d :: u in Finishes(r.state.log) && u !in phony && u in r.state.files && d in tree[u].deps ==>
                                  d in r.state.files && r.state.files[d] <= r.state.files[u]
  {
    NothingYet(tree, files);
    ExecuteAllSound(tree, act, phony, targets, {}, State({}, files, []));
    var r := Build(tree, act, targets, files);
    if r.outcome.Done? {
      forall u, d | u in Finishes(r.state.log) && u !in phony && u in r.state.files && d in tree[u].deps
        ensures d in r.state.files && r.state.files[d] <= r.state.files[u]
      {
        var deps := tree[u].deps;
        var j :| 0 <= j < |deps| && deps[j] == d;
        DepTimeBounds(r.state.files, deps);
      }
    }
  }

  // ----- the second build -----

  // Only actions of phony targets ran.
  predicate Quiet(log: seq<Event>, phony: set<string>) {
    forall i :: 0 <= i < |log| && log[i].Ran? ==> log[i].target in phony
  }

  predicate Apart(stack: set<string>, order: seq<string>, n: nat)
    requires n <= |order|
  {
    forall i :: 0 <= i < n ==> order[i] !in stack
  }

  // Nothing but phony actions ran, no file changed, and no cycle, unknown target
  // or missing file was met.
  predicate Idle(files: Files, phony: set<string>, r: Result) {
    && r.state.files == files && Quiet(r.state.log, phony)
    && (r.outcome.Done? || (r.outcome.ActionFailed? && phony != {}))
  }

  lemma MakeIdle(tree: Tree, act: Actions, phony: set<string>, order: seq<string>, target: string, s: State)
    requires Honest(tree, act, phony) && FreshAll(tree, s.files, phony, order) && target in order && Quiet(s.log, phony)
    ensures Idle(s.files, phony, Make(tree[target], act, target, s))
  {
    var node := tree[target];
    if node.rule.Some? {
      assert Behaves(act(node.rule.value, s.files), s.files, target, phony);
    }
  }

  lemma {:induction false} ExecuteIdle(tree: Tree, act: Actions, phony: set<string>, order: seq<string>, i: nat, stack: set<string>, s: State)
    requires Honest(tree, act, phony) && Topological(tree, order) && FreshAll(tree, s.files, phony, order)
    requires i < |order| && Apart(stack, order, i + 1) && Quiet(s.log, phony)
    ensures Idle(s.files, phony, Execute(tree, act, order[i], stack, s))
    decreases |tree.Keys - s.done|, 0, 1
  {
    var target := order[i];
    if target !in s.done {
      var v := Visited(s, target);
      assert target in tree.Keys - s.done;
      Smaller(tree.Keys - v.done, tree.Keys - s.done);
      forall d | d in tree[target].deps ensures exists j :: 0 <= j < i && order[j] == d {
        assert d in order[..i];
      }
      ExecuteAllIdle(tree, act, phony, order, i, tree[target].deps, stack + {target}, v);
      var r := ExecuteAll(tree, act, tree[target].deps, stack + {target}, v);
      if r.outcome.Done? {
        MakeIdle(tree, act, phony, order, target, r.state);
      }
    }
  }

  lemma {:induction false} ExecuteAllIdle(tree: Tree, act: Actions, phony: set<string>, order: seq<string>, n: nat, targets: seq<string>,
                                          stack: set<string>, s: State)
    requires Honest(tree, act, phony) && Topological(tree, order) && FreshAll(tree, s.files, phony, order)
    requires n <= |order| && Apart(stack, order, n) && Quiet(s.log, phony)
    requires forall d :: d in targets ==> exists j :: 0 <= j < n && order[j] == d
    ensures Idle(s.files, phony, ExecuteAll(tree, act, targets, stack, s))
    decreases |tree.Keys - s.done|, 1, |targets|
  {
    if targets != [] {
      assert targets[0] in targets && forall d :: d in targets[1..] ==> d in targets;
      var j :| 0 <= j < n && order[j] == targets[0];
      ExecuteIdle(tree, act, phony, order, j, stack, s);
      var r := Execute(tree, act, targets[0], stack, s);
      if r.outcome.Done? {
        NotLarger(tree.Keys - r.state.done, tree.Keys - s.done);
        ExecuteAllIdle(tree, act, phony, order, n, targets[1..], stack, r.state);
      }
    }
  }

  // A build right after a successful one runs no action that makes a file, and
  // leaves every file as it is.
  lemma SecondBuildIsIdle(tree: Tree, act: Actions, phony: set<string>, targets: seq<string>, files: Files)
    requires Honest(tree, act, phony) && Build(tree, act, targets, files).outcome.Done?
    ensures var after := Build(tree, act, targets, files).state.files;
            Idle(after, phony, Build(tree, act, targets, after))
  {
    var r := Build(tree, act, targets, files);
    NothingYet(tree, files);
    ExecuteAllKeeps(tree, act, targets, {}, State({}, files, []));
    BuildIsSound(tree, act, phony, targets, files);
    var order := Finishes(r.state.log);
    forall d | d in targets ensures exists j :: 0 <= j < |order| && order[j] == d {
      assert d in order;
    }
    ExecuteAllIdle(tree, act, phony, order, |order|, targets, {}, State({}, r.state.files, []));
  }
}
