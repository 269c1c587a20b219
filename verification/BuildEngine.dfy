// The build engine as it updates its state in place: the tree filled from a list
// of rules, and the targets executed on shared sets
// (src/cmstaskenv/cmsMake.py:597-690).
module BuildEngine {
  import opened Basics
  import opened BuildTree
  import opened BuildRuns

  // ----- the tree -----

  datatype Rule = Rule(ins: seq<string>, outs: seq<string>)

  function AllOuts(rules: seq<Rule>): seq<string> {
    if rules == [] then [] else AllOuts(rules[..|rules| - 1]) + rules[|rules| - 1].outs
  }

  function AllIns(rules: seq<Rule>): set<string> {
    set k, f | 0 <= k < |rules| && f in rules[k].ins :: f
  }

  function WithOuts(tree: Tree, node: Node, outs: seq<string>): Tree {
    if outs == [] then tree else WithOuts(tree, node, outs[..|outs| - 1])[outs[|outs| - 1] := node]
  }

  function Generated(rules: seq<Rule>): Tree {
    if rules == [] then map[]
    else
      var k := |rules| - 1;
      WithOuts(Generated(rules[..k]), Node(rules[k].ins, Some(k)), rules[k].outs)
  }

  function WithSources(tree: Tree, sources: set<string>): Tree {
    map f | f in tree.Keys + sources :: if f in tree then tree[f] else Node([], None)
  }

  // Every output is made by its rule from the inputs of the rule, everything else
  // is a source, and every dependency is in the tree.
  ghost predicate IsTreeOf(rules: seq<Rule>, tree: Tree) {
    && (forall f :: f in tree <==> f in AllOuts(rules) || f in AllIns(rules))
    && (forall k, f :: 0 <= k < |rules| && f in rules[k].outs ==> f in tree && tree[f] == Node(rules[k].ins, Some(k)))
    && (forall f :: f in tree && f !in AllOuts(rules) ==> tree[f] == Node([], None))
    && ClosedTree(tree)
  }

  lemma {:induction false} WithOutsAt(tree: Tree, node: Node, outs: seq<string>, f: string)
    ensures f in WithOuts(tree, node, outs) <==> f in tree || f in outs
    ensures f in WithOuts(tree, node, outs) ==> WithOuts(tree, node, outs)[f] == if f in outs then node else tree[f]
  {
    if outs != [] {
      var n := |outs| - 1;
      WithOutsAt(tree, node, outs[..n], f);
      assert outs == outs[..n] + [outs[n]];
    }
  }

  lemma {:induction false} GeneratedKeys(rules: seq<Rule>, f: string)
    ensures f in Generated(rules) <==> f in AllOuts(rules)
  {
    if rules != [] {
      var k := |rules| - 1;
      GeneratedKeys(rules[..k], f);
      WithOutsAt(Generated(rules[..k]), Node(rules[k].ins, Some(k)), rules[k].outs, f);
    }
  }

  lemma {:induction false} OutsContain(rules: seq<Rule>, k: nat, f: string)
    requires k < |rules| && f in rules[k].outs
    ensures f in AllOuts(rules)
  {
    var n := |rules| - 1;
    if k < n {
      OutsContain(rules[..n], k, f);
    }
  }

  lemma {:induction false} GeneratedAt(rules: seq<Rule>, k: nat, f: string)
    requires Distinct(AllOuts(rules)) && k < |rules| && f in rules[k].outs
    ensures f in Generated(rules) && Generated(rules)[f] == Node(rules[k].ins, Some(k))
  {
    var n := |rules| - 1;
    WithOutsAt(Generated(rules[..n]), Node(rules[n].ins, Some(n)), rules[n].outs, f);
    if k < n {
      OutsContain(rules[..n], k, f);
      OnceOnly(AllOuts(rules[..n]), rules[n].outs, f);
      GeneratedAt(rules[..n], k, f);
    }
  }

  lemma OnceOnly(xs: seq<string>, ys: seq<string>, f: string)
    requires Distinct(xs + ys) && f in xs
    ensures f !in ys && Distinct(xs)
  {
    var all := xs + ys;
    var i :| 0 <= i < |xs| && xs[i] == f;
    assert all[i] == f;
    forall j | 0 <= j < |ys| ensures ys[j] != f {
      assert all[|xs| + j] == ys[j];
    }
    assert forall a :: 0 <= a < |xs| ==> xs[a] == all[a];
  }

  lemma TreeIsComplete(rules: seq<Rule>)
    requires Distinct(AllOuts(rules))
    ensures IsTreeOf(rules, WithSources(Generated(rules), AllIns(rules)))
  {
    var tree := WithSources(Generated(rules), AllIns(rules));
    forall f ensures f in Generated(rules) <==> f in AllOuts(rules) {
      GeneratedKeys(rules, f);
    }
    forall k, f | 0 <= k < |rules| && f in rules[k].outs ensures f in tree && tree[f] == Node(rules[k].ins, Some(k)) {
      GeneratedAt(rules, k, f);
    }
    forall t, d | Edge(tree, t, d) ensures d in tree {
      assert t in AllOuts(rules);
      var k := RuleOf(rules, t);
    }
  }

  lemma {:induction false} RuleOf(rules: seq<Rule>, f: string) returns (k: nat)
    requires f in AllOuts(rules)
    ensures k < |rules| && f in rules[k].outs
  {
    var n := |rules| - 1;
    if f in rules[n].outs {
      k := n;
    } else {
      k := RuleOf(rules[..n], f);
    }
  }

  lemma DistinctMore(xs: seq<string>, x: string)
    requires Distinct(xs) && x !in xs
    ensures Distinct(xs + [x])
  {
  }

  lemma Repeated(xs: seq<string>, x: string, more: seq<string>)
    requires x in xs
    ensures !Distinct(xs + [x] + more)
  {
    var all := xs + [x] + more;
    var i :| 0 <= i < |xs| && xs[i] == x;
    assert all[i] == x && all[|xs|] == x;
  }

  lemma {:induction false} OutsStart(rules: seq<Rule>, k: nat)
    requires k <= |rules|
    ensures AllOuts(rules[..k]) <= AllOuts(rules)
  {
    if k < |rules| {
      OutsStart(rules[..|rules| - 1], k);
      assert rules[..|rules| - 1][..k] == rules[..k];
    } else {
      assert rules[..k] == rules;
    }
  }

  lemma StartNotDistinct(xs: seq<string>, ys: seq<string>)
    requires xs <= ys && !Distinct(xs)
    ensures !Distinct(ys)
  {
    var i, j :| 0 <= i < j < |xs| && xs[i] == xs[j];
    assert ys[i] == ys[j];
  }

  // The outputs of one rule, unless one of them is made already.
  method AddRule(tree0: Tree, list0: seq<string>, rule: Rule, k: nat) returns (ok: bool, tree: Tree, list: seq<string>)
    requires Distinct(list0) && forall f :: f in tree0 <==> f in list0
    ensures ok <==> Distinct(list0 + rule.outs)
    ensures ok ==> list == list0 + rule.outs && tree == WithOuts(tree0, Node(rule.ins, Some(k)), rule.outs)
    ensures ok ==> forall f :: f in tree <==> f in list
  {
    tree, list := tree0, list0;
    var i := 0;
    while i < |rule.outs|
      invariant 0 <= i <= |rule.outs|
      invariant list == list0 + rule.outs[..i] && Distinct(list)
      invariant tree == WithOuts(tree0, Node(rule.ins, Some(k)), rule.outs[..i])
      invariant forall f :: f in tree <==> f in list
    {
      var exe := rule.outs[i];
      assert rule.outs[..i + 1] == rule.outs[..i] + [exe];
      assert list0 + rule.outs == list + [exe] + rule.outs[i + 1..];
      if exe in tree {
        Repeated(list, exe, rule.outs[i + 1..]);
        return false, tree, list;
      }
      DistinctMore(list, exe);
      assert rule.outs[..i + 1][..i] == rule.outs[..i];
      tree, list := tree[exe := Node(rule.ins, Some(k))], list + [exe];
      i := i + 1;
    }
    assert rule.outs[..i] == rule.outs;
    ok := true;
  }

  // Fails exactly when two rules, or one rule twice, make the same target.
  method BuildExecutionTree(rules: seq<Rule>) returns (r: Option<(Tree, seq<string>)>)
    ensures r.None? <==> !Distinct(AllOuts(rules))
    ensures r.Some? ==> r.value.1 == AllOuts(rules) && IsTreeOf(rules, r.value.0)
    ensures r.Some? ==> forall k :: 0 <= k < |rules| ==> AllOuts(rules[..k]) + rules[k].outs <= r.value.1
  {
    var tree: Tree, list: seq<string>, sources: set<string> := map[], [], {};
    var k := 0;
    while k < |rules|
      invariant 0 <= k <= |rules|
      invariant tree == Generated(rules[..k]) && list == AllOuts(rules[..k]) && sources == AllIns(rules[..k])
      invariant Distinct(list)
    {
      assert rules[..k + 1][..k] == rules[..k];
      forall f ensures f in tree <==> f in list {
        GeneratedKeys(rules[..k], f);
      }
      var ok;
      ok, tree, list := AddRule(tree, list, rules[k], k);
      if !ok {
        OutsStart(rules, k + 1);
        StartNotDistinct(AllOuts(rules[..k + 1]), AllOuts(rules));
        return None;
      }
      MoreIns(rules, k);
      sources := sources + set f | f in rules[k].ins;
      k := k + 1;
    }
    assert rules[..k] == rules;
    TreeIsComplete(rules);
    forall i | 0 <= i < |rules| ensures AllOuts(rules[..i]) + rules[i].outs <= AllOuts(rules) {
      OutsStart(rules, i + 1);
      assert rules[..i + 1][..i] == rules[..i];
    }
    r := Some((WithSources(tree, sources), list));
  }

  lemma MoreIns(rules: seq<Rule>, k: nat)
    requires k < |rules|
    ensures AllIns(rules[..k + 1]) == AllIns(rules[..k]) + set f | f in rules[k].ins
  {
    var less, more := rules[..k], rules[..k + 1];
    forall f ensures f in AllIns(more) <==> f in AllIns(less) || f in rules[k].ins {
      if f in AllIns(more) {
        var i :| 0 <= i < |more| && f in more[i].ins;
        assert i < k ==> less[i] == more[i];
      }
      if f in AllIns(less) {
        var i :| 0 <= i < |less| && f in less[i].ins;
        assert more[i] == less[i];
      }
      if f in rules[k].ins {
        assert more[k] == rules[k];
      }
    }
  }

  // ----- the execution -----

  class Builder {
    const tree: Tree
    const act: Actions
    var done: set<string>
    var stack: set<string>
    var files: Files
    var log: seq<Event>

    constructor (tree: Tree, act: Actions, files: Files)
      ensures this.tree == tree && this.act == act && stack == {} && Now() == State({}, files, [])
    {
      this.tree, this.act, this.files := tree, act, files;
      done, stack, log := {}, {}, [];
    }

    ghost function Now(): State
      reads this
    {
      State(done, files, log)
    }

    // The part after the dependencies have been made.
    method Finish(target: string) returns (o: Outcome)
      requires target in tree
      modifies this`files, this`log
      ensures Result(o, Now()) == Make(tree[target], act, target, old(Now()))
    {
      var node := tree[target];
      if !Present(files, node.deps) {
        return MissingFile;
      }
      if GenTime(files, target) < DepTime(files, node.deps) {
        log := log + [Ran(target)];
        if node.rule.None? {
          return ActionFailed;
        }
        var after := act(node.rule.value, files);
        if after.None? {
          return ActionFailed;
        }
        files := after.value;
      }
      log := log + [Finished(target)];
      o := Done;
    }

    method ExecuteTarget(target: string) returns (o: Outcome)
      modifies this
      ensures Result(o, Now()) == Execute(tree, act, target, old(stack), old(Now()))
      ensures o.Done? ==> stack == old(stack)
      decreases |tree.Keys - done|
    {
      if target !in tree {
        return Unknown;
      }
      if target in stack {
        return Circular;
      }
      if target in done {
        return Done;
      }
      ghost var start, more := Visited(Now(), target), stack + {target};
      assert target in tree.Keys - done;
      Smaller(tree.Keys - start.done, tree.Keys - done);
      done, stack, log := done + {target}, stack + {target}, log + [Visit(target)];
      var deps, i := tree[target].deps, 0;
      while i < |deps|
        invariant 0 <= i <= |deps|
        invariant stack == more && start.done <= done
        invariant ExecuteAll(tree, act, deps[i..], more, Now()) == ExecuteAll(tree, act, deps, more, start)
      {
        NotLarger(tree.Keys - done, tree.Keys - start.done);
        assert deps[i..][1..] == deps[i + 1..];
        o := ExecuteTarget(deps[i]);
        if !o.Done? {
          return;
        }
        i := i + 1;
      }
      assert old(stack) + {target} - {target} == old(stack);
      stack := stack - {target};
      o := Finish(target);
    }

    // Every target with a stack of its own.
    method ExecuteTargets(targets: seq<string>) returns (o: Outcome)
      requires stack == {} && done == {} && log == []
      modifies this
      ensures Result(o, Now()) == Build(tree, act, targets, old(files))
    {
      ghost var start := Now();
      o := Done;
      var i := 0;
      while i < |targets|
        invariant 0 <= i <= |targets|
        invariant stack == {} && o == Done
        invariant ExecuteAll(tree, act, targets[i..], {}, Now()) == ExecuteAll(tree, act, targets, {}, start)
      {
        assert targets[i..][1..] == targets[i + 1..];
        o := ExecuteTarget(targets[i]);
        if !o.Done? {
          return;
        }
        i := i + 1;
      }
    }
  }
}
