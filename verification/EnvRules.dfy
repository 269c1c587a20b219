// The environment of a sandboxed program: rules applied one by one to a copy of
// the caller's environment, in an array that is never grown
// (src/isolate/rules.c:22-154).
module EnvRules {
  import opened Basics

  // value: none to inherit the variable, empty to clear it.
  datatype EnvRule = EnvRule(name: string, value: Option<string>)

  // The built-in rules, which come first.
  const DEFAULTS := [EnvRule("LIBC_FATAL_STDERR_", Some("1"))]

  // ----- entries -----

  function NameOf(e: string): Option<string> {
    if e == "" then None
    else if e[0] == '=' then Some("")
    else
      match NameOf(e[1..])
      case None => None
      case Some(n) => Some([e[0]] + n)
  }

  function EntryOf(name: string, value: string): string {
    name + "=" + value
  }

  predicate Matches(e: string, name: string) {
    |e| > |name| && e[..|name|] == name && e[|name|] == '='
  }

  function ValueOf(e: string): string
    requires NameOf(e).Some?
  {
    NamePrefix(e);
    e[|NameOf(e).value| + 1..]
  }

  lemma {:induction false} NamePrefix(e: string)
    requires NameOf(e).Some?
    ensures var n := NameOf(e).value; '=' !in n && Matches(e, n)
  {
    if e[0] != '=' {
      NamePrefix(e[1..]);
      var n := NameOf(e).value;
      assert e[..|n|] == [e[0]] + e[1..][..|n| - 1];
    }
  }

  lemma {:induction false} MatchIsName(e: string, name: string)
    requires '=' !in name && Matches(e, name)
    ensures NameOf(e) == Some(name)
  {
    if name != "" {
      assert e[0] == name[0] && name[0] in name;
      assert e[1..][..|name| - 1] == e[..|name|][1..];
      MatchIsName(e[1..], name[1..]);
      assert name == [name[0]] + name[1..];
    }
  }

  // An entry matches a name exactly when it is the part before its first '='.
  lemma MatchesIff(e: string, name: string)
    requires '=' !in name
    ensures Matches(e, name) <==> NameOf(e) == Some(name)
  {
    if Matches(e, name) {
      MatchIsName(e, name);
    }
    if NameOf(e) == Some(name) {
      NamePrefix(e);
    }
  }

  lemma EntryHasName(name: string, value: string)
    requires '=' !in name
    ensures NameOf(EntryOf(name, value)) == Some(name) && ValueOf(EntryOf(name, value)) == value
  {
    var e := EntryOf(name, value);
    assert e[..|name|] == name && e[|name|] == '=';
    MatchesIff(e, name);
    assert e[|name| + 1..] == value;
  }

  // ----- one rule -----

  // The position of the first entry with this name.
  function Find(env: seq<string>, name: string): (i: nat)
    ensures i <= |env|
    ensures i < |env| ==> Matches(env[i], name)
    ensures forall j :: 0 <= j < i ==> !Matches(env[j], name)
  {
    if env == [] then 0
    else
      var n := |env| - 1;
      var i := Find(env[..n], name);
      if i < n then i else if Matches(env[n], name) then n else n + 1
  }

  // The last entry takes the place of the removed one.
  function Removed(env: seq<string>, name: string): seq<string> {
    var i := Find(env, name);
    if i < |env| then env[i := env[|env| - 1]][..|env| - 1] else env
  }

  function Added(orig: seq<string>, r: EnvRule): seq<string> {
    match r.value
    case Some(v) => if v == "" then [] else [EntryOf(r.name, v)]
    case None => if Find(orig, r.name) < |orig| then [orig[Find(orig, r.name)]] else []
  }

  function Apply(env: seq<string>, orig: seq<string>, r: EnvRule): seq<string> {
    Removed(env, r.name) + Added(orig, r)
  }

  function ApplyAll(env: seq<string>, orig: seq<string>, rules: seq<EnvRule>): seq<string> {
    if rules == [] then env
    else Apply(ApplyAll(env, orig, rules[..|rules| - 1]), orig, rules[|rules| - 1])
  }

  // The same on maps.
  function Update(m: map<string, string>, orig: map<string, string>, r: EnvRule): map<string, string> {
    match r.value
    case Some(v) => if v == "" then m - {r.name} else m[r.name := v]
    case None => if r.name in orig then m[r.name := orig[r.name]] else m - {r.name}
  }

  function UpdateAll(m: map<string, string>, orig: map<string, string>, rules: seq<EnvRule>): map<string, string> {
    if rules == [] then m
    else Update(UpdateAll(m, orig, rules[..|rules| - 1]), orig, rules[|rules| - 1])
  }

  predicate Proper(rules: seq<EnvRule>) {
    forall i :: 0 <= i < |rules| ==> '=' !in rules[i].name
  }

  lemma FindIff(env: seq<string>, name: string)
    requires '=' !in name
    ensures Find(env, name) < |env| <==> exists e :: e in env && NameOf(e) == Some(name)
    ensures Find(env, name) < |env| ==> NameOf(env[Find(env, name)]) == Some(name)
  {
    var i := Find(env, name);
    if i < |env| {
      MatchesIff(env[i], name);
      assert env[i] in env;
    } else {
      forall e | e in env ensures NameOf(e) != Some(name) {
        MatchesIff(e, name);
      }
    }
  }

  // ----- one variable at a time, however often it occurs -----

  function Single(e: string, name: Option<string>): multiset<string> {
    if NameOf(e) == name then multiset{e} else multiset{}
  }

  // The entries with this name, or those without a name.
  function Group(env: seq<string>, name: Option<string>): multiset<string> {
    if env == [] then multiset{} else Group(env[..|env| - 1], name) + Single(env[|env| - 1], name)
  }

  lemma {:induction false} GroupHolds(env: seq<string>, name: Option<string>, e: string)
    ensures e in Group(env, name) <==> e in env && NameOf(e) == name
  {
    if env != [] {
      var n := |env| - 1;
      GroupHolds(env[..n], name, e);
      assert env == env[..n] + [env[n]];
    }
  }

  lemma GroupLast(front: seq<string>, last: string, name: Option<string>)
    ensures Group(front + [last], name) == Group(front, name) + Single(last, name)
  {
    assert (front + [last])[..|front|] == front;
  }

  lemma {:induction false} GroupConcat(a: seq<string>, b: seq<string>, name: Option<string>)
    ensures Group(a + b, name) == Group(a, name) + Group(b, name)
    decreases |b|
  {
    if b == [] {
      assert a + b == a;
    } else {
      var front, last := b[..|b| - 1], b[|b| - 1];
      assert a + b == (a + front) + [last] && b == front + [last];
      GroupConcat(a, front, name);
      GroupLast(a + front, last, name);
      GroupLast(front, last, name);
    }
  }

  lemma GroupMiddle(a: seq<string>, x: string, b: seq<string>, name: Option<string>)
    ensures Group(a + [x] + b, name) == Group(a, name) + Single(x, name) + Group(b, name)
  {
    GroupLast(a, x, name);
    GroupConcat(a + [x], b, name);
  }

  // What goes when the entries of one name lose their first.
  function Lost(env: seq<string>, name: string): multiset<string> {
    if Find(env, name) < |env| then multiset{env[Find(env, name)]} else multiset{}
  }

  // Taking an entry out by putting the last one in its place.
  lemma RemovedAt(env: seq<string>, i: nat, group: Option<string>)
    requires i < |env|
    ensures Single(env[i], group) <= Group(env, group)
    ensures Group(env[i := env[|env| - 1]][..|env| - 1], group) == Group(env, group) - Single(env[i], group)
  {
    var n := |env| - 1;
    var less := env[i := env[n]][..n];
    if i < n {
      var a, b := env[..i], env[i + 1..n];
      assert env == a + [env[i]] + b + [env[n]] && less == a + [env[n]] + b;
      GroupMiddle(a, env[i], b, group);
      GroupLast(a + [env[i]] + b, env[n], group);
      GroupMiddle(a, env[n], b, group);
      Swapped(Group(a, group), Single(env[n], group), Single(env[i], group), Group(b, group));
    } else {
      assert less == env[..n] && env == env[..n] + [env[n]];
      GroupLast(env[..n], env[n], group);
      Dropped(Group(env[..n], group), Single(env[n], group));
    }
  }

  lemma Swapped(a: multiset<string>, last: multiset<string>, gone: multiset<string>, b: multiset<string>)
    ensures gone <= a + gone + b + last && a + last + b == a + gone + b + last - gone
  {
  }

  lemma Dropped(g: multiset<string>, gone: multiset<string>)
    ensures gone <= g + gone && g == g + gone - gone
  {
  }

  lemma RemovedGroup(env: seq<string>, name: string, group: Option<string>)
    requires '=' !in name
    ensures Group(Removed(env, name), group) == if group == Some(name) then Group(env, group) - Lost(env, name) else Group(env, group)
  {
    FindIff(env, name);
    if Find(env, name) < |env| {
      RemovedAt(env, Find(env, name), group);
    }
  }

  lemma LostIs(env: seq<string>, name: string)
    requires '=' !in name
    ensures Lost(env, name) <= Group(env, Some(name))
    ensures |Lost(env, name)| == if Group(env, Some(name)) == multiset{} then 0 else 1
  {
    FindIff(env, name);
    if Find(env, name) < |env| {
      GroupHolds(env, Some(name), env[Find(env, name)]);
    } else if Group(env, Some(name)) != multiset{} {
      var e :| e in Group(env, Some(name));
      GroupHolds(env, Some(name), e);
    }
  }

  lemma RemovedCount(env: seq<string>, name: string)
    requires '=' !in name
    ensures var g := Group(env, Some(name));
            |Group(Removed(env, name), Some(name))| == if g == multiset{} then 0 else |g| - 1
  {
    RemovedGroup(env, name, Some(name));
    LostIs(env, name);
  }

  lemma AddedGroup(orig: seq<string>, r: EnvRule, env: seq<string>, group: Option<string>)
    requires '=' !in r.name
    ensures Group(env + Added(orig, r), group) == if group == Some(r.name) then Group(env, group) + multiset(Added(orig, r)) else Group(env, group)
  {
    FindIff(orig, r.name);
    if r.value.Some? {
      EntryHasName(r.name, r.value.value);
    }
    var add := Added(orig, r);
    if add == [] {
      assert env + add == env;
    } else {
      assert add == [add[0]] && (env + add)[..|env|] == env;
    }
  }

  // A rule takes the first entry of its variable away, if there is one, puts at
  // most one at the end, and leaves all other entries alone.
  lemma ApplyGroup(env: seq<string>, orig: seq<string>, r: EnvRule, group: Option<string>)
    requires '=' !in r.name
    ensures Group(Apply(env, orig, r), group) ==
            if group == Some(r.name) then Group(env, group) - Lost(env, r.name) + multiset(Added(orig, r)) else Group(env, group)
    ensures group == Some(r.name) ==>
              |Group(Apply(env, orig, r), group)| == (if Group(env, group) == multiset{} then 0 else |Group(env, group)| - 1) + |Added(orig, r)|
  {
    RemovedGroup(env, r.name, group);
    RemovedCount(env, r.name);
    AddedGroup(orig, r, Removed(env, r.name), group);
  }

  // How many of these rules take an entry of the variable away and add none.
  function Clears(rules: seq<EnvRule>, orig: seq<string>, x: string): nat {
    if rules == [] then 0
    else
      var r := rules[|rules| - 1];
      Clears(rules[..|rules| - 1], orig, x) + if r.name == x && Added(orig, r) == [] then 1 else 0
  }

  function Remaining(entries: nat, r: EnvRule, orig: seq<string>, x: string): nat {
    if r.name != x then entries
    else (if entries == 0 then 0 else entries - 1) + if Added(orig, r) == [] then 0 else 1
  }

  lemma RuleLeaves(env: seq<string>, orig: seq<string>, r: EnvRule, x: string)
    requires '=' !in r.name
    ensures |Group(Apply(env, orig, r), Some(x))| == Remaining(|Group(env, Some(x))|, r, orig, x)
  {
    if r.name == x {
      AddsAtMostOne(orig, r);
    }
    ApplyGroup(env, orig, r, Some(x));
  }

  lemma AddsAtMostOne(orig: seq<string>, r: EnvRule)
    ensures |Added(orig, r)| == if Added(orig, r) == [] then 0 else 1
  {
  }

  // A variable with several entries loses one with every rule that adds none, until
  // one is left; from then on it has at most one.
  lemma {:induction false} EntriesLeft(env: seq<string>, orig: seq<string>, rules: seq<EnvRule>, x: string)
    requires Proper(rules)
    ensures var before, after := |Group(env, Some(x))|, |Group(ApplyAll(env, orig, rules), Some(x))|;
            if before > 1 + Clears(rules, orig, x) then after == before - Clears(rules, orig, x) else after <= 1
  {
    if rules != [] {
      var n := |rules| - 1;
      EntriesLeft(env, orig, rules[..n], x);
      RuleLeaves(ApplyAll(env, orig, rules[..n]), orig, rules[n], x);
    }
  }

  // The rules before the last one for this variable.
  function Earlier(rules: seq<EnvRule>, x: string): seq<EnvRule> {
    if rules == [] then []
    else if rules[|rules| - 1].name == x then rules[..|rules| - 1]
    else Earlier(rules[..|rules| - 1], x)
  }

  // The last rule for a variable decides it, that is, clears it, sets it, or leaves
  // it as the caller has it first, if and only if no more than one entry is left when
  // it comes, whatever else is in the environment. Without a rule a variable stays as
  // it is.
  lemma {:induction false} VariableDecided(env: seq<string>, orig: seq<string>, rules: seq<EnvRule>, x: string)
    requires Proper(rules)
    ensures match LastRule(rules, x) {
              case None => Group(ApplyAll(env, orig, rules), Some(x)) == Group(env, Some(x))
              case Some(r) =>
                Group(ApplyAll(env, orig, rules), Some(x)) == multiset(Added(orig, r))
                <==> |Group(env, Some(x))| <= 1 + Clears(Earlier(rules, x), orig, x)
            }
  {
    if rules != [] {
      var n := |rules| - 1;
      var before := ApplyAll(env, orig, rules[..n]);
      if rules[n].name == x {
        EntriesLeft(env, orig, rules[..n], x);
        LastWordIff(before, orig, rules[n], x);
      } else {
        VariableDecided(env, orig, rules[..n], x);
        ApplyGroup(before, orig, rules[n], Some(x));
      }
    }
  }

  lemma LastWordIff(env: seq<string>, orig: seq<string>, r: EnvRule, x: string)
    requires '=' !in x && r.name == x
    ensures Group(Apply(env, orig, r), Some(x)) == multiset(Added(orig, r)) <==> |Group(env, Some(x))| <= 1
  {
    RemovedCount(env, x);
    AddedGroup(orig, r, Removed(env, x), Some(x));
    var rest, add := Group(Removed(env, x), Some(x)), multiset(Added(orig, r));
    if rest + add == add {
      assert rest == rest + add - add;
      assert rest == multiset{};
    }
  }

  lemma LastRuleIs(rules: seq<EnvRule>, x: string)
    ensures match LastRule(rules, x) { case None => true case Some(r) => r.name == x }
  {
    if rules != [] && rules[|rules| - 1].name != x {
      LastRuleIs(rules[..|rules| - 1], x);
    }
  }

  // Entries without a name are never touched.
  lemma {:induction false} NamelessKept(env: seq<string>, orig: seq<string>, rules: seq<EnvRule>)
    requires Proper(rules)
    ensures Group(ApplyAll(env, orig, rules), None) == Group(env, None)
  {
    if rules != [] {
      var n := |rules| - 1;
      NamelessKept(env, orig, rules[..n]);
      ApplyGroup(ApplyAll(env, orig, rules[..n]), orig, rules[n], None);
    }
  }

  // ----- all rules -----

  // The variable is in the environment as it is in the map: once or not at all.
  predicate Tells(env: seq<string>, m: map<string, string>, x: string) {
    Group(env, Some(x)) == if x in m then multiset{EntryOf(x, m[x])} else multiset{}
  }

  // The first entry of the variable is the one the map has.
  predicate TellsFirst(orig: seq<string>, o: map<string, string>, x: string) {
    var i := Find(orig, x);
    if x in o then i < |orig| && orig[i] == EntryOf(x, o[x]) else i == |orig|
  }

  // Applying the rules one by one to the array is applying them, in order, to a map,
  // for every variable on which the two agree, however often others occur.
  lemma RulesRefineMap(env: seq<string>, orig: seq<string>, rules: seq<EnvRule>, m: map<string, string>, o: map<string, string>, x: string)
    requires Proper(rules) && Tells(env, m, x) && TellsFirst(orig, o, x)
    ensures Tells(ApplyAll(env, orig, rules), UpdateAll(m, o, rules), x)
  {
    VariableDecided(env, orig, rules, x);
    LastRuleDecides(m, o, rules, x);
    LastRuleIs(rules, x);
  }

  // The last rule for a variable decides it; without one it keeps its value.
  function LastRule(rules: seq<EnvRule>, x: string): Option<EnvRule> {
    if rules == [] then None
    else if rules[|rules| - 1].name == x then Some(rules[|rules| - 1])
    else LastRule(rules[..|rules| - 1], x)
  }

  function Lookup(m: map<string, string>, x: string): Option<string> {
    if x in m then Some(m[x]) else None
  }

  lemma {:induction false} LastRuleDecides(m: map<string, string>, o: map<string, string>, rules: seq<EnvRule>, x: string)
    ensures Lookup(UpdateAll(m, o, rules), x) ==
            match LastRule(rules, x) {
              case None => Lookup(m, x)
              case Some(r) => if r.value == Some("") then None else if r.value.Some? then r.value else Lookup(o, x)
            }
  {
    if rules != [] {
      LastRuleDecides(m, o, rules[..|rules| - 1], x);
    }
  }

  // A variable that occurs twice survives a rule that clears it, and one that
  // occurs at most once does not.
  lemma ClearedIff(env: seq<string>, orig: seq<string>, name: string)
    requires '=' !in name
    ensures (forall e :: e in Apply(env, orig, EnvRule(name, Some(""))) ==> NameOf(e) != Some(name))
            <==> forall i, j :: 0 <= i < j < |env| && NameOf(env[i]) == Some(name) ==> NameOf(env[j]) != Some(name)
  {
    FindIff(env, name);
    var i, n, out := Find(env, name), |env| - 1, Removed(env, name);
    assert Apply(env, orig, EnvRule(name, Some(""))) == out;
    forall j | 0 <= j < |env| ensures Matches(env[j], name) <==> NameOf(env[j]) == Some(name) {
      MatchesIff(env[j], name);
    }
    if i <= n {
      forall j | i < j <= n ensures env[j] in out {
        assert out[if j == n then i else j] == env[j];
      }
      forall e | e in out ensures exists j :: 0 <= j <= n && j != i && env[j] == e {
        var k :| 0 <= k < |out| && out[k] == e;
        assert env[if k == i then n else k] == e;
      }
    }
  }

  // ----- rules from the command line -----

  // The option VAR=VALUE, VAR= or VAR; an empty name before a '=' is refused.
  function ParseAction(a: string): Option<EnvRule> {
    match NameOf(a)
    case None => Some(EnvRule(a, None))
    case Some(n) => if n == "" then None else Some(EnvRule(n, Some(ValueOf(a))))
  }

  function OptionOf(r: EnvRule): string {
    if r.value.None? then r.name else EntryOf(r.name, r.value.value)
  }

  lemma {:induction false} NoName(e: string)
    ensures NameOf(e).None? <==> '=' !in e
  {
    if e != "" && e[0] != '=' {
      NoName(e[1..]);
      assert e == [e[0]] + e[1..];
    }
  }

  lemma {:induction false} NameThenValue(e: string)
    requires NameOf(e).Some?
    ensures e == EntryOf(NameOf(e).value, ValueOf(e))
  {
    NamePrefix(e);
    var n := NameOf(e).value;
    assert e == e[..|n|] + [e[|n|]] + e[|n| + 1..];
  }

  // Every rule that is accepted has a name without '=', and is the rule of the
  // option it was written as.
  lemma ParseActionExact(a: string, r: EnvRule)
    ensures ParseAction(a) == Some(r) <==> a == OptionOf(r) && '=' !in r.name && (r.name == "" ==> r.value.None?)
  {
    NoName(a);
    if NameOf(a).Some? {
      NameThenValue(a);
      NamePrefix(a);
    }
    if a == OptionOf(r) && '=' !in r.name && r.value.Some? {
      EntryHasName(r.name, r.value.value);
    }
  }

  // What a program in the sandbox sees of a variable: what the last of the built-in
  // rules and the caller's rules says, if and only if the variable is passed on at
  // most once more than earlier rules clear it; without a rule the caller's own entries, if
  // they are passed on. Entries without a name are passed on or not, all of them.
  lemma FinalEnvironment(orig: seq<string>, user: seq<EnvRule>, pass: bool, x: string)
    requires Proper(user)
    ensures var start, rules := if pass then orig else [], DEFAULTS + user;
            var env := ApplyAll(start, orig, rules);
            && Group(env, None) == Group(start, None)
            && match LastRule(rules, x) {
                 case None => Group(env, Some(x)) == Group(start, Some(x))
                 case Some(r) =>
                   Group(env, Some(x)) == multiset(Added(orig, r))
                   <==> !pass || |Group(orig, Some(x))| <= 1 + Clears(Earlier(rules, x), orig, x)
               }
  {
    var rules := DEFAULTS + user;
    forall i | 0 <= i < |rules| ensures '=' !in rules[i].name {
      assert i >= |DEFAULTS| ==> rules[i] == user[i - |DEFAULTS|];
    }
    VariableDecided(if pass then orig else [], orig, rules, x);
    NamelessKept(if pass then orig else [], orig, rules);
  }

  // Unless the caller has a rule for it, the C library is told to write its fatal
  // errors to the standard error output, for the sandboxed program.
  lemma FatalErrorsShown(orig: seq<string>, user: seq<EnvRule>, pass: bool)
    requires Proper(user) && forall i :: 0 <= i < |user| ==> user[i].name != "LIBC_FATAL_STDERR_"
    ensures var x, env := "LIBC_FATAL_STDERR_", ApplyAll(if pass then orig else [], orig, DEFAULTS + user);
            Group(env, Some(x)) == multiset{"LIBC_FATAL_STDERR_=1"} <==> !pass || |Group(orig, Some(x))| <= 1
  {
    var x, r := "LIBC_FATAL_STDERR_", DEFAULTS[0];
    DefaultDecides(user, x, r);
    FinalEnvironment(orig, user, pass, x);
    assert EntryOf(x, "1") == "LIBC_FATAL_STDERR_=1";
    assert Added(orig, r) == [EntryOf(x, "1")];
    assert Clears([], orig, x) == 0;
  }

  lemma {:induction false} DefaultDecides(user: seq<EnvRule>, x: string, r: EnvRule)
    requires DEFAULTS == [r] && r.name == x && forall i :: 0 <= i < |user| ==> user[i].name != x
    ensures LastRule(DEFAULTS + user, x) == Some(r) && Earlier(DEFAULTS + user, x) == []
  {
    var all := DEFAULTS + user;
    if user == [] {
      assert all == DEFAULTS && all[..0] == [];
    } else {
      var n := |user| - 1;
      assert all[..|all| - 1] == DEFAULTS + user[..n] && all[|all| - 1] == user[n];
      DefaultDecides(user[..n], x, r);
    }
  }

  // ----- in place -----

  ghost predicate Holds(env: array<Option<string>>, size: nat, entries: seq<string>)
    reads env
  {
    && size == |entries| && size < env.Length
    && (forall i :: 0 <= i < size ==> env[i] == Some(entries[i]))
    && env[size].None?
  }

  lemma FindIs(env: seq<string>, name: string, i: nat)
    requires i <= |env| && (i < |env| ==> Matches(env[i], name))
    requires forall j :: 0 <= j < i ==> !Matches(env[j], name)
    ensures Find(env, name) == i
  {
  }

  method Search(env: array<Option<string>>, size: nat, name: string, ghost entries: seq<string>) returns (pos: nat)
    requires Holds(env, size, entries)
    ensures pos == Find(entries, name)
  {
    pos := 0;
    while pos < size && !Matches(env[pos].value, name)
      invariant 0 <= pos <= size
      invariant forall j :: 0 <= j < pos ==> !Matches(entries[j], name)
    {
      pos := pos + 1;
    }
    FindIs(entries, name, pos);
  }

  method SearchOriginal(orig: seq<string>, name: string) returns (pos: nat)
    ensures pos == Find(orig, name)
  {
    pos := 0;
    while pos < |orig| && !Matches(orig[pos], name)
      invariant 0 <= pos <= |orig|
      invariant forall j :: 0 <= j < pos ==> !Matches(orig[j], name)
    {
      pos := pos + 1;
    }
    FindIs(orig, name, pos);
  }

  // Needs one free slot besides the end mark.
  method ApplyEnvRule(env: array<Option<string>>, size: nat, orig: seq<string>, r: EnvRule, ghost entries: seq<string>)
      returns (newSize: nat)
    requires Holds(env, size, entries) && size + 1 < env.Length
    modifies env
    ensures Holds(env, newSize, Apply(entries, orig, r)) && newSize <= size + 1
  {
    newSize := size;
    var pos := Search(env, size, r.name, entries);
    if pos < size {
      newSize := newSize - 1;
      env[pos] := env[newSize];
      env[newSize] := None;
    }
    var added;
    match r.value {
      case Some(v) =>
        if v == "" {
          return;
        }
        added := EntryOf(r.name, v);
      case None =>
        pos := SearchOriginal(orig, r.name);
        if pos == |orig| {
          return;
        }
        added := orig[pos];
    }
    env[newSize] := Some(added);
    newSize := newSize + 1;
    env[newSize] := None;
  }

  method ApplyRules(env: array<Option<string>>, size0: nat, orig: seq<string>, rules: seq<EnvRule>, ghost start: seq<string>)
      returns (size: nat)
    requires Holds(env, size0, start) && size0 + |rules| < env.Length
    modifies env
    ensures Holds(env, size, ApplyAll(start, orig, rules)) && size <= size0 + |rules|
  {
    size := size0;
    var i := 0;
    while i < |rules|
      invariant 0 <= i <= |rules| && size <= size0 + i
      invariant Holds(env, size, ApplyAll(start, orig, rules[..i]))
    {
      assert rules[..i + 1][..i] == rules[..i];
      size := ApplyEnvRule(env, size, orig, rules[i], ApplyAll(start, orig, rules[..i]));
      i := i + 1;
    }
    assert rules[..i] == rules;
  }

  // The array has one slot for every original entry, every rule and the end mark,
  // and is never overrun.
  method SetupEnvironment(orig: seq<string>, defaults: seq<EnvRule>, user: seq<EnvRule>, pass: bool)
      returns (env: array<Option<string>>, size: nat)
    ensures fresh(env) && env.Length == |orig| + |defaults + user| + 1
    ensures Holds(env, size, ApplyAll(if pass then orig else [], orig, defaults + user))
    ensures size <= (if pass then |orig| else 0) + |defaults + user|
  {
    var rules := defaults + user;
    env := new Option<string>[|orig| + |rules| + 1](_ => None);
    size := 0;
    if pass {
      while size < |orig|
        invariant 0 <= size <= |orig|
        invariant forall i :: 0 <= i < size ==> env[i] == Some(orig[i])
        invariant forall i :: size <= i < env.Length ==> env[i] == None
      {
        env[size] := Some(orig[size]);
        size := size + 1;
      }
    }
    size := ApplyRules(env, size, orig, rules, if pass then orig else []);
  }
}
