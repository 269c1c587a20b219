// Small vocabulary shared by every module.
module Basics {

  datatype Option<+T> = None | Some(value: T) {
    function GetOr(default: T): T {
      if Some? then value else default
    }
  }

  // Comparison of strings by code points, as Python's `<` on str.
  predicate StrLess(a: string, b: string) {
    b != [] && (a == [] || a[0] < b[0] || (a[0] == b[0] && StrLess(a[1..], b[1..])))
  }

  lemma {:induction false} StrLessIrreflexive(a: string)
    ensures !StrLess(a, a)
  {
    if a != [] {
      StrLessIrreflexive(a[1..]);
    }
  }

  lemma {:induction false} StrLessTransitive(a: string, b: string, c: string)
    requires StrLess(a, b) && StrLess(b, c)
    ensures StrLess(a, c)
  {
    if a != [] && a[0] == b[0] == c[0] {
      StrLessTransitive(a[1..], b[1..], c[1..]);
    }
  }

  lemma {:induction false} StrLessTotal(a: string, b: string)
    ensures StrLess(a, b) || a == b || StrLess(b, a)
  {
    if a != [] && b != [] && a[0] == b[0] {
      StrLessTotal(a[1..], b[1..]);
      assert a == [a[0]] + a[1..] && b == [b[0]] + b[1..];
    }
  }

  // The first place where two strings differ decides, and the shorter comes first if
  // there is none.
  lemma {:induction false} StrLessAt(a: string, b: string, n: nat)
    requires n <= |a| && n <= |b| && a[..n] == b[..n]
    requires n == |a| || n == |b| || a[n] != b[n]
    ensures StrLess(a, b) <==> n < |b| && (n == |a| || a[n] < b[n])
    decreases n
  {
    if n > 0 {
      assert a[0] == a[..n][0] && b[0] == b[..n][0];
      assert a[1..][..n - 1] == a[..n][1..] && b[1..][..n - 1] == b[..n][1..];
      StrLessAt(a[1..], b[1..], n - 1);
    }
  }

  ghost function Pick<T>(s: set<T>): (x: T)
    requires s != {}
    ensures x in s
  {
    var x :| x in s;
    x
  }

  // The greatest element of a non-empty finite set of numbers.
  ghost function MaxOf(s: set<real>): (m: real)
    requires s != {}
    ensures m in s
    ensures forall x :: x in s ==> x <= m
  {
    var x := Pick(s);
    if s == {x} then x
    else
      var y := MaxOf(s - {x});
      assert forall z :: z in s ==> z == x || z in s - {x};
      if y <= x then x else y
  }

  // A loop over a set has dealt with some of it and not yet with the rest.
  ghost predicate Parted<T>(all: set<T>, todo: set<T>, done: set<T>) {
    todo <= all && done == all - todo
  }

  lemma PartOne<T>(all: set<T>, todo: set<T>, done: set<T>, x: T)
    requires Parted(all, todo, done) && x in todo
    ensures x in all && x !in done && Parted(all, todo - {x}, done + {x})
  {
  }

  lemma PartAll<T>(all: set<T>, todo: set<T>, done: set<T>)
    requires Parted(all, todo, done) && todo == {}
    ensures done == all
  {
  }
}
