// The order in which the changes of a score are kept: by time, then by key
// (src/cmsranking/Scoring.py:162-203).
module ChangeOrder {
  import opened Basics
  import opened ScoreReplay

  predicate Before(a: Change, b: Change) {
    a.time < b.time || (a.time == b.time && StrLess(a.key, b.key))
  }

  lemma BeforeIrreflexive(a: Change)
    ensures !Before(a, a)
  {
    StrLessIrreflexive(a.key);
  }

  lemma BeforeTransitive(a: Change, b: Change, c: Change)
    requires Before(a, b) && Before(b, c)
    ensures Before(a, c)
  {
    if a.time == b.time == c.time {
      StrLessTransitive(a.key, b.key, c.key);
    }
  }

  lemma BeforeTotal(a: Change, b: Change)
    requires a.key != b.key
    ensures Before(a, b) <==> !Before(b, a)
  {
    StrLessTotal(a.key, b.key);
    if Before(a, b) && Before(b, a) {
      BeforeTransitive(a, b, a);
      BeforeIrreflexive(a);
    }
  }

  predicate Sorted(cs: seq<Change>) {
    forall i, j :: 0 <= i < j < |cs| ==> Before(cs[i], cs[j])
  }

  function Elems(cs: seq<Change>): set<Change> {
    set c | c in cs
  }

  lemma SortedTail(cs: seq<Change>)
    requires Sorted(cs) && cs != []
    ensures Sorted(cs[1..])
    ensures Elems(cs[1..]) == Elems(cs) - {cs[0]}
  {
    forall c ensures c in Elems(cs[1..]) <==> c in Elems(cs) - {cs[0]} {
      BeforeIrreflexive(c);
      if c in cs && c != cs[0] {
        var i :| 0 <= i < |cs| && cs[i] == c;
        assert cs[1..][i - 1] == c;
      }
    }
  }

  lemma FirstIsLeast(cs: seq<Change>, c: Change)
    requires Sorted(cs) && c in cs && c != cs[0]
    ensures Before(cs[0], c)
  {
    var i :| 0 <= i < |cs| && cs[i] == c;
  }

  lemma NoElems(cs: seq<Change>)
    ensures cs == [] <==> Elems(cs) == {}
  {
    if cs != [] {
      assert cs[0] in Elems(cs);
    }
  }

  // A set of changes has one sorted list.
  lemma {:induction false} SortedUnique(a: seq<Change>, b: seq<Change>)
    requires Sorted(a) && Sorted(b) && Elems(a) == Elems(b)
    ensures a == b
  {
    NoElems(a);
    NoElems(b);
    if a != [] && b != [] {
      assert a[0] in Elems(a) && b[0] in Elems(b);
      if a[0] != b[0] {
        FirstIsLeast(a, b[0]);
        FirstIsLeast(b, a[0]);
        BeforeTransitive(a[0], b[0], a[0]);
        BeforeIrreflexive(a[0]);
      }
      SortedTail(a);
      SortedTail(b);
      SortedUnique(a[1..], b[1..]);
      assert a == [a[0]] + a[1..] && b == [b[0]] + b[1..];
    }
  }

  lemma SortedAppend(cs: seq<Change>, c: Change)
    requires Sorted(cs) && (cs != [] ==> Before(cs[|cs| - 1], c))
    ensures Sorted(cs + [c]) && Elems(cs + [c]) == Elems(cs) + {c}
  {
    forall i | 0 <= i < |cs| ensures Before(cs[i], c) {
      if i < |cs| - 1 {
        BeforeTransitive(cs[i], cs[|cs| - 1], c);
      }
    }
  }

  // In front of the first change that comes after c; nowhere when there is none.
  function Insert(cs: seq<Change>, c: Change): seq<Change> {
    if cs == [] then []
    else if Before(c, cs[0]) then [c] + cs
    else [cs[0]] + Insert(cs[1..], c)
  }

  predicate FreshKey(cs: seq<Change>, key: string) {
    forall i :: 0 <= i < |cs| ==> cs[i].key != key
  }

  lemma {:induction false} InsertSorted(cs: seq<Change>, c: Change)
    requires Sorted(cs) && cs != [] && FreshKey(cs, c.key) && !Before(cs[|cs| - 1], c)
    ensures Sorted(Insert(cs, c)) && Elems(Insert(cs, c)) == Elems(cs) + {c}
  {
    if Before(c, cs[0]) {
      forall i | 0 < i < |cs| ensures Before(c, cs[i]) {
        BeforeTransitive(c, cs[0], cs[i]);
      }
    } else {
      BeforeTotal(cs[0], c);
      SortedTail(cs);
      assert |cs| > 1;
      assert cs[1..][|cs| - 2] == cs[|cs| - 1];
      InsertSorted(cs[1..], c);
      var t := Insert(cs[1..], c);
      PrependSorted(cs[0], t, cs[1..], c);
      assert Elems([cs[0]] + t) == {cs[0]} + Elems(t);
      assert cs[0] in Elems(cs);
    }
  }

  lemma PrependSorted(x: Change, t: seq<Change>, rest: seq<Change>, c: Change)
    requires Sorted(t) && Elems(t) == Elems(rest) + {c}
    requires Before(x, c) && Sorted([x] + rest)
    ensures Sorted([x] + t)
  {
    forall i | 0 <= i < |t| ensures Before(x, t[i]) {
      assert t[i] in Elems(t);
      if t[i] != c {
        assert t[i] in Elems(rest) && ([x] + rest)[0] == x;
        var j :| 0 <= j < |rest| && rest[j] == t[i];
        assert ([x] + rest)[j + 1] == t[i];
      }
    }
  }

  // Where create_subchange puts a change: at the end when it comes last.
  function Place(cs: seq<Change>, c: Change): seq<Change> {
    if cs == [] || Before(cs[|cs| - 1], c) then cs + [c] else Insert(cs, c)
  }

  lemma PlaceSorted(cs: seq<Change>, c: Change)
    requires Sorted(cs) && FreshKey(cs, c.key)
    ensures Sorted(Place(cs, c)) && Elems(Place(cs, c)) == Elems(cs) + {c}
  {
    if cs == [] || Before(cs[|cs| - 1], c) {
      SortedAppend(cs, c);
    } else {
      InsertSorted(cs, c);
    }
  }

  // What update_subchange does to the list: every change with this key is
  // replaced where it stands.
  function Replace(cs: seq<Change>, key: string, c: Change): (r: seq<Change>)
    ensures |r| == |cs|
    ensures forall i :: 0 <= i < |cs| ==> r[i] == if cs[i].key == key then c else cs[i]
  {
    if cs == [] then [] else [if cs[0].key == key then c else cs[0]] + Replace(cs[1..], key, c)
  }

  // What a list comprehension over the changes drops.
  datatype Drop = Key(key: string) | Of(submission: string)

  predicate Keeps(d: Drop, c: Change) {
    match d
    case Key(key) => c.key != key
    case Of(submission) => c.submission != submission
  }

  function Filter(cs: seq<Change>, d: Drop): (r: seq<Change>)
    ensures forall c :: c in r <==> c in cs && Keeps(d, c)
  {
    if cs == [] then []
    else if Keeps(d, cs[0]) then [cs[0]] + Filter(cs[1..], d) else Filter(cs[1..], d)
  }

  lemma {:induction false} FilterSorted(cs: seq<Change>, d: Drop)
    requires Sorted(cs)
    ensures Sorted(Filter(cs, d))
  {
    if cs != [] {
      SortedTail(cs);
      FilterSorted(cs[1..], d);
      var t := Filter(cs[1..], d);
      forall i | 0 <= i < |t| ensures Before(cs[0], t[i]) {
        assert t[i] in t;
        var j :| 0 <= j < |cs[1..]| && cs[1..][j] == t[i];
        assert cs[j + 1] == t[i];
      }
    }
  }

  // The new version of a change stands in the same order to every other change.
  predicate KeepsPlace(cs: seq<Change>, key: string, c: Change) {
    forall i, j :: 0 <= i < |cs| && 0 <= j < |cs| && cs[i].key == key && cs[j].key != key ==>
                     (Before(cs[i], cs[j]) <==> Before(c, cs[j]))
  }

  lemma SortedIndex(cs: seq<Change>, i: int, j: int)
    requires Sorted(cs) && 0 <= i < |cs| && 0 <= j < |cs|
    ensures Before(cs[i], cs[j]) <==> i < j
  {
    if i == j {
      BeforeIrreflexive(cs[i]);
    } else if j < i && Before(cs[i], cs[j]) {
      BeforeTransitive(cs[i], cs[j], cs[i]);
      BeforeIrreflexive(cs[i]);
    }
  }

  predicate UniqueKeys(cs: seq<Change>) {
    forall i, j :: 0 <= i < j < |cs| ==> cs[i].key != cs[j].key
  }

  // Replacing in place keeps the list sorted exactly when the new version keeps
  // its place among the others.
  lemma ReplaceSortedIff(cs: seq<Change>, key: string, c: Change)
    requires Sorted(cs) && UniqueKeys(cs) && c.key == key
    ensures Sorted(Replace(cs, key, c)) <==> KeepsPlace(cs, key, c)
  {
    var r := Replace(cs, key, c);
    if KeepsPlace(cs, key, c) {
      forall i, j | 0 <= i < j < |r| ensures Before(r[i], r[j]) {
        if cs[i].key == key {
          assert Before(c, cs[j]);
        } else if cs[j].key == key {
          SortedIndex(cs, j, i);
          BeforeTotal(cs[i], c);
        }
      }
    }
    if Sorted(r) {
      forall i, j | 0 <= i < |cs| && 0 <= j < |cs| && cs[i].key == key && cs[j].key != key
        ensures Before(cs[i], cs[j]) <==> Before(c, cs[j])
      {
        SortedIndex(cs, i, j);
        SortedIndex(r, i, j);
        assert r[i] == c && r[j] == cs[j];
      }
    }
  }
}
