// Making an old collection of objects look like a new one in place: matched
// objects are overwritten, unmatched new objects are moved over, unmatched old
// objects are dropped (src/cmscontrib/importing.py:173-270).
module Reconcile {
  import opened Basics

  // An object with an identity, the key it is looked up by and its columns.
  class Item {
    const key: string
    var value: int

    constructor (key: string, value: int)
      ensures this.key == key && this.value == value
    {
      this.key, this.value := key, value;
    }

    method Overwrite(other: Item)
      modifies this
      ensures value == old(other.value)
    {
      value := other.value;
    }
  }

  class ItemList {
    var items: seq<Item>

    constructor (items: seq<Item>)
      ensures this.items == items
    {
      this.items := items;
    }
  }

  class ItemDict {
    var items: map<string, Item>

    constructor (items: map<string, Item>)
      ensures this.items == items
    {
      this.items := items;
    }
  }

  predicate Apart(xs: seq<Item>, ys: seq<Item>) {
    && (forall i, j :: 0 <= i < j < |xs| ==> xs[i] != xs[j])
    && (forall i, j :: 0 <= i < |xs| && 0 <= j < |ys| ==> xs[i] != ys[j])
  }

  function Shorter(a: nat, b: nat): nat {
    if a < b then a else b
  }

  // ----- by position -----

  // The old objects keep their places and take the values of the new ones; only
  // the new objects beyond them are moved.
  method UpdateList(olds: ItemList, news: ItemList)
    requires olds != news && Apart(olds.items, news.items)
    modifies olds, news, olds.items
    ensures var m := Shorter(|old(olds.items)|, |old(news.items)|);
            && olds.items == old(olds.items)[..m] + old(news.items)[m..]
            && news.items == old(news.items)[..m]
            && (forall i :: 0 <= i < m ==> old(olds.items)[i].value == old(news.items[i].value))
            && (forall i :: m <= i < |old(olds.items)| ==> old(olds.items)[i].value == old(olds.items[i].value))
  {
    ghost var a, b := olds.items, news.items;
    var oldLen, newLen := |olds.items|, |news.items|;
    var i := 0;
    while i < oldLen && i < newLen
      invariant 0 <= i <= Shorter(oldLen, newLen)
      invariant olds.items == a && news.items == b
      invariant forall k :: 0 <= k < i ==> a[k].value == old(b[k].value)
      invariant forall k :: i <= k < oldLen ==> a[k].value == old(a[k].value)
    {
      olds.items[i].Overwrite(news.items[i]);
      i := i + 1;
    }
    olds.items := olds.items[..i];
    MoveSurplus(olds, news, oldLen, newLen);
  }

  // The new objects from a position on are taken out of the new list one by one.
  method MoveSurplus(olds: ItemList, news: ItemList, oldLen: nat, newLen: nat)
    requires olds != news && newLen == |news.items|
    modifies olds, news
    ensures var m := Shorter(oldLen, newLen);
            && olds.items == old(olds.items) + old(news.items)[m..]
            && news.items == old(news.items)[..m]
  {
    ghost var a, b := olds.items, news.items;
    var n := oldLen;
    while n < newLen
      invariant oldLen <= n && (n <= newLen || n == oldLen)
      invariant newLen > oldLen ==> olds.items == a + b[oldLen..n] && news.items == b[..oldLen] + b[n..]
      invariant newLen <= oldLen ==> olds.items == a && news.items == b
    {
      var temp := news.items[oldLen];
      MovedOn(a, b, oldLen, n);
      news.items := news.items[..oldLen] + news.items[oldLen + 1..];
      olds.items := olds.items + [temp];
      n := n + 1;
    }
  }

  lemma MovedOn(a: seq<Item>, b: seq<Item>, m: nat, n: nat)
    requires m <= n < |b|
    ensures (b[..m] + b[n..])[m] == b[n]
    ensures (b[..m] + b[n..])[..m] + (b[..m] + b[n..])[m + 1..] == b[..m] + b[n + 1..]
    ensures a + b[m..n] + [b[n]] == a + b[m..n + 1]
  {
    assert b[m..n] + [b[n]] == b[m..n + 1];
  }

  // ----- by key, in a dictionary -----

  type Dict = map<string, Item>

  ghost predicate ApartDicts(a: Dict, b: Dict) {
    && (forall k :: k in a ==> a[k].key == k)
    && (forall k :: k in b ==> b[k].key == k)
    && (forall k :: k in a && k in b ==> a[k] != b[k])
  }

  // Where the objects are once all keys but these have been dealt with.
  ghost predicate Moved(a: Dict, b: Dict, todo: set<string>, olds: Dict, news: Dict) {
    && (forall k :: k in olds <==> if k in todo then k in a else k in b)
    && (forall k :: k in olds ==> olds[k] == if k in a then a[k] else b[k])
    && (forall k :: k in news <==> k in b && (k in todo || k in a))
    && (forall k :: k in news ==> news[k] == b[k])
  }

  // What they hold, with va and vb their values at the start.
  ghost predicate Valued(a: Dict, b: Dict, va: map<string, int>, vb: map<string, int>, todo: set<string>)
    requires va.Keys == a.Keys && vb.Keys == b.Keys
    reads a.Values, b.Values
  {
    && (forall k :: k in a ==> a[k].value == if k in b && k !in todo then vb[k] else va[k])
    && (forall k :: k in b ==> b[k].value == vb[k])
  }

  lemma KeyMoved(a: Dict, b: Dict, todo: set<string>, olds: Dict, news: Dict, key: string)
    requires Moved(a, b, todo, olds, news) && key in todo && (key in a || key in b)
    ensures (key in news <==> key in b) && (key in olds <==> key in a)
    ensures if key !in b then Moved(a, b, todo - {key}, olds - {key}, news)
            else if key !in a then Moved(a, b, todo - {key}, olds[key := news[key]], news - {key})
            else Moved(a, b, todo - {key}, olds, news)
  {
  }

  method OverwriteKey(key: string, o: Item, n: Item, ghost a: Dict, ghost b: Dict, ghost va: map<string, int>, ghost vb: map<string, int>,
                      ghost todo: set<string>)
    requires va.Keys == a.Keys && vb.Keys == b.Keys && ApartDicts(a, b) && Valued(a, b, va, vb, todo)
    requires key in todo && key in a && key in b && o == a[key] && n == b[key]
    modifies o
    ensures Valued(a, b, va, vb, todo - {key})
  {
    o.Overwrite(n);
  }

  method UpdateKey(olds: ItemDict, news: ItemDict, key: string, ghost a: Dict, ghost b: Dict, ghost va: map<string, int>,
                   ghost vb: map<string, int>, ghost todo: set<string>)
    requires olds != news && ApartDicts(a, b) && key in todo && (key in a || key in b)
    requires va.Keys == a.Keys && vb.Keys == b.Keys
    requires Moved(a, b, todo, olds.items, news.items) && Valued(a, b, va, vb, todo)
    modifies olds, news, a.Values
    ensures Moved(a, b, todo - {key}, olds.items, news.items) && Valued(a, b, va, vb, todo - {key})
  {
    KeyMoved(a, b, todo, olds.items, news.items, key);
    if key in news.items {
      if key !in olds.items {
        var temp := news.items[key];
        news.items := news.items - {key};
        olds.items := olds.items[key := temp];
      } else {
        assert a[key] in a.Values;
        OverwriteKey(key, olds.items[key], news.items[key], a, b, va, vb, todo);
      }
    } else {
      olds.items := olds.items - {key};
    }
  }

  lemma AllMoved(a: Dict, b: Dict, olds: Dict, news: Dict)
    requires Moved(a, b, {}, olds, news)
    ensures olds == (map k | k in b :: if k in a then a[k] else b[k])
    ensures news == (map k | k in b && k in a :: b[k])
  {
  }

  method UpdateKeys(olds: ItemDict, news: ItemDict, keys: set<string>, ghost a: Dict, ghost b: Dict, ghost va: map<string, int>,
                    ghost vb: map<string, int>)
    requires olds != news && ApartDicts(a, b) && keys <= a.Keys + b.Keys
    requires va.Keys == a.Keys && vb.Keys == b.Keys
    requires Moved(a, b, keys, olds.items, news.items) && Valued(a, b, va, vb, keys)
    modifies olds, news, a.Values
    ensures Moved(a, b, {}, olds.items, news.items) && Valued(a, b, va, vb, {})
  {
    var todo := keys;
    while todo != {}
      invariant todo <= keys
      invariant Moved(a, b, todo, olds.items, news.items) && Valued(a, b, va, vb, todo)
      decreases |todo|
    {
      var key :| key in todo;
      UpdateKey(olds, news, key, a, b, va, vb, todo);
      todo := todo - {key};
    }
  }

  // Whatever the order of the keys: old objects stay where a new one has the same
  // key, new objects without an old one are moved, the others go.
  method UpdateDict(olds: ItemDict, news: ItemDict)
    requires olds != news && ApartDicts(olds.items, news.items)
    modifies olds, news, olds.items.Values
    ensures var a, b := old(olds.items), old(news.items);
            && olds.items == (map k | k in b :: if k in a then a[k] else b[k])
            && news.items == (map k | k in b && k in a :: b[k])
            && (forall k :: k in a ==> a[k].value == if k in b then old(b[k].value) else old(a[k].value))
  {
    ghost var a, b := olds.items, news.items;
    ghost var va, vb := map k | k in a :: a[k].value, map k | k in b :: b[k].value;
    UpdateKeys(olds, news, olds.items.Keys + news.items.Keys, a, b, va, vb);
    AllMoved(a, b, olds.items, news.items);
  }

  // ----- by key, in a list -----

  function Keys(xs: seq<Item>): set<string> {
    set i | 0 <= i < |xs| :: xs[i].key
  }

  // The last object with each key.
  function ByKey(xs: seq<Item>): (m: Dict)
    ensures m.Keys == Keys(xs)
    ensures forall k :: k in m ==> m[k] in xs && m[k].key == k
  {
    if xs == [] then map[]
    else
      var n := |xs| - 1;
      var m := ByKey(xs[..n])[xs[n].key := xs[n]];
      assert xs == xs[..n] + [xs[n]];
      KeysMore(xs[..n], xs[n]);
      m
  }

  lemma {:induction false} ByKeyIsLast(xs: seq<Item>, i: nat)
    requires i < |xs| && forall j :: i < j < |xs| ==> xs[j].key != xs[i].key
    ensures xs[i].key in ByKey(xs) && ByKey(xs)[xs[i].key] == xs[i]
  {
    if i < |xs| - 1 {
      ByKeyIsLast(xs[..|xs| - 1], i);
    }
  }

  lemma KeysMore(xs: seq<Item>, x: Item)
    ensures Keys(xs + [x]) == Keys(xs) + {x.key}
  {
    var more := xs + [x];
    forall k ensures k in Keys(more) <==> k in Keys(xs) || k == x.key {
      if k in Keys(xs) {
        var i :| 0 <= i < |xs| && xs[i].key == k;
        assert more[i].key == k;
      }
      assert more[|xs|] == x;
    }
  }

  lemma HasKey(xs: seq<Item>, x: Item)
    ensures x in xs ==> x.key in Keys(xs)
  {
  }

  // The same object is not listed twice; the same key may be.
  predicate Distinct(xs: seq<Item>) {
    xs == [] || (Distinct(xs[..|xs| - 1]) && xs[|xs| - 1] !in xs[..|xs| - 1])
  }

  function Elems(xs: seq<Item>): set<Item> {
    set x | x in xs
  }

  // The objects that are not gone, in order.
  function Without(xs: seq<Item>, gone: set<Item>): seq<Item> {
    if xs == [] then []
    else
      var n := |xs| - 1;
      Without(xs[..n], gone) + if xs[n] in gone then [] else [xs[n]]
  }

  lemma {:induction false} WithoutHolds(xs: seq<Item>, gone: set<Item>, x: Item)
    ensures x in Without(xs, gone) <==> x in xs && x !in gone
  {
    if xs != [] {
      var n := |xs| - 1;
      WithoutHolds(xs[..n], gone, x);
      assert xs == xs[..n] + [xs[n]];
    }
  }

  lemma {:induction false} WithoutNone(xs: seq<Item>)
    ensures Without(xs, {}) == xs
  {
    if xs != [] {
      WithoutNone(xs[..|xs| - 1]);
    }
  }

  lemma {:induction false} WithoutMore(xs: seq<Item>, gone: set<Item>, x: Item)
    requires x !in xs
    ensures Without(xs, gone + {x}) == Without(xs, gone)
  {
    if xs != [] {
      WithoutMore(xs[..|xs| - 1], gone, x);
    }
  }

  // The list without the first occurrence of x.
  function Remove(xs: seq<Item>, x: Item): seq<Item>
    requires x in xs
  {
    if xs[0] == x then xs[1..] else [xs[0]] + Remove(xs[1..], x)
  }

  lemma {:induction false} RemoveAppend(xs: seq<Item>, ys: seq<Item>, x: Item)
    requires x in xs
    ensures x in xs + ys && Remove(xs + ys, x) == Remove(xs, x) + ys
  {
    if xs[0] != x {
      assert x in xs[1..];
      assert (xs + ys)[1..] == xs[1..] + ys;
      RemoveAppend(xs[1..], ys, x);
    } else {
      assert (xs + ys)[1..] == xs[1..] + ys;
    }
  }

  lemma {:induction false} RemoveLast(xs: seq<Item>, x: Item)
    requires x !in xs
    ensures x in xs + [x] && Remove(xs + [x], x) == xs
  {
    assert (xs + [x])[|xs|] == x;
    if xs != [] {
      assert (xs + [x])[1..] == xs[1..] + [x];
      RemoveLast(xs[1..], x);
    } else {
      assert [x][1..] == [];
    }
  }

  lemma {:induction false} RemoveIsWithout(xs: seq<Item>, gone: set<Item>, x: Item)
    requires Distinct(xs) && x in xs && x !in gone
    ensures x in Without(xs, gone) && Remove(Without(xs, gone), x) == Without(xs, gone + {x})
  {
    WithoutHolds(xs, gone, x);
    var n := |xs| - 1;
    var front := xs[..n];
    assert xs == front + [xs[n]];
    WithoutHolds(front, gone, x);
    if xs[n] == x {
      WithoutMore(front, gone, x);
      RemoveLast(Without(front, gone), x);
    } else {
      RemoveIsWithout(front, gone, x);
      RemoveAppend(Without(front, gone), if xs[n] in gone then [] else [xs[n]], x);
    }
  }

  // An order in which the keys may be visited.
  predicate Enumerates(order: seq<string>, keys: set<string>) {
    && (forall i, j :: 0 <= i < j < |order| ==> order[i] != order[j])
    && (forall k :: k in order ==> k in keys)
    && (forall k :: k in keys ==> k in order)
  }

  // The objects that have no partner with their key, in the order of the keys.
  function Unmatched(order: seq<string>, d: Dict, others: Dict): seq<Item> {
    if order == [] then []
    else
      var n := |order| - 1;
      var k := order[n];
      Unmatched(order[..n], d, others) + if k in d && k !in others then [d[k]] else []
  }

  lemma UnmatchedMore(order: seq<string>, d: Dict, others: Dict, k: string)
    ensures Unmatched(order + [k], d, others) ==
            if k in d && k !in others then Unmatched(order, d, others) + [d[k]] else Unmatched(order, d, others)
  {
    assert (order + [k])[..|order|] == order;
  }

  lemma {:induction false} UnmatchedHolds(order: seq<string>, d: Dict, others: Dict, x: Item)
    ensures x in Unmatched(order, d, others) <==> exists k :: k in order && k in d && k !in others && d[k] == x
  {
    if order != [] {
      var n := |order| - 1;
      UnmatchedHolds(order[..n], d, others, x);
      assert order == order[..n] + [order[n]];
    }
  }

  // Where the objects are once these keys have been dealt with.
  ghost predicate Reconciled(a: seq<Item>, b: seq<Item>, preserve: bool, order: seq<string>, olds: seq<Item>, news: seq<Item>) {
    var od, nd := ByKey(a), ByKey(b);
    && news == Without(b, Elems(Unmatched(order, nd, od)))
    && olds == Without(a, if preserve then {} else Elems(Unmatched(order, od, nd))) + Unmatched(order, nd, od)
  }

  lemma ReconciledStart(a: seq<Item>, b: seq<Item>, preserve: bool)
    ensures Reconciled(a, b, preserve, [], a, b)
  {
    WithoutNone(a);
    WithoutNone(b);
    assert Elems([]) == {};
  }

  lemma UnmatchedFresh(order: seq<string>, d: Dict, others: Dict, k: string)
    requires k !in order && k in d && k !in others && forall j :: j in d ==> d[j].key == j
    ensures d[k] !in Elems(Unmatched(order, d, others))
    ensures Elems(Unmatched(order + [k], d, others)) == Elems(Unmatched(order, d, others)) + {d[k]}
  {
    UnmatchedHolds(order, d, others, d[k]);
    UnmatchedMore(order, d, others, k);
  }

  lemma MoveOne(a: seq<Item>, b: seq<Item>, preserve: bool, order: seq<string>, olds: seq<Item>, news: seq<Item>, k: string)
    requires Reconciled(a, b, preserve, order, olds, news) && Distinct(b)
    requires k !in order && k in ByKey(b) && k !in ByKey(a)
    ensures var x := ByKey(b)[k];
            x in news && Reconciled(a, b, preserve, order + [k], olds + [x], Remove(news, x))
  {
    var x := ByKey(b)[k];
    UnmatchedFresh(order, ByKey(b), ByKey(a), k);
    RemoveIsWithout(b, Elems(Unmatched(order, ByKey(b), ByKey(a))), x);
    UnmatchedMore(order, ByKey(b), ByKey(a), k);
    UnmatchedMore(order, ByKey(a), ByKey(b), k);
    ItemsAssoc(Without(a, if preserve then {} else Elems(Unmatched(order, ByKey(a), ByKey(b)))), Unmatched(order, ByKey(b), ByKey(a)), [x]);
  }

  lemma ItemsAssoc(xs: seq<Item>, ys: seq<Item>, zs: seq<Item>)
    ensures xs + ys + zs == xs + (ys + zs)
  {
  }

  lemma DropOne(a: seq<Item>, b: seq<Item>, order: seq<string>, olds: seq<Item>, news: seq<Item>, k: string)
    requires Reconciled(a, b, false, order, olds, news) && Distinct(a)
    requires k !in order && k in ByKey(a) && k !in ByKey(b)
    ensures var x := ByKey(a)[k];
            x in olds && Reconciled(a, b, false, order + [k], Remove(olds, x), news)
  {
    var x := ByKey(a)[k];
    var gone := Elems(Unmatched(order, ByKey(a), ByKey(b)));
    UnmatchedFresh(order, ByKey(a), ByKey(b), k);
    RemoveIsWithout(a, gone, x);
    RemoveAppend(Without(a, gone), Unmatched(order, ByKey(b), ByKey(a)), x);
    UnmatchedMore(order, ByKey(b), ByKey(a), k);
    UnmatchedMore(order, ByKey(a), ByKey(b), k);
  }

  lemma KeepOne(a: seq<Item>, b: seq<Item>, preserve: bool, order: seq<string>, olds: seq<Item>, news: seq<Item>, k: string)
    requires Reconciled(a, b, preserve, order, olds, news) && k in ByKey(a) && (preserve || k in ByKey(b))
    ensures Reconciled(a, b, preserve, order + [k], olds, news)
  {
    UnmatchedMore(order, ByKey(b), ByKey(a), k);
    UnmatchedMore(order, ByKey(a), ByKey(b), k);
  }

  method UpdateListKey(olds: ItemList, news: ItemList, preserve: bool, k: string, oldDict: Dict, newDict: Dict,
                       ghost a: seq<Item>, ghost b: seq<Item>, ghost done: seq<string>)
    requires Distinct(a) && Distinct(b) && oldDict == ByKey(a) && newDict == ByKey(b)
    requires k !in done && (k in oldDict || k in newDict)
    requires Reconciled(a, b, preserve, done, olds.items, news.items) && olds != news
    modifies olds, news
    ensures Reconciled(a, b, preserve, done + [k], olds.items, news.items)
  {
    if k in newDict {
      if k !in oldDict {
        var temp := newDict[k];
        MoveOne(a, b, preserve, done, olds.items, news.items, k);
        news.items := Remove(news.items, temp);
        olds.items := olds.items + [temp];
      } else {
        KeepOne(a, b, preserve, done, olds.items, news.items, k);
      }
    } else if !preserve {
      DropOne(a, b, done, olds.items, news.items, k);
      olds.items := Remove(olds.items, oldDict[k]);
    } else {
      KeepOne(a, b, preserve, done, olds.items, news.items, k);
    }
  }

  method UpdateValue(k: string, a: Dict, b: Dict, ghost va: map<string, int>, ghost vb: map<string, int>, ghost todo: set<string>)
    requires ApartDicts(a, b) && va.Keys == a.Keys && vb.Keys == b.Keys && k in todo
    requires Valued(a, b, va, vb, todo)
    modifies a.Values
    ensures Valued(a, b, va, vb, todo - {k})
  {
    if k in b && k in a {
      assert a[k] in a.Values;
      OverwriteKey(k, a[k], b[k], a, b, va, vb, todo);
    }
  }

  method UpdateOne(olds: ItemList, news: ItemList, preserve: bool, k: string, oldDict: Dict, newDict: Dict, ghost a: seq<Item>,
                   ghost b: seq<Item>, ghost va: map<string, int>, ghost vb: map<string, int>, ghost todo: set<string>, ghost done: seq<string>)
    requires Distinct(a) && Distinct(b) && oldDict == ByKey(a) && newDict == ByKey(b)
    requires k in todo && k !in done && (k in oldDict || k in newDict)
    requires olds != news && ApartDicts(oldDict, newDict) && va.Keys == oldDict.Keys && vb.Keys == newDict.Keys
    requires Reconciled(a, b, preserve, done, olds.items, news.items) && Valued(oldDict, newDict, va, vb, todo)
    modifies olds, news, oldDict.Values
    ensures Reconciled(a, b, preserve, done + [k], olds.items, news.items) && Valued(oldDict, newDict, va, vb, todo - {k})
  {
    UpdateListKey(olds, news, preserve, k, oldDict, newDict, a, b, done);
    UpdateValue(k, oldDict, newDict, va, vb, todo);
  }

  // The keys still to visit.
  ghost predicate Ahead(order: seq<string>, i: nat, todo: set<string>)
    requires i <= |order|
  {
    forall k :: k in todo <==> k in order[i..]
  }

  lemma AheadOne(order: seq<string>, keys: set<string>, i: nat, todo: set<string>)
    requires Enumerates(order, keys) && i < |order| && Ahead(order, i, todo)
    ensures order[i] in todo && order[i] in keys && order[i] !in order[..i]
    ensures Ahead(order, i + 1, todo - {order[i]}) && order[..i + 1] == order[..i] + [order[i]]
  {
    assert order[i..] == [order[i]] + order[i + 1..];
  }

  lemma AheadStart(order: seq<string>, keys: set<string>)
    requires Enumerates(order, keys)
    ensures Ahead(order, 0, keys) && order[..0] == []
  {
    assert order[0..] == order;
  }

  lemma AheadEnd(order: seq<string>, todo: set<string>)
    requires Ahead(order, |order|, todo)
    ensures todo == {} && order[..|order|] == order
  {
  }

  method UpdateListKeys(olds: ItemList, news: ItemList, preserve: bool, order: seq<string>, oldDict: Dict, newDict: Dict,
                        ghost a: seq<Item>, ghost b: seq<Item>, ghost va: map<string, int>, ghost vb: map<string, int>)
    requires Distinct(a) && Distinct(b) && oldDict == ByKey(a) && newDict == ByKey(b) && Enumerates(order, oldDict.Keys + newDict.Keys)
    requires olds != news && ApartDicts(oldDict, newDict) && va.Keys == oldDict.Keys && vb.Keys == newDict.Keys
    requires Reconciled(a, b, preserve, [], olds.items, news.items) && Valued(oldDict, newDict, va, vb, oldDict.Keys + newDict.Keys)
    modifies olds, news, oldDict.Values
    ensures Reconciled(a, b, preserve, order, olds.items, news.items) && Valued(oldDict, newDict, va, vb, {})
  {
    var i := 0;
    ghost var todo := oldDict.Keys + newDict.Keys;
    AheadStart(order, todo);
    while i < |order|
      invariant 0 <= i <= |order| && Ahead(order, i, todo)
      invariant Reconciled(a, b, preserve, order[..i], olds.items, news.items) && Valued(oldDict, newDict, va, vb, todo)
    {
      UpdateAt(olds, news, preserve, order, i, oldDict, newDict, a, b, va, vb, todo);
      todo := todo - {order[i]};
      i := i + 1;
    }
    AheadEnd(order, todo);
  }

  method UpdateAt(olds: ItemList, news: ItemList, preserve: bool, order: seq<string>, i: nat, oldDict: Dict, newDict: Dict,
                  ghost a: seq<Item>, ghost b: seq<Item>, ghost va: map<string, int>, ghost vb: map<string, int>, ghost todo: set<string>)
    requires Distinct(a) && Distinct(b) && oldDict == ByKey(a) && newDict == ByKey(b) && Enumerates(order, oldDict.Keys + newDict.Keys)
    requires olds != news && ApartDicts(oldDict, newDict) && va.Keys == oldDict.Keys && vb.Keys == newDict.Keys
    requires i < |order| && Ahead(order, i, todo)
    requires Reconciled(a, b, preserve, order[..i], olds.items, news.items) && Valued(oldDict, newDict, va, vb, todo)
    modifies olds, news, oldDict.Values
    ensures Ahead(order, i + 1, todo - {order[i]})
    ensures Reconciled(a, b, preserve, order[..i + 1], olds.items, news.items)
    ensures Valued(oldDict, newDict, va, vb, todo - {order[i]})
  {
    AheadOne(order, oldDict.Keys + newDict.Keys, i, todo);
    UpdateOne(olds, news, preserve, order[i], oldDict, newDict, a, b, va, vb, todo, order[..i]);
  }

  // For every order in which the set of keys may be visited: the old objects that
  // stay keep their places, the unmatched new ones follow in the order of their
  // keys and have left the new list, and matched old objects have the new values.
  // Of several objects with one key only the last counts.
  method UpdateListWithKey(olds: ItemList, news: ItemList, preserve: bool, order: seq<string>)
    requires olds != news && Distinct(olds.items) && Distinct(news.items)
    requires ApartDicts(ByKey(olds.items), ByKey(news.items)) && Enumerates(order, Keys(olds.items) + Keys(news.items))
    modifies olds, news, ByKey(olds.items).Values
    ensures Reconciled(old(olds.items), old(news.items), preserve, order, olds.items, news.items)
    ensures var a, b := ByKey(old(olds.items)), ByKey(old(news.items));
            forall k :: k in a ==> a[k].value == if k in b then old(b[k].value) else old(a[k].value)
  {
    var oldDict, newDict := ByKey(olds.items), ByKey(news.items);
    ghost var va, vb := map k | k in oldDict :: oldDict[k].value, map k | k in newDict :: newDict[k].value;
    ReconciledStart(olds.items, news.items, preserve);
    UpdateListKeys(olds, news, preserve, order, oldDict, newDict, olds.items, news.items, va, vb);
  }

  // ----- what depends on the order of the keys -----

  lemma SameUnmatched(o1: seq<string>, o2: seq<string>, keys: set<string>, d: Dict, others: Dict)
    requires Enumerates(o1, keys) && Enumerates(o2, keys)
    ensures Elems(Unmatched(o1, d, others)) == Elems(Unmatched(o2, d, others))
  {
    HeldAlike(o1, o2, keys, d, others);
    HeldAlike(o2, o1, keys, d, others);
  }

  lemma HeldAlike(o1: seq<string>, o2: seq<string>, keys: set<string>, d: Dict, others: Dict)
    requires Enumerates(o1, keys) && Enumerates(o2, keys)
    ensures Elems(Unmatched(o1, d, others)) <= Elems(Unmatched(o2, d, others))
  {
    forall x | x in Elems(Unmatched(o1, d, others)) ensures x in Elems(Unmatched(o2, d, others)) {
      UnmatchedHolds(o1, d, others, x);
      UnmatchedHolds(o2, d, others, x);
    }
  }

  // The new list and the old objects that stay do not depend on it.
  lemma OrderMovesOnly(a: seq<Item>, b: seq<Item>, preserve: bool, o1: seq<string>, olds1: seq<Item>, news1: seq<Item>,
                       o2: seq<string>, olds2: seq<Item>, news2: seq<Item>)
    requires Enumerates(o1, Keys(a) + Keys(b)) && Enumerates(o2, Keys(a) + Keys(b))
    requires Reconciled(a, b, preserve, o1, olds1, news1) && Reconciled(a, b, preserve, o2, olds2, news2)
    ensures news1 == news2
    ensures olds1 == olds2 <==> Unmatched(o1, ByKey(b), ByKey(a)) == Unmatched(o2, ByKey(b), ByKey(a))
  {
    SameUnmatched(o1, o2, Keys(a) + Keys(b), ByKey(b), ByKey(a));
    SameUnmatched(o1, o2, Keys(a) + Keys(b), ByKey(a), ByKey(b));
    var stay := Without(a, if preserve then {} else Elems(Unmatched(o1, ByKey(a), ByKey(b))));
    SameFront(stay, Unmatched(o1, ByKey(b), ByKey(a)), Unmatched(o2, ByKey(b), ByKey(a)));
  }

  lemma SameFront(front: seq<Item>, xs: seq<Item>, ys: seq<Item>)
    ensures front + xs == front + ys <==> xs == ys
  {
    if front + xs == front + ys {
      assert xs == (front + xs)[|front|..] && ys == (front + ys)[|front|..];
    }
  }

  // The keys of the new objects that have no old one.
  function NewKeys(a: seq<Item>, b: seq<Item>): set<string> {
    Keys(b) - Keys(a)
  }

  lemma {:induction false} NoUnmatched(order: seq<string>, d: Dict, others: Dict)
    requires forall k :: k in order ==> k !in d || k in others
    ensures Unmatched(order, d, others) == []
  {
    if order != [] {
      var n := |order| - 1;
      assert order == order[..n] + [order[n]];
      NoUnmatched(order[..n], d, others);
    }
  }

  lemma {:induction false} OneUnmatched(order: seq<string>, keys: set<string>, d: Dict, others: Dict, k: string)
    requires Enumerates(order, keys) && k in d && k !in others
    requires forall j :: j in order && j in d && j !in others ==> j == k
    ensures Unmatched(order, d, others) == if k in order then [d[k]] else []
  {
    if order != [] {
      var n := |order| - 1;
      assert order == order[..n] + [order[n]];
      if order[n] == k {
        assert k !in order[..n];
        NoUnmatched(order[..n], d, others);
      } else {
        assert Enumerates(order[..n], keys - {order[n]});
        OneUnmatched(order[..n], keys - {order[n]}, d, others, k);
      }
    }
  }

  // One new object at most to move: every order moves the same.
  lemma FewMoveAlike(a: seq<Item>, b: seq<Item>, o1: seq<string>, o2: seq<string>)
    requires Enumerates(o1, Keys(a) + Keys(b)) && Enumerates(o2, Keys(a) + Keys(b)) && |NewKeys(a, b)| <= 1
    ensures Unmatched(o1, ByKey(b), ByKey(a)) == Unmatched(o2, ByKey(b), ByKey(a))
  {
    if NewKeys(a, b) == {} {
      assert forall k :: k in ByKey(b) ==> k !in NewKeys(a, b);
      NoUnmatched(o1, ByKey(b), ByKey(a));
      NoUnmatched(o2, ByKey(b), ByKey(a));
    } else {
      var k := Pick(NewKeys(a, b));
      OnlyOne(NewKeys(a, b), k);
      assert forall j :: j in ByKey(b) && j !in ByKey(a) ==> j in NewKeys(a, b);
      OneUnmatched(o1, Keys(a) + Keys(b), ByKey(b), ByKey(a), k);
      OneUnmatched(o2, Keys(a) + Keys(b), ByKey(b), ByKey(a), k);
    }
  }

  lemma OnlyOne(s: set<string>, k: string)
    requires k in s && |s| <= 1
    ensures s == {k}
  {
    assert |s - {k}| == |s| - 1;
  }

  ghost function SomeOrder(keys: set<string>): (order: seq<string>)
    ensures Enumerates(order, keys)
    decreases |keys|
  {
    if keys == {} then []
    else
      var k := Pick(keys);
      SomeOrder(keys - {k}) + [k]
  }

  lemma EnumeratesMore(order: seq<string>, keys: set<string>, k: string)
    requires Enumerates(order, keys) && k !in keys
    ensures Enumerates(order + [k], keys + {k})
  {
  }

  // Two new objects to move: some two orders move them differently.
  lemma TwoMoveApart(a: seq<Item>, b: seq<Item>, x: string, y: string) returns (o1: seq<string>, o2: seq<string>)
    requires x in NewKeys(a, b) && y in NewKeys(a, b) && x != y
    ensures Enumerates(o1, Keys(a) + Keys(b)) && Enumerates(o2, Keys(a) + Keys(b))
    ensures Unmatched(o1, ByKey(b), ByKey(a)) != Unmatched(o2, ByKey(b), ByKey(a))
  {
    var keys := Keys(a) + Keys(b);
    var o := SomeOrder(keys - {x, y});
    assert keys - {x, y} == keys - {y, x};
    TwoAtEnd(o, keys, x, y);
    TwoAtEnd(o, keys, y, x);
    o1, o2 := o + [x] + [y], o + [y] + [x];
    LastMoved(o + [x], ByKey(b), ByKey(a), y);
    LastMoved(o + [y], ByKey(b), ByKey(a), x);
    assert ByKey(b)[x] != ByKey(b)[y];
  }

  lemma TwoAtEnd(order: seq<string>, keys: set<string>, x: string, y: string)
    requires Enumerates(order, keys - {x, y}) && x in keys && y in keys && x != y
    ensures Enumerates(order + [x] + [y], keys)
  {
    EnumeratesMore(order, keys - {x, y}, x);
    assert keys - {x, y} + {x} == keys - {y};
    EnumeratesMore(order + [x], keys - {y}, y);
    assert keys - {y} + {y} == keys;
  }

  lemma LastMoved(order: seq<string>, d: Dict, others: Dict, k: string)
    requires k in d && k !in others
    ensures var m := Unmatched(order + [k], d, others);
            m != [] && m[|m| - 1] == d[k]
  {
    UnmatchedMore(order, d, others, k);
  }

  ghost predicate MovesAlike(a: seq<Item>, b: seq<Item>) {
    forall o1, o2 :: Enumerates(o1, Keys(a) + Keys(b)) && Enumerates(o2, Keys(a) + Keys(b)) ==>
      Unmatched(o1, ByKey(b), ByKey(a)) == Unmatched(o2, ByKey(b), ByKey(a))
  }

  // The old list ends the same for every order of the keys exactly when at most
  // one new key has no old object.
  lemma OrderIrrelevantIff(a: seq<Item>, b: seq<Item>)
    ensures MovesAlike(a, b) <==> |NewKeys(a, b)| <= 1
  {
    if |NewKeys(a, b)| <= 1 {
      forall o1, o2 | Enumerates(o1, Keys(a) + Keys(b)) && Enumerates(o2, Keys(a) + Keys(b))
        ensures Unmatched(o1, ByKey(b), ByKey(a)) == Unmatched(o2, ByKey(b), ByKey(a))
      {
        FewMoveAlike(a, b, o1, o2);
      }
    } else {
      var x := Pick(NewKeys(a, b));
      assert |NewKeys(a, b) - {x}| == |NewKeys(a, b)| - 1;
      var y := Pick(NewKeys(a, b) - {x});
      var o1, o2 := TwoMoveApart(a, b, x, y);
    }
  }

  // ----- the keys in the end -----

  // Some key occurs on two objects.
  predicate Repeats(xs: seq<Item>, k: string) {
    exists i, j :: 0 <= i < j < |xs| && xs[i].key == k && xs[j].key == k
  }

  lemma {:induction false} DistinctApart(xs: seq<Item>, i: nat, j: nat)
    requires Distinct(xs) && i < j < |xs|
    ensures xs[i] != xs[j]
  {
    var n := |xs| - 1;
    if j < n {
      DistinctApart(xs[..n], i, j);
    } else {
      assert xs[..n][i] == xs[i];
    }
  }

  // Dropping the last object with each key that is gone leaves the key exactly
  // when it occurs on another one.
  lemma SurvivingKey(a: seq<Item>, d: Dict, gone: set<Item>, k: string)
    requires Distinct(a) && d == ByKey(a) && k in d
    requires forall x :: x in gone ==> x in a && d[x.key] == x
    ensures k in Keys(Without(a, gone)) <==> d[k] !in gone || Repeats(a, k)
  {
    var w := Without(a, gone);
    if k in Keys(w) {
      var i :| 0 <= i < |w| && w[i].key == k;
      WithoutHolds(a, gone, w[i]);
      var p :| 0 <= p < |a| && a[p] == w[i];
      var q :| 0 <= q < |a| && a[q] == d[k];
      assert p != q ==> Repeats(a, k);
    }
    if d[k] !in gone {
      WithoutHolds(a, gone, d[k]);
      HasKey(w, d[k]);
    } else if i, j :| 0 <= i < j < |a| && a[i].key == k && a[j].key == k {
      DistinctApart(a, i, j);
      var x := if a[i] == d[k] then a[j] else a[i];
      WithoutHolds(a, gone, x);
      HasKey(w, x);
    }
  }

  lemma DroppedAre(order: seq<string>, keys: set<string>, d: Dict, others: Dict, x: Item)
    requires Enumerates(order, keys) && d.Keys <= keys && forall k :: k in d ==> d[k].key == k
    ensures x in Elems(Unmatched(order, d, others)) <==> x.key in d && x.key !in others && d[x.key] == x
  {
    UnmatchedHolds(order, d, others, x);
  }

  lemma MovedKeys(order: seq<string>, keys: set<string>, d: Dict, others: Dict)
    requires Enumerates(order, keys) && d.Keys <= keys && forall k :: k in d ==> d[k].key == k
    ensures Keys(Unmatched(order, d, others)) == d.Keys - others.Keys
  {
    var moved := Unmatched(order, d, others);
    forall k ensures k in Keys(moved) <==> k in d && k !in others {
      if k in Keys(moved) {
        var i :| 0 <= i < |moved| && moved[i].key == k;
        DroppedAre(order, keys, d, others, moved[i]);
      }
      if k in d && k !in others {
        DroppedAre(order, keys, d, others, d[k]);
        HasKey(moved, d[k]);
      }
    }
  }

  lemma KeysOfSum(xs: seq<Item>, ys: seq<Item>)
    ensures Keys(xs + ys) == Keys(xs) + Keys(ys)
  {
    var all := xs + ys;
    forall k ensures k in Keys(all) <==> k in Keys(xs) || k in Keys(ys) {
      if k in Keys(xs) {
        var i :| 0 <= i < |xs| && xs[i].key == k;
        assert all[i].key == k;
      }
      if k in Keys(ys) {
        var i :| 0 <= i < |ys| && ys[i].key == k;
        assert all[|xs| + i].key == k;
      }
    }
  }

  // Which keys the old list ends up with: those of the new one, and its own that
  // are preserved or occur on several objects.
  lemma KeysInTheEnd(a: seq<Item>, b: seq<Item>, preserve: bool, order: seq<string>, olds: seq<Item>, news: seq<Item>, k: string)
    requires Distinct(a) && Enumerates(order, Keys(a) + Keys(b)) && Reconciled(a, b, preserve, order, olds, news)
    ensures k in Keys(olds) <==> k in Keys(b) || (k in Keys(a) && (preserve || Repeats(a, k)))
  {
    var od, nd := ByKey(a), ByKey(b);
    var gone := if preserve then {} else Elems(Unmatched(order, od, nd));
    KeysOfSum(Without(a, gone), Unmatched(order, nd, od));
    MovedKeys(order, Keys(a) + Keys(b), nd, od);
    forall x: Item | x in gone ensures x in a && x.key in od && od[x.key] == x && x.key !in nd {
      DroppedAre(order, Keys(a) + Keys(b), od, nd, x);
    }
    if k in od {
      SurvivingKey(a, od, gone, k);
      DroppedAre(order, Keys(a) + Keys(b), od, nd, od[k]);
    } else {
      StrangeKey(a, gone, k);
    }
  }

  lemma StrangeKey(a: seq<Item>, gone: set<Item>, k: string)
    requires k !in Keys(a)
    ensures k !in Keys(Without(a, gone))
  {
    var w := Without(a, gone);
    if k in Keys(w) {
      var i :| 0 <= i < |w| && w[i].key == k;
      WithoutHolds(a, gone, w[i]);
      HasKey(a, w[i]);
    }
  }

  // The old list ends with exactly the keys of the new one if and only if no key
  // that should go occurs on several old objects.
  lemma KeysMatchIff(a: seq<Item>, b: seq<Item>, order: seq<string>, olds: seq<Item>, news: seq<Item>)
    requires Distinct(a) && Enumerates(order, Keys(a) + Keys(b)) && Reconciled(a, b, false, order, olds, news)
    ensures Keys(olds) == Keys(b) <==> forall k :: k in Keys(a) && k !in Keys(b) ==> !Repeats(a, k)
  {
    forall k ensures k in Keys(olds) <==> k in Keys(b) || (k in Keys(a) && Repeats(a, k)) {
      KeysInTheEnd(a, b, false, order, olds, news, k);
    }
  }
}
