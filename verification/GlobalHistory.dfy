// The history of all scores: a merge of the histories of the single scores
// through a priority queue (src/cmsranking/Scoring.py:391-416).
module GlobalHistories {
  import opened Basics
  import opened ScoreReplay
  import opened ScoreLaws
  import opened ChangeOrder
  import opened ScoreIndex
  import opened ScoringStores

  type Histories = map<Pair, seq<Entry>>

  datatype Row = Row(pair: Pair, entry: Entry)

  // An element of the queue: the next entry of one pair.
  datatype Item = Item(pair: Pair, index: nat, entry: Entry)

  // The rows of one pair, in order.
  function Project(rows: seq<Row>, p: Pair): seq<Entry> {
    if rows == [] then []
    else
      var n := |rows| - 1;
      Project(rows[..n], p) + if rows[n].pair == p then [rows[n].entry] else []
  }

  lemma ProjectMore(rows: seq<Row>, row: Row, p: Pair)
    ensures Project(rows + [row], p) == Project(rows, p) + if row.pair == p then [row.entry] else []
  {
    assert (rows + [row])[..|rows|] == rows;
  }

  predicate RowsInTime(rows: seq<Row>) {
    forall i, j :: 0 <= i <= j < |rows| ==> rows[i].entry.time <= rows[j].entry.time
  }

  // Tuples compare field by field.
  predicate Less(a: Item, b: Item) {
    if a.entry.time != b.entry.time then a.entry.time < b.entry.time
    else if a.entry.score != b.entry.score then a.entry.score < b.entry.score
    else if a.pair.user != b.pair.user then StrLess(a.pair.user, b.pair.user)
    else StrLess(a.pair.task, b.pair.task)
  }

  lemma LessTotal(a: Item, b: Item)
    ensures Less(a, b) || Less(b, a) || a.pair == b.pair
  {
    StrLessTotal(a.pair.user, b.pair.user);
    StrLessTotal(a.pair.task, b.pair.task);
  }

  lemma LessTransitive(a: Item, b: Item, c: Item)
    requires Less(a, b) && Less(b, c)
    ensures Less(a, c)
  {
    if StrLess(a.pair.user, b.pair.user) && StrLess(b.pair.user, c.pair.user) {
      StrLessTransitive(a.pair.user, b.pair.user, c.pair.user);
      StrLessIrreflexive(a.pair.user);
    }
    if StrLess(a.pair.task, b.pair.task) && StrLess(b.pair.task, c.pair.task) {
      StrLessTransitive(a.pair.task, b.pair.task, c.pair.task);
    }
  }

  // Take the least element out of the queue.
  method PopLeast(queue: set<Item>) returns (least: Item, rest: set<Item>)
    requires queue != {}
    requires forall a, b :: a in queue && b in queue && a.pair == b.pair ==> a == b
    ensures least in queue && rest == queue - {least}
    ensures forall b :: b in rest ==> Less(least, b)
  {
    least :| least in queue;
    var todo := queue - {least};
    while todo != {}
      invariant todo <= queue && least in queue && least !in todo
      invariant forall b :: b in queue && b !in todo && b != least ==> Less(least, b)
      decreases |todo|
    {
      var b :| b in todo;
      todo := todo - {b};
      LessTotal(least, b);
      if Less(b, least) {
        forall c | c in queue && c !in todo && c != b && c != least ensures Less(b, c) {
          LessTransitive(b, least, c);
        }
        least := b;
      }
    }
    rest := queue - {least};
  }

  // ----- how far the merge has come -----

  type Progress = map<Pair, nat>

  predicate Counts(hs: Histories, at: Progress) {
    at.Keys == hs.Keys && forall p :: p in hs ==> at[p] <= |hs[p]|
  }

  // One element for every history that is not finished.
  ghost function Pending(hs: Histories, at: Progress): set<Item>
    requires Counts(hs, at)
  {
    set p | p in hs && at[p] < |hs[p]| :: Item(p, at[p], hs[p][at[p]])
  }

  lemma PendingAfter(hs: Histories, at: Progress, x: Item)
    requires Counts(hs, at) && x in Pending(hs, at)
    ensures x.pair in hs && x.index == at[x.pair] < |hs[x.pair]| && x.entry == hs[x.pair][x.index]
    ensures var next := at[x.pair := x.index + 1];
            && Counts(hs, next)
            && Pending(hs, next) == Pending(hs, at) - {x} +
                 if x.index + 1 < |hs[x.pair]| then {Item(x.pair, x.index + 1, hs[x.pair][x.index + 1])} else {}
  {
    var next := at[x.pair := x.index + 1];
    var l := Pending(hs, next);
    var r := Pending(hs, at) - {x} + if x.index + 1 < |hs[x.pair]| then {Item(x.pair, x.index + 1, hs[x.pair][x.index + 1])} else {};
    forall y ensures y in l <==> y in r {
      if y.pair in hs && y.pair != x.pair {
        assert next[y.pair] == at[y.pair];
      }
    }
  }

  // The rows so far are the beginnings of the histories.
  ghost predicate Begun(hs: Histories, at: Progress, rows: seq<Row>)
    requires Counts(hs, at)
  {
    forall p :: Project(rows, p) == if p in hs then hs[p][..at[p]] else []
  }

  ghost predicate AllGrow(hs: Histories) {
    forall p :: p in hs ==> TimesGrow(hs[p])
  }

  // Nothing that is still to come is older than the rows so far.
  predicate NoOlder(queue: set<Item>, rows: seq<Row>) {
    forall x, i :: x in queue && 0 <= i < |rows| ==> rows[i].entry.time <= x.entry.time
  }

  // One row for pair p more.
  lemma RowFor(h: seq<Entry>, n: nat, rows: seq<Row>, p: Pair)
    requires n < |h| && Project(rows, p) == h[..n]
    ensures Project(rows + [Row(p, h[n])], p) == h[..n + 1]
  {
    ProjectMore(rows, Row(p, h[n]), p);
    assert h[..n + 1] == h[..n] + [h[n]];
  }

  lemma RowForOther(rows: seq<Row>, row: Row, p: Pair)
    requires row.pair != p
    ensures Project(rows + [row], p) == Project(rows, p)
  {
    ProjectMore(rows, row, p);
  }

  lemma RowAdded(hs: Histories, at: Progress, rows: seq<Row>, x: Item)
    requires Counts(hs, at) && Begun(hs, at, rows) && x in Pending(hs, at)
    ensures x.pair in hs && Counts(hs, at[x.pair := x.index + 1])
    ensures Begun(hs, at[x.pair := x.index + 1], rows + [Row(x.pair, x.entry)])
  {
    PendingAfter(hs, at, x);
    var next, row := at[x.pair := x.index + 1], Row(x.pair, x.entry);
    forall p ensures Project(rows + [row], p) == if p in hs then hs[p][..next[p]] else [] {
      if p == x.pair {
        RowFor(hs[p], x.index, rows, p);
      } else {
        RowForOther(rows, row, p);
      }
    }
  }

  lemma StillInTime(hs: Histories, at: Progress, rows: seq<Row>, x: Item)
    requires Counts(hs, at) && x in Pending(hs, at) && AllGrow(hs)
    requires RowsInTime(rows) && NoOlder(Pending(hs, at), rows)
    requires forall y :: y in Pending(hs, at) && y != x ==> Less(x, y)
    ensures x.pair in hs && Counts(hs, at[x.pair := x.index + 1])
    ensures RowsInTime(rows + [Row(x.pair, x.entry)])
    ensures NoOlder(Pending(hs, at[x.pair := x.index + 1]), rows + [Row(x.pair, x.entry)])
  {
    PendingAfter(hs, at, x);
  }

  // What is left to yield.
  ghost function Left(hs: Histories, at: Progress): nat
    requires Counts(hs, at)
    decreases |hs|
  {
    if hs.Keys == {} then 0
    else
      var p := Pick(hs.Keys);
      |hs[p]| - at[p] + Left(hs - {p}, at - {p})
  }

  lemma UpdateHere(at: Progress, p: Pair, n: nat)
    ensures at[p := n] - {p} == at - {p}
  {
  }

  lemma UpdateElsewhere(at: Progress, p: Pair, q: Pair, n: nat)
    requires p != q
    ensures at[p := n] - {q} == (at - {q})[p := n]
  {
  }

  lemma LeftShrinks(hs: Histories, at: Progress, p: Pair)
    requires Counts(hs, at) && p in hs && at[p] < |hs[p]|
    ensures Counts(hs, at[p := at[p] + 1])
    ensures Left(hs, at[p := at[p] + 1]) == Left(hs, at) - 1
    decreases |hs|
  {
    var q := Pick(hs.Keys);
    var next := at[p := at[p] + 1];
    LeftOf(hs, at, q);
    LeftOf(hs, next, q);
    if q == p {
      UpdateHere(at, p, at[p] + 1);
    } else {
      UpdateElsewhere(at, p, q, at[p] + 1);
      LeftShrinks(hs - {q}, at - {q}, p);
    }
  }

  lemma LeftOf(hs: Histories, at: Progress, q: Pair)
    requires Counts(hs, at) && hs.Keys != {} && q == Pick(hs.Keys)
    ensures Counts(hs - {q}, at - {q}) && Left(hs, at) == |hs[q]| - at[q] + Left(hs - {q}, at - {q})
  {
  }

  // The first entry of every history that has one.
  method FirstEntries(hs: Histories) returns (queue: set<Item>)
    ensures Counts(hs, map p | p in hs :: 0)
    ensures queue == Pending(hs, map p | p in hs :: 0)
  {
    ghost var at := map p | p in hs :: 0;
    queue := {};
    var todo := hs.Keys;
    while todo != {}
      invariant todo <= hs.Keys
      invariant forall x :: x in queue <==> x in Pending(hs, at) && x.pair !in todo
      decreases |todo|
    {
      var p :| p in todo;
      if hs[p] != [] {
        queue := queue + {Item(p, 0, hs[p][0])};
      }
      todo := todo - {p};
    }
    assert forall x :: x in queue <==> x in Pending(hs, at);
  }

  // The state of the merge: the queue holds what comes next of every history, and
  // the rows are in time if the histories are.
  ghost predicate Merging(hs: Histories, at: Progress, queue: set<Item>, rows: seq<Row>) {
    && Counts(hs, at) && queue == Pending(hs, at) && Begun(hs, at, rows)
    && (AllGrow(hs) ==> RowsInTime(rows) && NoOlder(queue, rows))
  }

  // The queue once x has been replaced by its successor.
  function Advanced(hs: Histories, rest: set<Item>, x: Item): set<Item>
    requires x.pair in hs
  {
    if |hs[x.pair]| > x.index + 1 then rest + {Item(x.pair, x.index + 1, hs[x.pair][x.index + 1])} else rest
  }

  lemma MergeStep(hs: Histories, at: Progress, queue: set<Item>, rows: seq<Row>, x: Item)
    requires Merging(hs, at, queue, rows) && x in queue
    requires forall y :: y in queue && y != x ==> Less(x, y)
    ensures x.pair in hs && Counts(hs, at[x.pair := x.index + 1])
    ensures Merging(hs, at[x.pair := x.index + 1], Advanced(hs, queue - {x}, x), rows + [Row(x.pair, x.entry)])
  {
    PendingAfter(hs, at, x);
    RowAdded(hs, at, rows, x);
    if AllGrow(hs) {
      StillInTime(hs, at, rows, x);
    }
  }

  lemma LessLeft(hs: Histories, at: Progress, x: Item)
    requires Counts(hs, at) && x in Pending(hs, at)
    ensures x.pair in hs && Counts(hs, at[x.pair := x.index + 1]) && Left(hs, at[x.pair := x.index + 1]) < Left(hs, at)
  {
    LeftShrinks(hs, at, x.pair);
  }

  lemma NothingPending(hs: Histories, at: Progress)
    requires Counts(hs, at)
    ensures Pending(hs, at) == {} ==> forall p :: p in hs ==> at[p] == |hs[p]|
  {
    forall p | p in hs && at[p] < |hs[p]| ensures Pending(hs, at) != {} {
      assert Item(p, at[p], hs[p][at[p]]) in Pending(hs, at);
    }
  }

  lemma NothingLeft(hs: Histories, at: Progress, rows: seq<Row>)
    requires Merging(hs, at, {}, rows)
    ensures forall p :: Project(rows, p) == if p in hs then hs[p] else []
  {
    NothingPending(hs, at);
    forall p ensures Project(rows, p) == if p in hs then hs[p] else [] {
      assert p in hs ==> hs[p][..at[p]] == hs[p];
    }
  }

  // An entry of a projection stands in some row.
  lemma {:induction false} ProjectedFrom(rows: seq<Row>, p: Pair, e: Entry)
    requires e in Project(rows, p)
    ensures Row(p, e) in rows
  {
    var n := |rows| - 1;
    if e in Project(rows[..n], p) {
      ProjectedFrom(rows[..n], p, e);
    } else {
      assert rows[n] == Row(p, e);
    }
  }

  lemma {:induction false} ProjectGrows(rows: seq<Row>, p: Pair)
    requires RowsInTime(rows)
    ensures TimesGrow(Project(rows, p))
  {
    if rows != [] {
      var n := |rows| - 1;
      ProjectGrows(rows[..n], p);
      forall e | e in Project(rows[..n], p) ensures e.time <= rows[n].entry.time {
        ProjectedFrom(rows[..n], p, e);
      }
    }
  }

  // Every row belongs to one history, every history is there completely and in
  // order, and the rows are ordered by time exactly if every history is.
  method Merge(hs: Histories) returns (rows: seq<Row>)
    ensures forall p :: Project(rows, p) == if p in hs then hs[p] else []
    ensures RowsInTime(rows) <==> AllGrow(hs)
    ensures LeastFirst(hs, rows)
  {
    rows := [];
    ghost var at: Progress := map p | p in hs :: 0;
    var queue := FirstEntries(hs);
    while queue != {}
      invariant Merging(hs, at, queue, rows) && LeastFirst(hs, rows)
      decreases Left(hs, at)
    {
      OnePerPair(hs, at);
      var x, rest := PopLeast(queue);
      MergeStep(hs, at, queue, rows, x);
      LeastMore(hs, at, queue, rows, x);
      LessLeft(hs, at, x);
      rows := rows + [Row(x.pair, x.entry)];
      at := at[x.pair := x.index + 1];
      queue := rest;
      if |hs[x.pair]| > x.index + 1 {
        queue := queue + {Item(x.pair, x.index + 1, hs[x.pair][x.index + 1])};
      }
    }
    NothingLeft(hs, at, rows);
    InTimeOnlyIf(hs, rows);
  }

  // The next entry of a history, after what the rows so far have of it.
  predicate HeadAfter(hs: Histories, rows: seq<Row>, p: Pair, x: Item) {
    p in hs && |Project(rows, p)| < |hs[p]| && x == Item(p, |Project(rows, p)|, hs[p][|Project(rows, p)|])
  }

  // Every row is the least of the next entries: by time, then by score, then by user
  // and task.
  ghost predicate LeastFirst(hs: Histories, rows: seq<Row>) {
    forall i, p, x, y :: 0 <= i < |rows| && HeadAfter(hs, rows[..i], rows[i].pair, x) && HeadAfter(hs, rows[..i], p, y) && p != rows[i].pair ==>
      Precedes(x, y)
  }

  predicate Precedes(x: Item, y: Item) {
    || x.entry.time < y.entry.time
    || (x.entry.time == y.entry.time && x.entry.score < y.entry.score)
    || (x.entry == y.entry && (StrLess(x.pair.user, y.pair.user) || (x.pair.user == y.pair.user && StrLess(x.pair.task, y.pair.task))))
  }

  lemma LeastMore(hs: Histories, at: Progress, queue: set<Item>, rows: seq<Row>, x: Item)
    requires Merging(hs, at, queue, rows) && LeastFirst(hs, rows) && x in queue
    requires forall y :: y in queue && y != x ==> Less(x, y)
    ensures LeastFirst(hs, rows + [Row(x.pair, x.entry)])
  {
    var more := rows + [Row(x.pair, x.entry)];
    forall i, p, v, w | 0 <= i < |more| && HeadAfter(hs, more[..i], more[i].pair, v) && HeadAfter(hs, more[..i], p, w) && p != more[i].pair
      ensures Precedes(v, w)
    {
      assert more[..i] == rows[..i];
      if i < |rows| {
        assert more[i] == rows[i];
      }
      if i == |rows| {
        assert rows[..i] == rows;
        HeadIsPending(hs, at, rows, p, w);
        HeadIsPending(hs, at, rows, x.pair, v);
        assert v == x;
      }
    }
  }

  lemma HeadIsPending(hs: Histories, at: Progress, rows: seq<Row>, p: Pair, y: Item)
    requires Counts(hs, at) && Begun(hs, at, rows) && HeadAfter(hs, rows, p, y)
    ensures y in Pending(hs, at) && y == Item(p, at[p], hs[p][at[p]])
  {
    assert |Project(rows, p)| == at[p];
  }

  lemma InTimeOnlyIf(hs: Histories, rows: seq<Row>)
    requires forall p :: Project(rows, p) == if p in hs then hs[p] else []
    ensures RowsInTime(rows) ==> AllGrow(hs)
  {
    if RowsInTime(rows) {
      forall p | p in hs ensures TimesGrow(hs[p]) {
        ProjectGrows(rows, p);
      }
    }
  }

  lemma OnePerPair(hs: Histories, at: Progress)
    requires Counts(hs, at)
    ensures forall a, b :: a in Pending(hs, at) && b in Pending(hs, at) && a.pair == b.pair ==> a == b
  {
  }

  // ----- the histories of the scoring store -----

  ghost predicate Follows(rows: seq<Row>, idx: Index) {
    forall p :: Project(rows, p) == if p in idx then idx[p].view.history else []
  }

  lemma SortedTimesGrow(cs: seq<Change>)
    requires Sorted(cs)
    ensures ChangeTimesGrow(cs)
  {
  }

  // In a scoring store that agrees with its tables every history is in time.
  lemma AgreeingHistoriesGrow(idx: Index, subs: map<string, Submission>, chs: map<string, Change>, modes: map<string, Mode>, p: Pair)
    requires Agrees(idx, subs, chs, modes) && p in idx
    ensures TimesGrow(idx[p].view.history)
  {
    ScoreReflects(subs, chs, modes[p.task], p);
    SortedTimesGrow(idx[p].changes);
    ReplayTimesGrow(modes[p.task], SubsOf(subs, p), idx[p].changes);
  }

  // The histories of all scores together; in time whenever the store agrees with
  // some tables.
  method GlobalHistory(store: ScoringStore) returns (rows: seq<Row>)
    requires store.Valid()
    ensures Follows(rows, store.index)
    ensures forall subs, chs, modes :: Agrees(store.index, subs, chs, modes) ==> RowsInTime(rows)
  {
    assert forall p :: p in store.index ==> store.Holds(p);
    var hs := map p | p in store.scores :: store.scores[p].history;
    assert forall p :: p in hs ==> hs[p] == store.index[p].view.history;
    rows := Merge(hs);
    forall subs, chs, modes | Agrees(store.index, subs, chs, modes) ensures RowsInTime(rows) {
      forall p | p in hs ensures TimesGrow(hs[p]) {
        AgreeingHistoriesGrow(store.index, subs, chs, modes, p);
      }
    }
  }
}
