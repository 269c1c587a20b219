// One client of the event stream over whole runs: it subscribes, receives,
// loses its connection and comes back with the id of the last event it got
// (src/cmscommon/eventsource.py:98-151, src/cmscommon/eventsource.py:345-370).
module EventRuns {
  import opened Basics
  import opened EventFormat
  import opened EventStream

  // What happens to a client: it begins anew, with the id of a snapshot or with
  // none, or it gets something from the stream.
  datatype Receipt = Began(at: nat) | Got(chunk: Chunk)

  // log: every item ever put; cache: what the publisher still has of it;
  // queue: what the connection of the client still holds, if there is one;
  // got and lastId: what the client has; seen: how many items of the log it
  // has been told of or been told to reload.
  datatype State = State(now: nat, log: seq<Item>, cache: seq<Item>, queue: Option<seq<Chunk>>,
                         got: seq<Receipt>, lastId: Option<string>, seen: nat)

  datatype Step =
    | Tick(to: nat)
    | Put(x: Item)
    | Begin(id: Option<string>)
    | Resume
    | Deliver
    | Disconnect
    | Restart

  const INITIAL := State(0, [], [], None, [], None, 0)

  // The items with a key up to this one.
  function Count(xs: seq<Item>, key: nat): nat {
    if xs == [] then 0
    else
      var n := |xs| - 1;
      Count(xs[..n], key) + if xs[n].key > key then 0 else 1
  }

  // Keys come from a clock that never stands still between two puts; a snapshot
  // is not taken in the future; who comes back has been there before, with an id
  // or without one.
  predicate Enabled(s: State, step: Step) {
    match step
    case Tick(to) => s.now <= to
    case Put(x) => s.now < x.key && LegalName(x.event)
    case Begin(id) => s.queue.None? && (KeyOf(id).Some? ==> KeyOf(id).value <= s.now)
    case Resume => s.queue.None? && s.got != []
    case Deliver => s.queue.Some? && s.queue.value != []
    case Disconnect => s.queue.Some?
    case Restart => true
  }

  // How far a fresh client is: it has seen what its snapshot covers.
  function SeenBy(log: seq<Item>, last: Option<nat>): nat {
    if last.None? then |log| else Count(log, last.value)
  }

  function Next(s: State, size: nat, step: Step): State
    requires Enabled(s, step)
  {
    match step
    case Tick(to) => s.(now := to)
    case Put(x) =>
      s.(now := x.key, log := s.log + [x], cache := Pushed(s.cache, size, x),
         queue := if s.queue.Some? then Some(s.queue.value + [ChunkOf(x)]) else None)
    case Begin(id) =>
      var at := SeenBy(s.log, KeyOf(id));
      s.(queue := Some(Backlog(s.cache, KeyOf(id))), got := s.got + [Began(at)], lastId := id, seen := at)
    case Resume => s.(queue := Some(Backlog(s.cache, KeyOf(s.lastId))))
    case Deliver =>
      var c, rest := s.queue.value[0], s.queue.value[1..];
      s.(queue := Some(rest), got := s.got + [Got(c)],
         lastId := if c.Sent? then Some(c.id) else s.lastId,
         seen := if c.Sent? then s.seen + 1 else if |rest| <= |s.log| then |s.log| - |rest| else s.seen)
    case Disconnect => s.(queue := None)
    case Restart => s.(cache := [], queue := None)
  }

  predicate LegalRun(s: State, size: nat, steps: seq<Step>)
    decreases |steps|
  {
    steps == [] || (Enabled(s, steps[0]) && LegalRun(Next(s, size, steps[0]), size, steps[1..]))
  }

  function Run(s: State, size: nat, steps: seq<Step>): State
    requires LegalRun(s, size, steps)
    decreases |steps|
  {
    if steps == [] then s else Run(Next(s, size, steps[0]), size, steps[1..])
  }

  // A client that comes back without an id is sent nothing of the past: it must
  // lack nothing.
  predicate Informed(s: State) {
    KeyOf(s.lastId).Some? || s.seen == |s.log|
  }

  predicate InformedRun(s: State, size: nat, steps: seq<Step>)
    requires LegalRun(s, size, steps)
    decreases |steps|
  {
    steps == [] || ((steps[0].Resume? ==> Informed(s)) && InformedRun(Next(s, size, steps[0]), size, steps[1..]))
  }

  // ----- what a client can rely on -----

  predicate IsEvent(r: Receipt) {
    r.Got? && r.chunk.Sent?
  }

  // Two chunks are neighbours in the log.
  ghost predicate Adjacent(log: seq<Item>, a: Chunk, b: Chunk) {
    exists p :: 0 < p < |log| && a == ChunkOf(log[p - 1]) && b == ChunkOf(log[p])
  }

  // Two events with nothing between them are neighbours in the log, and the
  // first event after a beginning is the first one the snapshot lacks.
  ghost predicate NoSilentGap(log: seq<Item>, got: seq<Receipt>) {
    forall i {:trigger got[i]} :: 0 < i < |got| && IsEvent(got[i]) ==>
      && (IsEvent(got[i - 1]) ==> Adjacent(log, got[i - 1].chunk, got[i].chunk))
      && (got[i - 1].Began? ==> got[i - 1].at < |log| && got[i].chunk == ChunkOf(log[got[i - 1].at]))
  }

  // The number of items of the log the receipts say the client has seen.
  ghost predicate Reaches(log: seq<Item>, got: seq<Receipt>, seen: nat) {
    && seen <= |log|
    && (got != [] ==>
          var r := got[|got| - 1];
          && (r.Began? ==> seen == r.at)
          && (IsEvent(r) ==> 0 < seen && r.chunk == ChunkOf(log[seen - 1])))
  }

  predicate Increasing(xs: seq<Item>) {
    forall i, j :: 0 <= i < j < |xs| ==> xs[i].key < xs[j].key
  }

  // The publisher cannot tell what came after this id.
  predicate Stale(cache: seq<Item>, last: Option<nat>) {
    last.Some? && (cache == [] || last.value < cache[0].key)
  }

  // The queue holds everything after what has been seen, or a request to reload
  // and everything after some later point.
  ghost predicate Pending(log: seq<Item>, seen: nat, q: seq<Chunk>, stale: bool)
    requires seen <= |log|
  {
    || q == ChunksOf(log[seen..])
    || (stale && q != [] && q[0] == Reinit && |q| - 1 <= |log| - seen && q[1..] == ChunksOf(log[|log| - (|q| - 1)..]))
  }

  // The id the client would come back with says exactly what it has seen, or
  // the publisher cannot serve it any more.
  predicate IdFits(log: seq<Item>, cache: seq<Item>, now: nat, last: Option<nat>, seen: nat) {
    last.Some? ==> last.value <= now && (Count(log, last.value) == seen || Stale(cache, last))
  }

  // The keys of the events since the client last began anew.
  function KeysSince(got: seq<Receipt>): seq<nat> {
    if got == [] || got[|got| - 1].Began? then []
    else
      var r := got[|got| - 1];
      KeysSince(got[..|got| - 1]) + if IsEvent(r) && ParseId(r.chunk.id).Some? then [ParseId(r.chunk.id).value] else []
  }

  predicate Ascending(ks: seq<nat>) {
    forall i, j :: 0 <= i < j < |ks| ==> ks[i] < ks[j]
  }

  ghost predicate InOrder(log: seq<Item>, got: seq<Receipt>, seen: nat) {
    var ks := KeysSince(got);
    Ascending(ks) && (ks != [] ==> 0 < seen <= |log| && ks[|ks| - 1] <= log[seen - 1].key)
  }

  predicate LogFits(log: seq<Item>, cache: seq<Item>, now: nat) {
    && Increasing(log)
    && (forall i :: 0 <= i < |log| ==> log[i].key <= now)
    && |cache| <= |log| && cache == log[|log| - |cache|..]
  }

  // Without an id the client has got nothing since it began.
  predicate NoIdNoNews(got: seq<Receipt>, last: Option<nat>) {
    last.None? && got != [] ==> got[|got| - 1].Began?
  }

  ghost predicate Invariant(s: State) {
    && LogFits(s.log, s.cache, s.now)
    && NoSilentGap(s.log, s.got) && Reaches(s.log, s.got, s.seen) && InOrder(s.log, s.got, s.seen)
    && (s.queue.Some? ==> Pending(s.log, s.seen, s.queue.value, Stale(s.cache, KeyOf(s.lastId))))
    && IdFits(s.log, s.cache, s.now, KeyOf(s.lastId), s.seen)
    && NoIdNoNews(s.got, KeyOf(s.lastId))
  }

  // ----- counting keys -----

  lemma {:induction false} CountSplits(xs: seq<Item>, key: nat)
    requires Increasing(xs)
    ensures Count(xs, key) <= |xs|
    ensures forall i :: 0 <= i < |xs| ==> (xs[i].key <= key <==> i < Count(xs, key))
  {
    if xs != [] {
      var n := |xs| - 1;
      CountSplits(xs[..n], key);
      assert forall i :: 0 <= i < n ==> xs[..n][i] == xs[i] && xs[i].key < xs[n].key;
    }
  }

  lemma {:induction false} LaterIsSuffix(xs: seq<Item>, key: nat)
    requires Increasing(xs)
    ensures Count(xs, key) <= |xs| && Later(xs, key) == xs[Count(xs, key)..]
  {
    CountSplits(xs, key);
    if xs != [] {
      var n := |xs| - 1;
      var c := Count(xs, key);
      LaterIsSuffix(xs[..n], key);
      if xs[n].key > key {
        assert xs[c..] == xs[..n][c..] + [xs[n]];
      } else {
        assert n < c;
        assert Count(xs[..n], key) == n && xs[..n][n..] == [];
      }
    }
  }

  lemma {:induction false} CountIs(xs: seq<Item>, key: nat, n: nat)
    requires Increasing(xs) && n <= |xs|
    requires forall i :: 0 <= i < |xs| ==> (xs[i].key <= key <==> i < n)
    ensures Count(xs, key) == n
  {
    if xs != [] {
      var m := |xs| - 1;
      CountIs(xs[..m], key, if n == |xs| then n - 1 else n);
    }
  }

  lemma CacheCount(log: seq<Item>, c: nat, key: nat)
    requires Increasing(log) && c < |log| && log[c].key <= key
    ensures c <= Count(log, key) <= |log| && Count(log[c..], key) == Count(log, key) - c
  {
    CountSplits(log, key);
    CountIs(log[c..], key, Count(log, key) - c);
  }

  lemma SliceOfSlice(xs: seq<Item>, i: nat, j: nat)
    requires i <= j <= |xs|
    ensures xs[i..][j - i..] == xs[j..]
  {
  }

  // A cache that reaches back to the key has everything after it.
  lemma CacheServes(log: seq<Item>, cache: seq<Item>, key: nat)
    requires Increasing(log) && |cache| <= |log| && cache == log[|log| - |cache|..]
    requires cache != [] && cache[0].key <= key
    ensures Count(log, key) <= |log| && Later(cache, key) == log[Count(log, key)..]
  {
    var c := |log| - |cache|;
    CacheCount(log, c, key);
    LaterIsSuffix(cache, key);
    SliceOfSlice(log, c, Count(log, key));
  }

  lemma CountAfterPut(log: seq<Item>, x: Item, key: nat)
    requires key < x.key
    ensures Count(log + [x], key) == Count(log, key)
  {
    assert (log + [x])[..|log|] == log;
  }

  lemma CountAtItem(log: seq<Item>, p: nat)
    requires Increasing(log) && p < |log|
    ensures Count(log, log[p].key) == p + 1
  {
    CountIs(log, log[p].key, p + 1);
  }

  // ----- the steps -----

  lemma LogAfterPut(log: seq<Item>, cache: seq<Item>, now: nat, size: nat, x: Item)
    requires LogFits(log, cache, now) && now < x.key
    ensures LogFits(log + [x], Pushed(cache, size, x), x.key)
  {
  }

  lemma IdAfterPut(log: seq<Item>, cache: seq<Item>, now: nat, last: Option<nat>, seen: nat, size: nat, x: Item)
    requires LogFits(log, cache, now) && now < x.key && IdFits(log, cache, now, last, seen)
    ensures IdFits(log + [x], Pushed(cache, size, x), x.key, last, seen)
    ensures Stale(cache, last) ==> Stale(Pushed(cache, size, x), last)
  {
    if last.Some? {
      CountAfterPut(log, x, last.value);
      var c := |log| - |cache|;
      assert forall i :: 0 <= i < |cache| ==> cache[i] == log[c + i];
    }
  }

  ghost function PlaceOf(log: seq<Item>, a: Chunk, b: Chunk): (p: nat)
    requires Adjacent(log, a, b)
    ensures 0 < p < |log| && a == ChunkOf(log[p - 1]) && b == ChunkOf(log[p])
  {
    var p :| 0 < p < |log| && a == ChunkOf(log[p - 1]) && b == ChunkOf(log[p]);
    p
  }

  lemma AdjacentStays(log: seq<Item>, x: Item, a: Chunk, b: Chunk)
    requires Adjacent(log, a, b)
    ensures Adjacent(log + [x], a, b)
  {
    var p := PlaceOf(log, a, b);
    assert (log + [x])[p - 1] == log[p - 1] && (log + [x])[p] == log[p];
  }

  lemma GapAfterPut(log: seq<Item>, x: Item, got: seq<Receipt>, seen: nat)
    requires NoSilentGap(log, got) && Reaches(log, got, seen)
    ensures NoSilentGap(log + [x], got) && Reaches(log + [x], got, seen)
  {
    forall i {:trigger got[i]} | 0 < i < |got| && IsEvent(got[i])
      ensures IsEvent(got[i - 1]) ==> Adjacent(log + [x], got[i - 1].chunk, got[i].chunk)
      ensures got[i - 1].Began? ==> got[i - 1].at < |log + [x]| && got[i].chunk == ChunkOf((log + [x])[got[i - 1].at])
    {
      if IsEvent(got[i - 1]) {
        AdjacentStays(log, x, got[i - 1].chunk, got[i].chunk);
      }
    }
  }

  lemma PutKeeps(s: State, size: nat, x: Item)
    requires Invariant(s) && Enabled(s, Put(x))
    ensures Invariant(Next(s, size, Put(x)))
  {
    LogAfterPut(s.log, s.cache, s.now, size, x);
    GapAfterPut(s.log, x, s.got, s.seen);
    IdAfterPut(s.log, s.cache, s.now, KeyOf(s.lastId), s.seen, size, x);
    if s.queue.Some? {
      PendingAfterPut(s.log, x, s.seen, s.queue.value, Stale(s.cache, KeyOf(s.lastId)));
    }
  }

  lemma PendingAfterPut(log: seq<Item>, x: Item, seen: nat, q: seq<Chunk>, stale: bool)
    requires seen <= |log| && Pending(log, seen, q, stale)
    ensures Pending(log + [x], seen, q + [ChunkOf(x)], stale)
  {
    if q == ChunksOf(log[seen..]) {
      assert (log + [x])[seen..] == log[seen..] + [x];
      assert q + [ChunkOf(x)] == ChunksOf(log[seen..] + [x]);
    } else {
      var b := |log| - (|q| - 1);
      assert (log + [x])[b..] == log[b..] + [x];
      assert (q + [ChunkOf(x)])[1..] == q[1..] + [ChunkOf(x)] == ChunksOf(log[b..] + [x]);
    }
  }

  // What a subscriber is sent fits what it says it has.
  lemma BacklogFits(log: seq<Item>, cache: seq<Item>, now: nat, last: Option<nat>, seen: nat)
    requires LogFits(log, cache, now) && seen <= |log|
    requires if last.None? then seen == |log| else Stale(cache, last) || Count(log, last.value) == seen
    ensures Pending(log, seen, Backlog(cache, last), Stale(cache, last))
  {
    if last.Some? {
      if cache != [] && last.value >= cache[0].key {
        CacheServes(log, cache, last.value);
      } else {
        assert [Reinit][1..] == ChunksOf(log[|log|..]);
      }
    } else {
      assert ChunksOf(log[|log|..]) == [];
    }
  }

  lemma CountBounded(log: seq<Item>, key: nat)
    requires Increasing(log)
    ensures Count(log, key) <= |log|
  {
    CountSplits(log, key);
  }

  lemma BeginKeeps(s: State, size: nat, id: Option<string>)
    requires Invariant(s) && Enabled(s, Begin(id))
    ensures Invariant(Next(s, size, Begin(id)))
  {
    var last := KeyOf(id);
    if last.Some? {
      CountBounded(s.log, last.value);
    }
    var at := SeenBy(s.log, last);
    BacklogFits(s.log, s.cache, s.now, last, at);
    GapAfterOther(s.log, s.got, Began(at));
  }

  lemma ResumeKeeps(s: State, size: nat)
    requires Invariant(s) && Enabled(s, Resume) && Informed(s)
    ensures Invariant(Next(s, size, Resume))
  {
    BacklogFits(s.log, s.cache, s.now, KeyOf(s.lastId), s.seen);
  }

  lemma KeysAfter(got: seq<Receipt>, c: Chunk)
    ensures KeysSince(got + [Got(c)]) == KeysSince(got) + if c.Sent? && ParseId(c.id).Some? then [ParseId(c.id).value] else []
  {
    assert (got + [Got(c)])[..|got|] == got;
  }

  lemma GapAfterEvent(log: seq<Item>, got: seq<Receipt>, seen: nat)
    requires NoSilentGap(log, got) && Reaches(log, got, seen) && seen < |log|
    ensures NoSilentGap(log, got + [Got(ChunkOf(log[seen]))])
  {
    var more := got + [Got(ChunkOf(log[seen]))];
    forall i {:trigger more[i]} | 0 < i < |more| && IsEvent(more[i])
      ensures IsEvent(more[i - 1]) ==> Adjacent(log, more[i - 1].chunk, more[i].chunk)
      ensures more[i - 1].Began? ==> more[i - 1].at < |log| && more[i].chunk == ChunkOf(log[more[i - 1].at])
    {
      assert more[i - 1] == got[i - 1];
      if i < |got| {
        assert more[i] == got[i];
      }
    }
  }

  lemma GapAfterOther(log: seq<Item>, got: seq<Receipt>, r: Receipt)
    requires NoSilentGap(log, got) && !IsEvent(r)
    ensures NoSilentGap(log, got + [r])
  {
    var more := got + [r];
    forall i {:trigger more[i]} | 0 < i < |more| && IsEvent(more[i])
      ensures IsEvent(more[i - 1]) ==> Adjacent(log, more[i - 1].chunk, more[i].chunk)
      ensures more[i - 1].Began? ==> more[i - 1].at < |log| && more[i].chunk == ChunkOf(log[more[i - 1].at])
    {
      assert more[i - 1] == got[i - 1] && more[i] == got[i];
    }
  }

  lemma OrderAfterEvent(log: seq<Item>, got: seq<Receipt>, seen: nat)
    requires Increasing(log) && InOrder(log, got, seen) && seen < |log|
    ensures InOrder(log, got + [Got(ChunkOf(log[seen]))], seen + 1)
  {
    KeysAfter(got, ChunkOf(log[seen]));
    HexParses(log[seen].key);
  }

  lemma IdAfterEvent(log: seq<Item>, cache: seq<Item>, now: nat, seen: nat)
    requires LogFits(log, cache, now) && seen < |log|
    ensures KeyOf(Some(Hex(log[seen].key))) == Some(log[seen].key)
    ensures IdFits(log, cache, now, KeyOf(Some(Hex(log[seen].key))), seen + 1)
  {
    HexParses(log[seen].key);
    CountAtItem(log, seen);
  }

  lemma RestPends(log: seq<Item>, seen: nat, q: seq<Chunk>)
    requires seen <= |log| && q == ChunksOf(log[seen..]) && q != []
    ensures seen < |log| && q[0] == ChunkOf(log[seen]) && q[1..] == ChunksOf(log[seen + 1..])
  {
  }

  lemma EventKeeps(s: State, size: nat)
    requires Invariant(s) && Enabled(s, Deliver) && s.queue.value == ChunksOf(s.log[s.seen..])
    ensures Invariant(Next(s, size, Deliver))
  {
    RestPends(s.log, s.seen, s.queue.value);
    GapAfterEvent(s.log, s.got, s.seen);
    OrderAfterEvent(s.log, s.got, s.seen);
    IdAfterEvent(s.log, s.cache, s.now, s.seen);
  }

  // After a request to reload only what follows it is pending.
  lemma ReloadPends(log: seq<Item>, seen: nat, q: seq<Chunk>, stale: bool)
    requires seen <= |log| && q != [] && q[0] == Reinit && Pending(log, seen, q, stale)
    ensures stale && seen <= |log| - |q[1..]| && Pending(log, |log| - |q[1..]|, q[1..], stale)
  {
    AllSent(log[seen..]);
  }

  lemma AllSent(xs: seq<Item>)
    ensures forall c :: c in ChunksOf(xs) ==> c.Sent?
  {
  }

  lemma OrderAfterReload(log: seq<Item>, got: seq<Receipt>, seen: nat, later: nat)
    requires Increasing(log) && InOrder(log, got, seen) && seen <= later <= |log|
    ensures InOrder(log, got + [Got(Reinit)], later)
  {
    KeysAfter(got, Reinit);
  }

  lemma ReachesAfterReload(log: seq<Item>, got: seq<Receipt>, later: nat)
    requires later <= |log|
    ensures Reaches(log, got + [Got(Reinit)], later)
  {
  }

  lemma NewsAfter(got: seq<Receipt>, c: Chunk, last: Option<nat>)
    requires last.Some?
    ensures NoIdNoNews(got + [Got(c)], last)
  {
  }

  lemma ReloadKeeps(s: State, size: nat)
    requires Invariant(s) && Enabled(s, Deliver) && s.queue.value[0] == Reinit
    ensures Invariant(Next(s, size, Deliver))
  {
    var q, last := s.queue.value, KeyOf(s.lastId);
    ReloadPends(s.log, s.seen, q, Stale(s.cache, last));
    ReloadFits(s, q[1..], |s.log| - |q[1..]|, s.got + [Got(Reinit)]);
    ReloadNext(s, size, q[1..]);
  }

  lemma ReloadNext(s: State, size: nat, rest: seq<Chunk>)
    requires Enabled(s, Deliver) && s.queue.value[0] == Reinit && rest == s.queue.value[1..] && |rest| <= |s.log|
    ensures Next(s, size, Deliver) == s.(queue := Some(rest), got := s.got + [Got(Reinit)], seen := |s.log| - |rest|)
  {
  }

  lemma ReloadFits(s: State, rest: seq<Chunk>, later: nat, more: seq<Receipt>)
    requires Invariant(s) && Stale(s.cache, KeyOf(s.lastId)) && s.seen <= later <= |s.log| && more == s.got + [Got(Reinit)]
    requires Pending(s.log, later, rest, true)
    ensures Invariant(s.(queue := Some(rest), got := more, seen := later))
  {
    GapAfterOther(s.log, s.got, Got(Reinit));
    OrderAfterReload(s.log, s.got, s.seen, later);
    ReachesAfterReload(s.log, s.got, later);
    NewsAfter(s.got, Reinit, KeyOf(s.lastId));
  }

  lemma StepKeeps(s: State, size: nat, step: Step)
    requires Invariant(s) && Enabled(s, step) && (step.Resume? ==> Informed(s))
    ensures Invariant(Next(s, size, step))
  {
    match step {
      case Put(x) => PutKeeps(s, size, x);
      case Begin(id) =>
        BeginKeeps(s, size, id);
      case Resume => ResumeKeeps(s, size);
      case Deliver =>
        if s.queue.value == ChunksOf(s.log[s.seen..]) {
          EventKeeps(s, size);
        } else {
          ReloadKeeps(s, size);
        }
      case _ =>
    }
  }

  lemma {:induction false} RunKeeps(s: State, size: nat, steps: seq<Step>)
    requires Invariant(s) && LegalRun(s, size, steps) && InformedRun(s, size, steps)
    ensures Invariant(Run(s, size, steps))
    decreases |steps|
  {
    if steps != [] {
      StepKeeps(s, size, steps[0]);
      RunKeeps(Next(s, size, steps[0]), size, steps[1..]);
    }
  }

  // ----- the main results -----

  // Receipts i to j are events: they are a contiguous slice of the log.
  ghost predicate IsSlice(log: seq<Item>, got: seq<Receipt>, i: nat, j: nat, a: nat) {
    i <= j <= |got| && a + (j - i) <= |log|
    && forall k :: i <= k < j ==> got[k] == Got(ChunkOf(log[a + (k - i)]))
  }

  lemma SamePlace(log: seq<Item>, p: nat, q: nat)
    requires Increasing(log) && p < |log| && q < |log| && ChunkOf(log[p]) == ChunkOf(log[q])
    ensures p == q
  {
    HexParses(log[p].key);
    HexParses(log[q].key);
    assert log[p].key == log[q].key;
  }

  predicate AllEvents(got: seq<Receipt>, i: nat, j: nat) {
    i <= j <= |got| && forall t :: i <= t < j ==> IsEvent(got[t])
  }

  ghost predicate AllSlices(log: seq<Item>, got: seq<Receipt>) {
    forall i: nat, j: nat :: i + 1 < j && AllEvents(got, i, j) ==> exists a: nat :: IsSlice(log, got, i, j, a)
  }

  lemma SliceGrows(log: seq<Item>, got: seq<Receipt>, i: nat, j: nat, a: nat, p: nat)
    requires Increasing(log) && IsSlice(log, got, i, j, a) && i < j < |got| && 0 < p < |log|
    requires got[j - 1] == Got(ChunkOf(log[p - 1])) && got[j] == Got(ChunkOf(log[p]))
    ensures IsSlice(log, got, i, j + 1, a)
  {
    assert got[j - 1] == Got(ChunkOf(log[a + (j - 1 - i)]));
    SamePlace(log, a + (j - 1 - i), p - 1);
  }

  lemma {:induction false} EventsAreSlice(log: seq<Item>, got: seq<Receipt>, i: nat, j: nat)
    requires Increasing(log) && NoSilentGap(log, got) && i + 1 < j && AllEvents(got, i, j)
    ensures exists a: nat :: IsSlice(log, got, i, j, a)
    decreases j
  {
    assert IsEvent(got[j - 1]) && IsEvent(got[j - 2]);
    var p := PlaceOf(log, got[j - 2].chunk, got[j - 1].chunk);
    if i + 2 == j {
      assert IsSlice(log, got, i, i + 1, p - 1);
      SliceGrows(log, got, i, i + 1, p - 1, p);
    } else {
      EventsAreSlice(log, got, i, j - 1);
      var a: nat :| IsSlice(log, got, i, j - 1, a);
      SliceGrows(log, got, i, j - 1, a, p);
    }
  }

  // Events with no request to reload between them are a contiguous slice of what
  // was published; since the client last began anew no event came twice or out of
  // order; and when its connection holds nothing more, it has seen all.
  ghost predicate Reliable(s: State) {
    && NoSilentGap(s.log, s.got)
    && AllSlices(s.log, s.got)
    && Ascending(KeysSince(s.got))
    && (s.queue == Some([]) ==> Reaches(s.log, s.got, |s.log|))
  }

  lemma InvariantSuffices(s: State)
    requires Invariant(s)
    ensures Reliable(s)
  {
    forall i: nat, j: nat | i + 1 < j && AllEvents(s.got, i, j) ensures exists a: nat :: IsSlice(s.log, s.got, i, j, a) {
      EventsAreSlice(s.log, s.got, i, j);
    }
    assert |ChunksOf(s.log[s.seen..])| == |s.log| - s.seen;
  }

  lemma InitialFits(s: State)
    requires s.log == [] && s.cache == [] && s.queue.None? && s.got == [] && s.lastId.None? && s.seen == 0
    ensures Invariant(s)
  {
    NothingYet(s.log, s.cache, s.got, s.now);
    assert s.queue.None? && KeyOf(s.lastId).None?;
  }

  lemma NothingYet(log: seq<Item>, cache: seq<Item>, got: seq<Receipt>, now: nat)
    requires log == [] && cache == [] && got == []
    ensures LogFits(log, cache, now) && NoSilentGap(log, got) && Reaches(log, got, 0) && InOrder(log, got, 0)
    ensures IdFits(log, cache, now, None, 0) && NoIdNoNews(got, None)
  {
  }

  // A client is reliable in every run, whatever the cache has dropped and however
  // often the client was cut off and came back, if it never comes back without an
  // id for something it lacks.
  lemma NoSilentGaps(size: nat, steps: seq<Step>)
    requires LegalRun(INITIAL, size, steps) && InformedRun(INITIAL, size, steps)
    ensures Reliable(Run(INITIAL, size, steps))
  {
    InitialFits(INITIAL);
    RunKeeps(INITIAL, size, steps);
    InvariantSuffices(Run(INITIAL, size, steps));
  }

  // ----- what the cache holds, and who is served from it -----

  // The items put since the publisher last started.
  function PutSince(items: seq<Item>, steps: seq<Step>): seq<Item>
    decreases |steps|
  {
    if steps == [] then items
    else
      match steps[0]
      case Put(x) => PutSince(items + [x], steps[1..])
      case Restart => PutSince([], steps[1..])
      case _ => PutSince(items, steps[1..])
  }

  // The newest of these items, as many as fit.
  predicate HoldsNewest(cache: seq<Item>, size: nat, items: seq<Item>) {
    |cache| == Min(size, |items|) && IsSuffix(cache, items)
  }

  lemma PushedNewest(cache: seq<Item>, size: nat, items: seq<Item>, x: Item)
    requires HoldsNewest(cache, size, items)
    ensures HoldsNewest(Pushed(cache, size, x), size, items + [x])
  {
  }

  lemma {:induction false} NewestAfter(s: State, size: nat, items: seq<Item>, steps: seq<Step>)
    requires LegalRun(s, size, steps) && HoldsNewest(s.cache, size, items) && IsSuffix(items, s.log)
    ensures HoldsNewest(Run(s, size, steps).cache, size, PutSince(items, steps))
    ensures IsSuffix(PutSince(items, steps), Run(s, size, steps).log)
    decreases |steps|
  {
    if steps != [] {
      var more := match steps[0] case Put(x) => items + [x] case Restart => [] case _ => items;
      if steps[0].Put? {
        PushedNewest(s.cache, size, items, steps[0].x);
      }
      NewestAfter(Next(s, size, steps[0]), size, more, steps[1..]);
    }
  }

  // How many items that are: all that were put since the publisher last started, or as
  // many as the cache has room for.
  function Kept(size: nat, steps: seq<Step>): nat {
    Min(size, |PutSince([], steps)|)
  }

  // In every run the cache holds the newest items put since the publisher last
  // started.
  lemma CacheHoldsNewest(size: nat, steps: seq<Step>)
    requires LegalRun(INITIAL, size, steps)
    ensures var s := Run(INITIAL, size, steps);
            |s.cache| == Kept(size, steps) && IsSuffix(s.cache, s.log)
  {
    NoneHeld(INITIAL.cache, size);
    NewestFrom(INITIAL, size, steps, []);
  }

  lemma NoneHeld(cache: seq<Item>, size: nat)
    requires cache == []
    ensures HoldsNewest(cache, size, []) && IsSuffix([], cache)
  {
  }

  lemma NewestFrom(start: State, size: nat, steps: seq<Step>, items: seq<Item>)
    requires LegalRun(start, size, steps) && HoldsNewest(start.cache, size, items) && IsSuffix(items, start.log)
    ensures var s := Run(start, size, steps);
            |s.cache| == Min(size, |PutSince(items, steps)|) && IsSuffix(s.cache, s.log)
  {
    NewestAfter(start, size, items, steps);
    var s := Run(start, size, steps);
    SuffixOfSuffix(s.cache, PutSince(items, steps), s.log);
  }

  lemma SuffixOfSuffix(xs: seq<Item>, ys: seq<Item>, zs: seq<Item>)
    requires IsSuffix(xs, ys) && IsSuffix(ys, zs)
    ensures IsSuffix(xs, zs)
  {
    SliceOfSlice(zs, |zs| - |ys|, |zs| - |xs|);
  }

  lemma {:induction false} LogFitsAfter(s: State, size: nat, steps: seq<Step>)
    requires LegalRun(s, size, steps) && LogFits(s.log, s.cache, s.now)
    ensures LogFits(Run(s, size, steps).log, Run(s, size, steps).cache, Run(s, size, steps).now)
    decreases |steps|
  {
    if steps != [] {
      if steps[0].Put? {
        LogAfterPut(s.log, s.cache, s.now, size, steps[0].x);
      }
      LogFitsAfter(Next(s, size, steps[0]), size, steps[1..]);
    }
  }

  // Of the log exactly the first c items are not newer than the key.
  predicate Older(log: seq<Item>, key: nat, c: nat) {
    c <= |log| && forall i :: 0 <= i < |log| ==> (log[i].key <= key <==> i < c)
  }

  // A subscriber that names a key is sent exactly the items after it if the cache has
  // the last of the items that are not newer, and a request to reload otherwise.
  lemma SubscriberIsServed(size: nat, steps: seq<Step>, id: string, key: nat, c: nat)
    requires LegalRun(INITIAL, size, steps) && ParseId(id) == Some(key) && Older(Run(INITIAL, size, steps).log, key, c)
    ensures var s := Run(INITIAL, size, steps);
            Backlog(s.cache, KeyOf(Some(id))) == if c + Kept(size, steps) > |s.log| then ChunksOf(s.log[c..]) else [Reinit]
  {
    var s := Run(INITIAL, size, steps);
    CacheHoldsNewest(size, steps);
    LogFitsAfter(INITIAL, size, steps);
    ServedFrom(s.log, s.cache, key, c);
  }

  lemma ServedFrom(log: seq<Item>, cache: seq<Item>, key: nat, c: nat)
    requires Increasing(log) && IsSuffix(cache, log) && Older(log, key, c)
    ensures Backlog(cache, Some(key)) == if c + |cache| > |log| then ChunksOf(log[c..]) else [Reinit]
  {
    CountIs(log, key, c);
    if cache != [] && cache[0].key <= key {
      CacheServes(log, cache, key);
    }
  }

  // In particular one that has the id of an item: it is sent what came after if that is
  // one of the newest items.
  lemma NewestAreServed(size: nat, steps: seq<Step>, p: nat)
    requires LegalRun(INITIAL, size, steps) && p < |Run(INITIAL, size, steps).log|
    ensures var s := Run(INITIAL, size, steps);
            Backlog(s.cache, KeyOf(Some(Hex(s.log[p].key)))) ==
            if |s.log| - p <= Kept(size, steps) then ChunksOf(s.log[p + 1..]) else [Reinit]
  {
    var s := Run(INITIAL, size, steps);
    LogFitsAfter(INITIAL, size, steps);
    HexParses(s.log[p].key);
    OlderThanItself(s.log, p);
    SubscriberIsServed(size, steps, Hex(s.log[p].key), s.log[p].key, p + 1);
  }

  lemma OlderThanItself(log: seq<Item>, p: nat)
    requires Increasing(log) && p < |log|
    ensures Older(log, log[p].key, p + 1)
  {
  }

  // ----- coming back without an id -----

  // That condition is exact: after every informed run the next return leaves the
  // client reliable if and only if it has an id or lacks nothing. Otherwise its
  // connection is silent about all that it lacks.
  lemma ReturnIsReliableIff(s: State, size: nat)
    requires Invariant(s) && Enabled(s, Resume)
    ensures Reliable(Next(s, size, Resume)) <==> Informed(s)
    ensures !Informed(s) ==> s.seen < |s.log| && Next(s, size, Resume).queue == Some([])
  {
    if Informed(s) {
      ResumeKeeps(s, size);
      InvariantSuffices(Next(s, size, Resume));
    }
  }

  // What a subscriber is sent is all that it lacks or a request to reload,
  // exactly when it has an id or lacks nothing.
  lemma BacklogFitsIff(s: State)
    requires Invariant(s)
    ensures Pending(s.log, s.seen, Backlog(s.cache, KeyOf(s.lastId)), Stale(s.cache, KeyOf(s.lastId))) <==> Informed(s)
  {
    if Informed(s) {
      BacklogFits(s.log, s.cache, s.now, KeyOf(s.lastId), s.seen);
    }
  }

  lemma RunOne(s: State, size: nat, step: Step, steps: seq<Step>)
    requires Enabled(s, step) && LegalRun(Next(s, size, step), size, steps)
    ensures LegalRun(s, size, [step] + steps)
    ensures Run(s, size, [step] + steps) == Run(Next(s, size, step), size, steps)
  {
    assert ([step] + steps)[1..] == steps;
  }

  // The client subscribes without an id, is cut off, misses the first item, comes
  // back and gets the second as if nothing had come before.
  lemma BlindReturn(size: nat, x: Item, y: Item, r0: seq<Step>, r1: seq<Step>, r2: seq<Step>, r3: seq<Step>, r4: seq<Step>, r5: seq<Step>)
    requires 0 < x.key < y.key && LegalName(x.event) && LegalName(y.event)
    requires r5 == [Deliver] && r4 == [Put(y)] + r5 && r3 == [Resume] + r4 && r2 == [Put(x)] + r3
    requires r1 == [Disconnect] + r2 && r0 == [Begin(None)] + r1
    ensures LegalRun(INITIAL, size, r0)
    ensures var s := Run(INITIAL, size, r0);
            s.log == [x, y] && s.got == [Began(0), Got(ChunkOf(y))] && s.queue == Some([]) && !Reliable(s)
  {
    var s1, s2, s3, s4, s5, s6 := BlindStates(size, x, y);
    assert LegalRun(s6, size, []) && Run(s6, size, []) == s6;
    assert [Deliver] + [] == r5;
    RunOne(s5, size, Deliver, []);
    RunOne(s4, size, Put(y), r5);
    RunOne(s3, size, Resume, r4);
    RunOne(s2, size, Put(x), r3);
    RunOne(s1, size, Disconnect, r2);
    RunOne(INITIAL, size, Begin(None), r1);
    GapAtFirst(x, y, s6.log, s6.got);
  }

  lemma BlindStates(size: nat, x: Item, y: Item) returns (s1: State, s2: State, s3: State, s4: State, s5: State, s6: State)
    requires 0 < x.key < y.key && LegalName(x.event) && LegalName(y.event)
    ensures Enabled(INITIAL, Begin(None)) && s1 == Next(INITIAL, size, Begin(None))
    ensures Enabled(s1, Disconnect) && s2 == Next(s1, size, Disconnect)
    ensures Enabled(s2, Put(x)) && s3 == Next(s2, size, Put(x))
    ensures Enabled(s3, Resume) && s4 == Next(s3, size, Resume)
    ensures Enabled(s4, Put(y)) && s5 == Next(s4, size, Put(y))
    ensures Enabled(s5, Deliver) && s6 == Next(s5, size, Deliver)
    ensures s6.log == [x, y] && s6.got == [Began(0), Got(ChunkOf(y))] && s6.queue == Some([])
  {
    s1, s2, s3 := BlindStart(INITIAL, size, x);
    s4, s5, s6 := BlindEnd(s3, size, y);
  }

  lemma BlindStart(start: State, size: nat, x: Item) returns (s1: State, s2: State, s3: State)
    requires start == INITIAL && 0 < x.key && LegalName(x.event)
    ensures Enabled(start, Begin(None)) && s1 == Next(start, size, Begin(None))
    ensures Enabled(s1, Disconnect) && s2 == Next(s1, size, Disconnect)
    ensures Enabled(s2, Put(x)) && s3 == Next(s2, size, Put(x))
    ensures s3.now == x.key && s3.log == [x] && s3.queue.None? && s3.got == [Began(0)] && s3.lastId.None?
  {
    s1 := Next(start, size, Begin(None));
    assert [] + [Began(0)] == s1.got;
    s2 := Next(s1, size, Disconnect);
    s3 := Next(s2, size, Put(x));
    assert [] + [x] == s3.log;
  }

  lemma BlindEnd(s3: State, size: nat, y: Item) returns (s4: State, s5: State, s6: State)
    requires s3.now < y.key && LegalName(y.event) && s3.queue.None? && s3.got != [] && s3.lastId.None?
    ensures Enabled(s3, Resume) && s4 == Next(s3, size, Resume)
    ensures Enabled(s4, Put(y)) && s5 == Next(s4, size, Put(y))
    ensures Enabled(s5, Deliver) && s6 == Next(s5, size, Deliver)
    ensures s6.log == s3.log + [y] && s6.got == s3.got + [Got(ChunkOf(y))] && s6.queue == Some([])
  {
    s4 := Next(s3, size, Resume);
    assert s4.queue == Some([]);
    s5 := Next(s4, size, Put(y));
    assert [] + [ChunkOf(y)] == s5.queue.value == [ChunkOf(y)];
    s6 := Next(s5, size, Deliver);
    assert s5.queue.value[1..] == [];
  }

  lemma GapAtFirst(x: Item, y: Item, log: seq<Item>, got: seq<Receipt>)
    requires x.key != y.key && log == [x, y] && got == [Began(0), Got(ChunkOf(y))]
    ensures !NoSilentGap(log, got)
  {
    HexParses(x.key);
    HexParses(y.key);
    assert IsEvent(got[1]) && got[0].Began?;
  }
}
