// The publisher of the event stream, its bounded cache and the queues of its
// subscribers (src/cmscommon/eventsource.py:79-193).
module EventStream {
  import opened Basics
  import opened EventFormat

  // ----- event ids: a number in hexadecimal -----

  function Digit(d: nat): char
    requires d < 16
  {
    if d < 10 then '0' + d as char else 'a' + (d - 10) as char
  }

  predicate IsDigit(c: char) {
    '0' <= c <= '9' || 'A' <= c <= 'F' || 'a' <= c <= 'f'
  }

  function Value(c: char): nat
    requires IsDigit(c)
  {
    if c <= '9' then (c - '0') as nat
    else if c <= 'F' then (c - 'A') as nat + 10
    else (c - 'a') as nat + 10
  }

  function Hex(n: nat): string {
    if n < 16 then [Digit(n)] else Hex(n / 16) + [Digit(n % 16)]
  }

  predicate AllDigits(s: string) {
    forall i :: 0 <= i < |s| ==> IsDigit(s[i])
  }

  function Number(s: string): nat
    requires AllDigits(s)
  {
    if s == "" then 0 else 16 * Number(s[..|s| - 1]) + Value(s[|s| - 1])
  }

  // An id is a number in hexadecimal, in either case; the pattern it is matched
  // against lets a line feed at its end pass.
  function ParseId(id: string): Option<nat> {
    var s := if id != "" && id[|id| - 1] == '\n' then id[..|id| - 1] else id;
    if s != "" && AllDigits(s) then Some(Number(s)) else None
  }

  function KeyOf(id: Option<string>): Option<nat> {
    if id.None? then None else ParseId(id.value)
  }

  lemma {:induction false} HexNumber(n: nat)
    ensures Hex(n) != "" && AllDigits(Hex(n)) && Number(Hex(n)) == n
  {
    var s := Hex(n);
    if n < 16 {
      assert s[..|s| - 1] == "";
    } else {
      HexNumber(n / 16);
      assert s[..|s| - 1] == Hex(n / 16);
    }
  }

  lemma HexParses(n: nat)
    ensures ParseId(Hex(n)) == Some(n)
    ensures Unbroken(Hex(n))
  {
    HexNumber(n);
  }

  // An id is taken for a number exactly if it is made of hexadecimal digits, of either
  // case, with or without a line feed behind them.
  lemma ParseIdIff(id: string)
    ensures ParseId(id).Some? <==>
            exists s :: s != "" && (id == s || id == s + "\n")
                        && forall i :: 0 <= i < |s| ==> '0' <= s[i] <= '9' || 'a' <= s[i] <= 'f' || 'A' <= s[i] <= 'F'
  {
    if ParseId(id).Some? {
      var s := if id[|id| - 1] == '\n' then id[..|id| - 1] else id;
      assert id == s || id == s + "\n";
      assert s != "" && AllDigits(s);
    }
    forall s | s != "" && (id == s || id == s + "\n") && AllDigits(s) ensures ParseId(id).Some? {
      DigitsParse(s, id);
    }
  }

  lemma DigitsParse(s: string, id: string)
    requires s != "" && AllDigits(s) && (id == s || id == s + "\n")
    ensures ParseId(id) == Some(Number(s))
  {
    assert IsDigit(s[|s| - 1]);
    assert (s + "\n")[..|s|] == s;
  }

  // The digits above nine in upper case.
  function Upper(s: string): string {
    seq(|s|, i requires 0 <= i < |s| => if 'a' <= s[i] <= 'f' then s[i] - 'a' + 'A' else s[i])
  }

  lemma {:induction false} UpperNumber(s: string)
    requires AllDigits(s)
    ensures AllDigits(Upper(s)) && Number(Upper(s)) == Number(s)
  {
    assert forall i :: 0 <= i < |s| ==> IsDigit(s[i]) && IsDigit(Upper(s)[i]);
    if s != "" {
      var n := |s| - 1;
      UpperNumber(s[..n]);
      assert Upper(s)[..n] == Upper(s[..n]);
      assert Value(Upper(s)[n]) == Value(s[n]);
    }
  }

  // The key of an item is read from its id as printed, and from the same digits in
  // upper case.
  lemma EitherCaseParses(n: nat)
    ensures ParseId(Upper(Hex(n))) == Some(n)
  {
    HexNumber(n);
    UpperNumber(Hex(n));
    assert IsDigit(Upper(Hex(n))[|Hex(n)| - 1]);
  }

  // ----- the cache -----

  datatype Item = Item(key: nat, event: Option<string>, data: Option<string>)

  function ChunkOf(x: Item): Chunk {
    Sent(Hex(x.key), x.event, x.data)
  }

  function ChunksOf(xs: seq<Item>): seq<Chunk> {
    seq(|xs|, i requires 0 <= i < |xs| => ChunkOf(xs[i]))
  }

  // A bounded queue that drops its oldest element when it is full.
  function Pushed(cache: seq<Item>, size: nat, x: Item): seq<Item> {
    var more := cache + [x];
    if |more| > size then more[|more| - size..] else more
  }

  function Min(a: nat, b: nat): nat {
    if a <= b then a else b
  }

  predicate IsSuffix(xs: seq<Item>, ys: seq<Item>) {
    |xs| <= |ys| && xs == ys[|ys| - |xs|..]
  }

  function Later(cache: seq<Item>, key: nat): seq<Item> {
    if cache == [] then []
    else
      var n := |cache| - 1;
      Later(cache[..n], key) + if cache[n].key > key then [cache[n]] else []
  }

  // What a new subscriber is sent first.
  function Backlog(cache: seq<Item>, last: Option<nat>): seq<Chunk> {
    if last.None? then []
    else
      var key := last.value;
      if cache != [] && key >= cache[0].key then ChunksOf(Later(cache, key)) else [Reinit]
  }

  class Queue {
    var items: seq<Chunk>

    constructor ()
      ensures items == []
    {
      items := [];
    }

    method Put(c: Chunk)
      modifies this
      ensures items == old(items) + [c]
    {
      items := items + [c];
    }

    // Fetch all items that are immediately available.
    method Drain() returns (got: seq<Chunk>)
      modifies this
      ensures got == old(items) && items == []
    {
      got := [];
      while items != []
        invariant got + items == old(items)
        decreases |items|
      {
        got, items := got + [items[0]], items[1..];
      }
    }
  }

  class Publisher {
    const size: nat
    var cache: seq<Item>
    var queues: set<Queue>

    constructor (size: nat)
      ensures this.size == size && cache == [] && queues == {}
    {
      this.size, cache, queues := size, [], {};
    }

    // A name with a colon or a line break is refused and changes nothing.
    method Put(x: Item) returns (ok: bool)
      modifies this`cache, queues
      ensures ok <==> LegalName(x.event)
      ensures cache == if ok then Pushed(old(cache), size, x) else old(cache)
      ensures ok ==> |cache| == Min(size, |old(cache)| + 1) && IsSuffix(cache, old(cache) + [x])
      ensures queues == old(queues)
      ensures forall q :: q in queues ==> q.items == old(q.items) + if ok then [Sent(Hex(x.key), x.event, x.data)] else []
    {
      var text := FormatEvent(Hex(x.key), x.event, x.data);
      ok := text.Some?;
      if ok {
        cache := Pushed(cache, size, x);
        SendAll(ChunkOf(x));
      }
    }

    method SendAll(c: Chunk)
      modifies queues
      ensures forall q :: q in queues ==> q.items == old(q.items) + [c]
    {
      var todo := queues;
      while todo != {}
        invariant todo <= queues
        invariant forall q :: q in queues ==> q.items == old(q.items) + if q in todo then [] else [c]
        decreases |todo|
      {
        var q :| q in todo;
        q.Put(c);
        todo := todo - {q};
      }
    }

    method GetSubscriber(lastId: Option<string>) returns (queue: Queue)
      modifies this`queues
      ensures fresh(queue) && queues == old(queues) + {queue}
      ensures queue.items == Backlog(cache, KeyOf(lastId))
    {
      queue := new Queue();
      if lastId.Some? && ParseId(lastId.value).Some? {
        var key := ParseId(lastId.value).value;
        if cache != [] && key >= cache[0].key {
          var i := 0;
          while i < |cache|
            invariant 0 <= i <= |cache|
            invariant queue.items == ChunksOf(Later(cache[..i], key))
            modifies queue
          {
            LaterMore(cache[..i], cache[i], key);
            assert cache[..i + 1] == cache[..i] + [cache[i]];
            if cache[i].key > key {
              queue.Put(ChunkOf(cache[i]));
            }
            i := i + 1;
          }
          assert cache[..i] == cache;
        } else {
          queue.Put(Reinit);
        }
      }
      queues := queues + {queue};
    }
  }

  lemma LaterMore(cache: seq<Item>, x: Item, key: nat)
    ensures ChunksOf(Later(cache + [x], key)) == ChunksOf(Later(cache, key)) + if x.key > key then [ChunkOf(x)] else []
  {
    assert (cache + [x])[..|cache|] == cache;
  }
}
