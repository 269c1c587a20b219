// A connection as the text that is sent on it, read by a conforming client
// (src/cmscommon/eventsource.py:345-376).
module EventConnection {
  import opened Basics
  import opened EventFormat
  import opened EventClient
  import opened EventStream

  lemma {:induction false} HexUnspaced(n: nat)
    ensures Unspaced(Hex(n)) == Hex(n)
  {
    HexNumber(n);
  }

  lemma {:induction false} LastIdOfItems(xs: seq<Item>, before: string)
    ensures LastIdOf(ChunksOf(xs), before) == if xs == [] then before else Hex(xs[|xs| - 1].key)
    decreases |xs|
  {
    if xs != [] {
      assert ChunksOf(xs)[1..] == ChunksOf(xs[1..]);
      HexUnspaced(xs[0].key);
      LastIdOfItems(xs[1..], Hex(xs[0].key));
    }
  }

  // The events on a connection, without the pings and requests to reload.
  function SentOnly(cs: seq<Chunk>): seq<Chunk> {
    if cs == [] then []
    else if cs[0].Sent? then [cs[0]] + SentOnly(cs[1..])
    else SentOnly(cs[1..])
  }

  lemma SentFirst(cs: seq<Chunk>)
    requires cs != [] && cs[0].Sent?
    ensures SentOnly(cs)[0] == cs[0] && SentOnly(cs)[1..] == SentOnly(cs[1..])
  {
  }

  lemma {:induction false} IdOfSent(cs: seq<Chunk>, before: string)
    ensures LastIdOf(cs, before) == LastIdOf(SentOnly(cs), before)
    decreases |cs|
  {
    if cs != [] {
      if cs[0].Sent? {
        SentFirst(cs);
        IdOfSent(cs[1..], Unspaced(cs[0].id));
      } else {
        IdOfSent(cs[1..], before);
      }
    }
  }

  lemma {:induction false} ReceivedOfSent(cs: seq<Chunk>)
    ensures AllReceived(cs) == AllReceived(SentOnly(cs))
  {
    if cs != [] {
      ReceivedOfSent(cs[1..]);
      if cs[0].Sent? {
        SentFirst(cs);
      } else {
        assert Received(cs[0]) == [];
      }
    }
  }

  lemma {:induction false} SentIsThere(cs: seq<Chunk>, c: Chunk)
    requires c in cs && c.Sent?
    ensures c in SentOnly(cs)
  {
    if cs[0] != c {
      SentIsThere(cs[1..], c);
    }
  }

  lemma ItemsLegal(xs: seq<Item>)
    requires forall i :: 0 <= i < |xs| ==> LegalName(xs[i].event)
    ensures forall c :: c in ChunksOf(xs) ==> Legal(c)
  {
    forall c | c in ChunksOf(xs) ensures Legal(c) {
      var i :| 0 <= i < |xs| && c == ChunksOf(xs)[i];
      HexParses(xs[i].key);
    }
  }

  // A client that reads the text of a connection, with pings and requests to
  // reload anywhere in it, gets exactly the items with data that were sent on it
  // and comes back with the key of the last item.
  lemma ReadsLastId(cs: seq<Chunk>, xs: seq<Item>)
    requires SentOnly(cs) == ChunksOf(xs) && forall i :: 0 <= i < |xs| ==> LegalName(xs[i].event)
    ensures KeyOf(Some(Read(Stream(cs)).lastId)) == if xs == [] then None else Some(xs[|xs| - 1].key)
    ensures Read(Stream(cs)).got == AllReceived(ChunksOf(xs))
  {
    IdOfSent(cs, "");
    ReceivedOfSent(cs);
    ItemsLegal(xs);
    forall c | c in cs ensures Legal(c) {
      if c.Sent? {
        SentIsThere(cs, c);
      }
    }
    RoundTrip(cs);
    LastIdOfItems(xs, "");
    if xs != [] {
      HexParses(xs[|xs| - 1].key);
    }
  }
}
