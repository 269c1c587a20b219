// A client of an event stream that follows sections 6 and 7 of the W3C Server-Sent
// Events Recommendation, and what it makes of the text of the printer
// (src/cmscommon/eventsource.py:38-76, src/cmscommon/eventsource.py:345-376).
module EventClient {
  import opened Basics
  import opened EventFormat

  datatype Message = Message(id: string, name: string, data: string)

  // The state of the client between lines; lastId survives every event.
  datatype Client = Client(lastId: string, name: string, data: string, got: seq<Message>)

  const FRESH := Client("", "", "", [])

  // The lines of a stream that have ended.
  function StreamLines(s: string): (ls: seq<string>)
    decreases |s|
  {
    match FirstBreak(s)
    case None => []
    case Some(i) => [s[..i]] + StreamLines(AfterBreak(s, i))
  }

  // The byte order mark that may stand before the first line.
  const MARK := 0xFEFF as char

  function WithoutMark(s: string): string {
    if s != "" && s[0] == MARK then s[1..] else s
  }

  function ColonAt(l: string): (r: Option<nat>)
    ensures r.None? <==> ':' !in l
    ensures r.Some? ==> r.value < |l| && l[r.value] == ':' && ':' !in l[..r.value]
  {
    if l == "" then None
    else if l[0] == ':' then Some(0)
    else
      match ColonAt(l[1..])
      case None => None
      case Some(i) => assert l[..i + 1] == [l[0]] + l[1..][..i]; Some(i + 1)
  }

  function Unspaced(v: string): string {
    if v != "" && v[0] == ' ' then v[1..] else v
  }

  function Dispatch(c: Client): Client {
    if c.data == "" then c.(name := "")
    else
      var n := |c.data| - 1;
      var data := if c.data[n] == '\n' then c.data[..n] else c.data;
      c.(name := "", data := "", got := c.got + [Message(c.lastId, if c.name == "" then "message" else c.name, data)])
  }

  function Field(c: Client, name: string, value: string): Client {
    if name == "event" then c.(name := value)
    else if name == "data" then c.(data := c.data + value + "\n")
    else if name == "id" then c.(lastId := value)
    else c
  }

  function ReadLine(c: Client, l: string): Client {
    if l == "" then Dispatch(c)
    else
      match ColonAt(l)
      case None => Field(c, l, "")
      case Some(i) => if i == 0 then c else Field(c, l[..i], Unspaced(l[i + 1..]))
  }

  function ReadLines(c: Client, ls: seq<string>): Client
    decreases |ls|
  {
    if ls == [] then c else ReadLines(ReadLine(c, ls[0]), ls[1..])
  }

  function Read(stream: string): Client {
    ReadLines(FRESH, StreamLines(WithoutMark(stream)))
  }

  lemma {:induction false} ReadAppend(c: Client, a: seq<string>, b: seq<string>)
    ensures ReadLines(c, a + b) == ReadLines(ReadLines(c, a), b)
    decreases |a|
  {
    if a == [] {
      assert a + b == b;
    } else {
      ReadAppend(ReadLine(c, a[0]), a[1..], b);
      assert (a + b)[1..] == a[1..] + b;
    }
  }

  // ----- what it is to receive -----

  function Trimmed(ls: seq<string>): seq<string> {
    seq(|ls|, i requires 0 <= i < |ls| => Unspaced(ls[i]))
  }

  // What the client is to receive: the client strips one space from the start
  // of each value, takes an empty name for the default one, and sees every
  // line break as a line feed.
  function Received(c: Chunk): seq<Message> {
    if c.Sent? && c.data.Some? then
      var name := if Named(c.event) then Unspaced(c.event.value) else "";
      [Message(Unspaced(c.id), if name == "" then "message" else name, Join(Trimmed(Split(c.data.value))))]
    else []
  }

  function AllReceived(cs: seq<Chunk>): seq<Message> {
    if cs == [] then [] else Received(cs[0]) + AllReceived(cs[1..])
  }

  function LastIdOf(cs: seq<Chunk>, before: string): string {
    if cs == [] then before
    else LastIdOf(cs[1..], if cs[0].Sent? then Unspaced(cs[0].id) else before)
  }

  // ----- the client reads back exactly what was sent -----

  lemma BreakAt(s: string, i: nat)
    requires i < |s| && IsBreak(s[i]) && Unbroken(s[..i])
    ensures FirstBreak(s) == Some(i)
  {
    var j := FirstBreak(s).value;
    assert forall k :: 0 <= k < i ==> s[..i][k] == s[k];
    assert forall k :: 0 <= k < j ==> s[..j][k] == s[k];
  }

  lemma ColonFirst(l: string, i: nat)
    requires i < |l| && l[i] == ':' && ':' !in l[..i]
    ensures ColonAt(l) == Some(i)
  {
    assert l[i] in l;
    var j := ColonAt(l).value;
    assert forall k :: 0 <= k < i ==> l[..i][k] == l[k];
    assert forall k :: 0 <= k < j ==> l[..j][k] == l[k];
  }

  lemma LineFirst(l: string, rest: string)
    requires Unbroken(l)
    ensures StreamLines(l + "\n" + rest) == [l] + StreamLines(rest)
  {
    var s := l + "\n" + rest;
    assert s[|l|] == '\n' && s[..|l|] == l && s[|l| + 1..] == rest;
    BreakAt(s, |l|);
  }

  lemma {:induction false} TextLines(ls: seq<string>, rest: string)
    requires forall l :: l in ls ==> Unbroken(l)
    ensures StreamLines(Text(ls) + rest) == ls + StreamLines(rest)
  {
    if ls == [] {
      assert Text(ls) + rest == rest;
    } else {
      TextFirst(ls, rest);
      LineFirst(ls[0], Text(ls[1..]) + rest);
      TextLines(ls[1..], rest);
      FirstAndRest(ls, StreamLines(rest));
    }
  }

  lemma TextFirst(ls: seq<string>, rest: string)
    requires ls != []
    ensures Text(ls) + rest == ls[0] + "\n" + (Text(ls[1..]) + rest)
  {
  }

  lemma FirstAndRest(ls: seq<string>, more: seq<string>)
    requires ls != []
    ensures [ls[0]] + (ls[1..] + more) == ls + more
  {
  }

  lemma ChunkUnbroken(c: Chunk)
    requires Legal(c)
    ensures forall l :: l in ChunkLines(c) ==> Unbroken(l)
  {
    match c
    case Ping =>
    case Reinit =>
    case Sent(id, event, data) =>
      if data.Some? {
        DataUnbroken(Split(data.value));
      }
      forall l | l in ChunkLines(c) ensures Unbroken(l) {
        EventLineIs(id, event, data, l);
      }
  }

  // The lines of an event are its id, its name, its data and the empty line.
  lemma EventLineIs(id: string, event: Option<string>, data: Option<string>, l: string)
    requires l in EventLines(id, event, data)
    ensures || l == "id:" + id || (Named(event) && l == "event:" + event.value)
            || (data.Some? && l in DataLines(Split(data.value))) || l == ""
  {
  }

  lemma DataUnbroken(ls: seq<string>)
    requires forall l :: l in ls ==> Unbroken(l)
    ensures forall l :: l in DataLines(ls) ==> Unbroken(l)
  {
    forall l | l in DataLines(ls) ensures Unbroken(l) {
      var i :| 0 <= i < |ls| && l == DataLines(ls)[i];
      assert ls[i] in ls;
    }
  }

  // A line that starts with a field name.
  lemma ReadField(c: Client, name: string, prefix: string, value: string)
    requires ':' !in name && name != "" && prefix == name + ":"
    ensures ReadLine(c, prefix + value) == Field(c, name, Unspaced(value))
  {
    var l := prefix + value;
    assert l[|name|] == ':' && l[..|name|] == name && l[|name| + 1..] == value;
    ColonFirst(l, |name|);
  }

  lemma ReadOne(c: Client, l: string, rest: seq<string>)
    ensures ReadLines(c, [l] + rest) == ReadLines(ReadLine(c, l), rest)
  {
    assert ([l] + rest)[1..] == rest;
  }

  lemma ReadNone(c: Client)
    ensures ReadLines(c, []) == c
  {
  }

  lemma DataLinesTail(ls: seq<string>)
    requires ls != []
    ensures DataLines(ls) == ["data:" + ls[0]] + DataLines(ls[1..])
    ensures Trimmed(ls) == [Unspaced(ls[0])] + Trimmed(ls[1..])
    ensures Text(Trimmed(ls)) == Unspaced(ls[0]) + "\n" + Text(Trimmed(ls[1..]))
  {
    assert Trimmed(ls)[1..] == Trimmed(ls[1..]);
  }

  lemma Regroup(a: string, b: string, c: string)
    ensures (a + b + "\n") + c == a + (b + "\n" + c)
  {
  }

  lemma {:induction false} ReadData(c: Client, ls: seq<string>)
    ensures ReadLines(c, DataLines(ls)) == c.(data := c.data + Text(Trimmed(ls)))
    decreases |ls|
  {
    if ls == [] {
      assert c.data + "" == c.data;
    } else {
      DataLinesTail(ls);
      ReadField(c, "data", "data:", ls[0]);
      var next := c.(data := c.data + Unspaced(ls[0]) + "\n");
      ReadOne(c, "data:" + ls[0], DataLines(ls[1..]));
      ReadData(next, ls[1..]);
      Regroup(c.data, Unspaced(ls[0]), Text(Trimmed(ls[1..])));
    }
  }

  predicate Idle(c: Client) {
    c.name == "" && c.data == ""
  }

  lemma DispatchText(c: Client, ls: seq<string>)
    requires c.data == Text(ls) && ls != []
    ensures Dispatch(c) == c.(name := "", data := "", got := c.got + [Message(c.lastId, if c.name == "" then "message" else c.name, Join(ls))])
  {
    JoinText(ls);
    assert (Join(ls) + "\n")[..|Join(ls)|] == Join(ls);
  }

  lemma ReadName(c: Client, name: string)
    ensures ReadLine(c, "event:" + name) == c.(name := Unspaced(name))
  {
    ReadField(c, "event", "event:", name);
  }

  lemma ReadNameAndData(c: Client, event: Option<string>, data: Option<string>)
    requires Idle(c)
    ensures ReadLines(c, MiddleLines(event, data))
            == c.(name := if Named(event) then Unspaced(event.value) else "",
                  data := if data.Some? then Text(Trimmed(Split(data.value))) else "")
  {
    var d := if data.Some? then DataLines(Split(data.value)) else [];
    if Named(event) {
      var l := "event:" + event.value;
      assert MiddleLines(event, data) == [l] + d;
      ReadName(c, event.value);
      ReadOne(c, l, d);
      ReadDataOrNone(c.(name := Unspaced(event.value)), data);
    } else {
      assert MiddleLines(event, data) == d;
      ReadDataOrNone(c, data);
    }
  }

  lemma ReadDataOrNone(c: Client, data: Option<string>)
    requires c.data == ""
    ensures ReadLines(c, if data.Some? then DataLines(Split(data.value)) else [])
            == c.(data := if data.Some? then Text(Trimmed(Split(data.value))) else "")
  {
    if data.Some? {
      ReadData(c, Split(data.value));
    } else {
      ReadNone(c);
    }
  }

  lemma ReadEnd(c: Client, id: string, event: Option<string>, data: Option<string>)
    requires c.lastId == Unspaced(id)
    requires c.name == if Named(event) then Unspaced(event.value) else ""
    requires c.data == if data.Some? then Text(Trimmed(Split(data.value))) else ""
    ensures ReadLine(c, "") == Client(Unspaced(id), "", "", c.got + Received(Sent(id, event, data)))
  {
    if data.Some? {
      DispatchText(c, Trimmed(Split(data.value)));
    } else {
      assert c.got + [] == c.got;
    }
  }

  lemma EventLinesParts(id: string, event: Option<string>, data: Option<string>)
    ensures EventLines(id, event, data) == ["id:" + id] + (MiddleLines(event, data) + [""])
  {
    LinesOfEvent(id, event, data);
    LinesAssoc(["id:" + id], MiddleLines(event, data), [""]);
  }

  lemma ReadId(c: Client, id: string)
    ensures ReadLine(c, "id:" + id) == c.(lastId := Unspaced(id))
  {
    ReadField(c, "id", "id:", id);
  }

  lemma ReadBlank(c: Client, lines: seq<string>)
    ensures ReadLines(c, lines + [""]) == Dispatch(ReadLines(c, lines))
  {
    ReadAppend(c, lines, [""]);
    ReadOne(ReadLines(c, lines), "", []);
  }

  lemma ReadEvent(c: Client, id: string, event: Option<string>, data: Option<string>)
    requires Idle(c)
    ensures ReadLines(c, EventLines(id, event, data)) == c.(lastId := Unspaced(id), got := c.got + Received(Sent(id, event, data)))
  {
    var middle, next := MiddleLines(event, data), c.(lastId := Unspaced(id));
    EventLinesParts(id, event, data);
    ReadOne(c, "id:" + id, middle + [""]);
    ReadId(c, id);
    ReadBlank(next, middle);
    ReadNameAndData(next, event, data);
    ReadEnd(ReadLines(next, middle), id, event, data);
  }

  // An event with a name and no data leaves no trace.
  lemma ReadDataless(c: Client, first: string, name: string)
    requires Idle(c) && first == "event:" + name
    ensures ReadLines(c, [first] + [""]) == c
  {
    ReadBlank(c, [first]);
    ReadOne(c, first, []);
    ReadField(c, "event", "event:", name);
    assert [first] + [] == [first];
  }

  lemma ReadChunk(c: Client, chunk: Chunk)
    requires Idle(c)
    ensures ReadLines(c, ChunkLines(chunk)) ==
            c.(lastId := if chunk.Sent? then Unspaced(chunk.id) else c.lastId, got := c.got + Received(chunk))
  {
    if chunk.Ping? {
      ReadOne(c, ":", []);
      ReadNone(c);
    } else if chunk.Sent? {
      ReadEvent(c, chunk.id, chunk.event, chunk.data);
    } else {
      ReadDataless(c, "event:reinit", "reinit");
      assert ChunkLines(chunk) == ["event:reinit"] + [""];
    }
  }

  lemma {:induction false} ReadStream(c: Client, cs: seq<Chunk>)
    requires Idle(c) && forall x :: x in cs ==> Legal(x)
    ensures ReadLines(c, StreamLines(Stream(cs))) == c.(lastId := LastIdOf(cs, c.lastId), got := c.got + AllReceived(cs))
    decreases |cs|
  {
    if cs == [] {
      ReadNone(c);
    } else {
      ChunkUnbroken(cs[0]);
      TextLines(ChunkLines(cs[0]), Stream(cs[1..]));
      ReadAppend(c, ChunkLines(cs[0]), StreamLines(Stream(cs[1..])));
      ReadChunk(c, cs[0]);
      var next := ReadLines(c, ChunkLines(cs[0]));
      ReadStream(next, cs[1..]);
      Gather(c.got, Received(cs[0]), AllReceived(cs[1..]));
    }
  }

  lemma Gather(a: seq<Message>, b: seq<Message>, c: seq<Message>)
    ensures (a + b) + c == a + (b + c)
  {
  }

  lemma NoMark(cs: seq<Chunk>)
    ensures WithoutMark(Stream(cs)) == Stream(cs)
  {
    if cs != [] {
      var l := ChunkLines(cs[0])[0];
      assert l[0] in {':', 'i', 'e'};
      assert Stream(cs)[0] == l[0];
    }
  }

  // A client gets exactly the events sent, in order, whatever comments stand
  // between them, and knows the id of the last one.
  lemma RoundTrip(cs: seq<Chunk>)
    requires forall x :: x in cs ==> Legal(x)
    ensures Read(Stream(cs)).got == AllReceived(cs)
    ensures Read(Stream(cs)).lastId == LastIdOf(cs, "")
  {
    NoMark(cs);
    ReadStream(FRESH, cs);
  }

  // The request to start over carries no data, so a conforming client never
  // dispatches it.
  lemma ReinitIsNotDispatched(before: seq<Chunk>, after: seq<Chunk>)
    requires forall x :: x in before + after ==> Legal(x)
    ensures Read(Stream(before + [Reinit] + after)) == Read(Stream(before + after))
  {
    var more := before + ([Reinit] + after);
    assert before + [Reinit] + after == more;
    assert forall x :: x in more ==> x == Reinit || x in before + after;
    NoMark(more);
    NoMark(before + after);
    ReadStream(FRESH, more);
    ReadStream(FRESH, before + after);
    ReceivedAppend(before, after);
    LastIdAppend(before, after, "");
    ReceivedAppend(before, [Reinit] + after);
    LastIdAppend(before, [Reinit] + after, "");
    TailOfSum([Reinit], after);
    assert AllReceived([Reinit] + after) == AllReceived(after);
  }

  lemma {:induction false} ReceivedAppend(a: seq<Chunk>, b: seq<Chunk>)
    ensures AllReceived(a + b) == AllReceived(a) + AllReceived(b)
  {
    if a == [] {
      assert a + b == b;
    } else {
      TailOfSum(a, b);
      ReceivedAppend(a[1..], b);
      Gather(Received(a[0]), AllReceived(a[1..]), AllReceived(b));
    }
  }

  lemma {:induction false} LastIdAppend(a: seq<Chunk>, b: seq<Chunk>, id: string)
    ensures LastIdOf(a + b, id) == LastIdOf(b, LastIdOf(a, id))
    decreases |a|
  {
    if a == [] {
      assert a + b == b;
    } else {
      TailOfSum(a, b);
      LastIdAppend(a[1..], b, if a[0].Sent? then Unspaced(a[0].id) else id);
    }
  }

  lemma TailOfSum(a: seq<Chunk>, b: seq<Chunk>)
    requires a != []
    ensures a + b != [] && (a + b)[0] == a[0] && (a + b)[1..] == a[1..] + b
  {
  }

  // ----- when nothing is lost -----

  predicate Spaced(v: string) {
    v != "" && v[0] == ' '
  }

  // The event as it was meant, with every line break a line feed.
  function Meant(id: string, event: Option<string>, data: string): Message {
    Message(id, event.GetOr("message"), Join(Split(data)))
  }

  // An event arrives as it was meant exactly when it has data, its name is not
  // empty, and neither its id, its name nor a line of its data starts with a
  // space.
  lemma ArrivesAsMeantIff(id: string, event: Option<string>, data: Option<string>)
    ensures Received(Sent(id, event, data)) == [Meant(id, event, data.GetOr(""))]
            <==> && data.Some? && !Spaced(id) && event != Some("") && !(event.Some? && Spaced(event.value))
                 && forall l :: l in Split(data.value) ==> !Spaced(l)
  {
    if data.Some? {
      TrimmedJoinIff(Split(data.value));
    }
  }

  lemma {:induction false} TrimmedJoinIff(ls: seq<string>)
    requires ls != []
    ensures |Join(Trimmed(ls))| <= |Join(ls)|
    ensures Join(Trimmed(ls)) == Join(ls) <==> forall l :: l in ls ==> !Spaced(l)
  {
    if |ls| > 1 {
      assert Trimmed(ls)[1..] == Trimmed(ls[1..]);
      TrimmedJoinIff(ls[1..]);
      if Spaced(ls[0]) {
        assert |Join(Trimmed(ls))| < |Join(ls)|;
      } else if Join(Trimmed(ls)) == Join(ls) {
        var n := |ls[0]| + 1;
        assert Join(Trimmed(ls))[n..] == Join(Trimmed(ls[1..]));
        assert Join(ls)[n..] == Join(ls[1..]);
      }
    } else {
      assert Join(Trimmed(ls)) == Unspaced(ls[0]);
      assert ls[0] in ls && forall l :: l in ls ==> l == ls[0];
      assert Spaced(ls[0]) ==> |Unspaced(ls[0])| < |ls[0]|;
    }
  }
}
