// The text sent on an event stream (src/cmscommon/eventsource.py:38-76). Text is a
// sequence of characters; the bytes are its UTF-8 encoding.
module EventFormat {
  import opened Basics

  // ----- lines -----

  predicate IsBreak(c: char) {
    c == '\r' || c == '\n'
  }

  predicate Unbroken(s: string) {
    forall i :: 0 <= i < |s| ==> !IsBreak(s[i])
  }

  // The position of the first line break, and the text after it. A carriage
  // return and the line feed after it are one break.
  function FirstBreak(s: string): (r: Option<nat>)
    ensures r.None? <==> Unbroken(s)
    ensures r.Some? ==> r.value < |s| && IsBreak(s[r.value]) && Unbroken(s[..r.value])
  {
    if s == "" then None
    else if IsBreak(s[0]) then Some(0)
    else
      match FirstBreak(s[1..])
      case None => assert s == [s[0]] + s[1..]; None
      case Some(i) => assert s[..i + 1] == [s[0]] + s[1..][..i]; Some(i + 1)
  }

  function AfterBreak(s: string, i: nat): (rest: string)
    requires i < |s| && IsBreak(s[i])
    ensures |rest| < |s|
  {
    if s[i] == '\r' && i + 1 < |s| && s[i + 1] == '\n' then s[i + 2..] else s[i + 1..]
  }

  // The pieces of a text between its line breaks.
  function Split(s: string): (ls: seq<string>)
    ensures ls != [] && forall l :: l in ls ==> Unbroken(l)
    decreases |s|
  {
    match FirstBreak(s)
    case None => [s]
    case Some(i) => [s[..i]] + Split(AfterBreak(s, i))
  }

  function Join(ls: seq<string>): string
    requires ls != []
  {
    if |ls| == 1 then ls[0] else ls[0] + "\n" + Join(ls[1..])
  }

  // Every line with a line feed after it.
  function Text(ls: seq<string>): string {
    if ls == [] then "" else ls[0] + "\n" + Text(ls[1..])
  }

  lemma {:induction false} TextAppend(a: seq<string>, b: seq<string>)
    ensures Text(a + b) == Text(a) + Text(b)
  {
    if a == [] {
      assert a + b == b;
    } else {
      TextAppend(a[1..], b);
      assert (a + b)[1..] == a[1..] + b;
    }
  }

  lemma {:induction false} JoinText(ls: seq<string>)
    requires ls != []
    ensures Join(ls) + "\n" == Text(ls)
  {
    if |ls| == 1 {
      assert Text(ls[1..]) == "";
    } else {
      JoinText(ls[1..]);
    }
  }

  // A text in which every line break, two characters or one, is a line feed.
  function Normal(s: string): string {
    if s == "" then ""
    else if |s| > 1 && s[0] == '\r' && s[1] == '\n' then "\n" + Normal(s[2..])
    else [if s[0] == '\r' then '\n' else s[0]] + Normal(s[1..])
  }

  // That is what joining the pieces of a text gives.
  lemma {:induction false} JoinSplitIsNormal(s: string)
    ensures Join(Split(s)) == Normal(s)
    decreases |s|
  {
    match FirstBreak(s) {
      case None => UnbrokenIsNormal(s);
      case Some(i) =>
        JoinSplitIsNormal(AfterBreak(s, i));
        NormalAt(s, i);
        assert Split(s)[1..] == Split(AfterBreak(s, i));
    }
  }

  lemma {:induction false} UnbrokenIsNormal(s: string)
    requires Unbroken(s)
    ensures Normal(s) == s
  {
    if s != "" {
      assert !IsBreak(s[0]);
      UnbrokenIsNormal(s[1..]);
    }
  }

  lemma {:induction false} NormalAt(s: string, i: nat)
    requires i < |s| && IsBreak(s[i]) && Unbroken(s[..i])
    ensures Normal(s) == s[..i] + "\n" + Normal(AfterBreak(s, i))
  {
    if i > 0 {
      assert !IsBreak(s[..i][0]);
      assert s[1..][..i - 1] == s[..i][1..];
      NormalAt(s[1..], i - 1);
      assert AfterBreak(s[1..], i - 1) == AfterBreak(s, i);
    }
  }

  // ----- the printer -----

  predicate HasIllegal(name: string) {
    exists i :: 0 <= i < |name| && (IsBreak(name[i]) || name[i] == ':')
  }

  predicate LegalName(event: Option<string>) {
    event.None? || event.value == "message" || !HasIllegal(event.value)
  }

  // The names that are refused: those with a line break or a colon in them.
  lemma LegalNameIff(event: Option<string>)
    ensures LegalName(event) <==> event.None? || ('\r' !in event.value && '\n' !in event.value && ':' !in event.value)
  {
    if event.Some? {
      var s := event.value;
      forall c | c in s && (c == '\r' || c == '\n' || c == ':') ensures HasIllegal(s) {
        var i :| 0 <= i < |s| && s[i] == c;
      }
      if s == "message" {
        MessageIsPlain(s);
      }
    }
  }

  lemma MessageIsPlain(s: string)
    requires s == "message"
    ensures !HasIllegal(s)
  {
  }

  predicate Named(event: Option<string>) {
    event.Some? && event.value != "message"
  }

  function DataLines(ls: seq<string>): seq<string> {
    seq(|ls|, i requires 0 <= i < |ls| => "data:" + ls[i])
  }

  // The lines of one event, the empty one that ends it included.
  function EventLines(id: string, event: Option<string>, data: Option<string>): seq<string> {
    ["id:" + id]
    + (if Named(event) then ["event:" + event.value] else [])
    + (if data.Some? then DataLines(Split(data.value)) else [])
    + [""]
  }

  // The name of the default is as good as none.
  lemma MessageIsDefault(id: string, data: Option<string>)
    ensures LegalName(Some("message")) && EventLines(id, Some("message"), data) == EventLines(id, None, data)
  {
  }

  method AddData(lines: seq<string>, head: seq<string>) returns (result: seq<string>)
    ensures result == head + DataLines(lines)
  {
    result := head;
    var i := 0;
    while i < |lines|
      invariant 0 <= i <= |lines|
      invariant result == head + DataLines(lines)[..i]
    {
      result := result + ["data:" + lines[i]];
      i := i + 1;
    }
  }

  // A name with a colon or a line break in it is refused.
  method FormatEvent(id: string, event: Option<string>, data: Option<string>) returns (r: Option<string>)
    ensures r == if LegalName(event) then Some(Text(EventLines(id, event, data))) else None
  {
    if event.Some? && event.value != "message" && HasIllegal(event.value) {
      return None;
    }
    var result := ["id:" + id];
    if event.Some? && event.value != "message" {
      result := result + ["event:" + event.value];
    }
    ghost var named := result;
    if data.Some? {
      result := AddData(Split(data.value), result);
    }
    MiddleOf(id, event, data, named, result);
    EventEnds(id, event, data);
    result := result + ["\n"];
    return Some(Join(result));
  }

  lemma MiddleOf(id: string, event: Option<string>, data: Option<string>, named: seq<string>, result: seq<string>)
    requires named == if Named(event) then ["id:" + id] + ["event:" + event.value] else ["id:" + id]
    requires result == if data.Some? then named + DataLines(Split(data.value)) else named
    ensures result == ["id:" + id] + MiddleLines(event, data)
  {
    var name := if Named(event) then ["event:" + event.value] else [];
    var lines := if data.Some? then DataLines(Split(data.value)) else [];
    LinesAssoc(["id:" + id], name, lines);
    NoLines(["id:" + id]);
    NoLines(named);
  }

  lemma NoLines(ls: seq<string>)
    ensures ls + [] == ls
  {
  }

  // The lines of an event between its first and its last.
  function MiddleLines(event: Option<string>, data: Option<string>): seq<string> {
    (if Named(event) then ["event:" + event.value] else []) + (if data.Some? then DataLines(Split(data.value)) else [])
  }

  lemma {:induction false} JoinAppend(ls: seq<string>, last: string)
    requires ls != []
    ensures Join(ls + [last]) == Join(ls) + "\n" + last
  {
    if |ls| > 1 {
      JoinAppend(ls[1..], last);
      assert (ls + [last])[1..] == ls[1..] + [last];
    } else {
      assert (ls + [last])[1..] == [last];
    }
  }

  lemma JoinEnds(ls: seq<string>)
    requires ls != []
    ensures Join(ls + ["\n"]) == Text(ls + [""])
  {
    TextAppend(ls, [""]);
    JoinAppend(ls, "\n");
    JoinText(ls);
    assert Text([""]) == "\n" by {
      assert [""][1..] == [];
    }
  }

  lemma EventEnds(id: string, event: Option<string>, data: Option<string>)
    ensures Join(["id:" + id] + MiddleLines(event, data) + ["\n"]) == Text(EventLines(id, event, data))
  {
    LinesOfEvent(id, event, data);
    JoinEnds(["id:" + id] + MiddleLines(event, data));
  }

  lemma LinesOfEvent(id: string, event: Option<string>, data: Option<string>)
    ensures EventLines(id, event, data) == ["id:" + id] + MiddleLines(event, data) + [""]
  {
    var name := if Named(event) then ["event:" + event.value] else [];
    LinesAssoc(["id:" + id], name, if data.Some? then DataLines(Split(data.value)) else []);
  }

  lemma LinesAssoc(a: seq<string>, b: seq<string>, c: seq<string>)
    ensures a + b + c == a + (b + c)
  {
  }

  // ----- what is on a stream -----

  datatype Chunk =
    | Ping
    | Sent(id: string, event: Option<string>, data: Option<string>)
    | Reinit

  predicate Legal(c: Chunk) {
    c.Sent? ==> Unbroken(c.id) && LegalName(c.event)
  }

  function ChunkLines(c: Chunk): seq<string> {
    match c
    case Ping => [":"]
    case Sent(id, event, data) => EventLines(id, event, data)
    case Reinit => ["event:reinit", ""]
  }

  function Stream(cs: seq<Chunk>): string {
    if cs == [] then "" else Text(ChunkLines(cs[0])) + Stream(cs[1..])
  }

  // ----- line breaks in the data -----

  // Data without carriage returns is not changed at all.
  lemma {:induction false} JoinSplitIff(data: string)
    ensures |Join(Split(data))| <= |data|
    ensures Join(Split(data)) == data <==> '\r' !in data
    decreases |data|
  {
    var b := FirstBreak(data);
    if b.Some? {
      var i, rest := b.value, AfterBreak(data, b.value);
      JoinSplitIff(rest);
      JoinSplitStep(data, i);
      var j := Join(Split(rest));
      if data[i] == '\n' {
        LineThenRest(data, i);
        SameAfterLine(data[..i], j, rest);
        NoReturns(data, i);
      } else {
        assert data[i] in data;
        assert (data[..i] + "\n" + j)[i] == '\n';
      }
    }
  }

  lemma JoinFirst(l: string, ls: seq<string>)
    requires ls != []
    ensures Join([l] + ls) == l + "\n" + Join(ls)
  {
    assert ([l] + ls)[1..] == ls;
  }

  lemma JoinSplitStep(data: string, i: nat)
    requires FirstBreak(data) == Some(i)
    ensures Join(Split(data)) == data[..i] + "\n" + Join(Split(AfterBreak(data, i)))
  {
    JoinFirst(data[..i], Split(AfterBreak(data, i)));
  }

  lemma LineThenRest(data: string, i: nat)
    requires i < |data| && data[i] == '\n'
    ensures data == data[..i] + "\n" + AfterBreak(data, i)
  {
  }

  lemma SameAfterLine(l: string, a: string, b: string)
    ensures l + "\n" + a == l + "\n" + b <==> a == b
  {
    if l + "\n" + a == l + "\n" + b {
      assert (l + "\n" + a)[|l| + 1..] == a && (l + "\n" + b)[|l| + 1..] == b;
    }
  }

  lemma NoReturns(data: string, i: nat)
    requires i < |data| && data[i] == '\n' && Unbroken(data[..i])
    ensures '\r' in data <==> '\r' in AfterBreak(data, i)
  {
    assert data == data[..i] + [data[i]] + AfterBreak(data, i);
  }
}
