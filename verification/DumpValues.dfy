// How a dump writes the values of columns and reads them back
// (src/cmscontrib/DumpExporter.py:126-151, src/cmscontrib/DumpImporter.py:111-143).
// Times are exact: the original's floating point seconds are reals here.
module DumpValues {
  datatype ColumnType = Plain | DateTime | Interval | Network | ArrayOf(item: ColumnType)

  // Times in microseconds, dates counted from 1970.
  datatype Value =
    | Null
    | Atom(s: string)
    | Date(micros: int)
    | Span(micros: int)
    | Net(address: string)
    | Items(items: seq<Value>)

  datatype Json =
    | JNull
    | JText(s: string)
    | JNumber(x: real)
    | JArray(items: seq<Json>)

  // The first of January 2030.
  const FALLBACK := 1893456000000000

  function DaysIn(year: nat): nat {
    if year % 4 == 0 && (year % 100 != 0 || year % 400 == 0) then 366 else 365
  }

  // The days from the first of January 1970 to that of a year.
  function DaysTo(year: nat): nat
    requires year >= 1970
  {
    if year == 1970 then 0 else DaysTo(year - 1) + DaysIn(year - 1)
  }

  lemma FourYears(from: nat)
    requires 1970 <= from <= 2026 && from % 4 == 2
    ensures DaysTo(from + 4) == DaysTo(from) + 1461
  {
    assert DaysTo(from + 2) == DaysTo(from) + DaysIn(from) + DaysIn(from + 1);
    assert DaysTo(from + 4) == DaysTo(from + 2) + DaysIn(from + 2) + DaysIn(from + 3);
  }

  // Every four years in this time have one leap year.
  lemma {:induction false} FourYearSpans(year: nat)
    requires 1970 <= year <= 2030 && year % 4 == 2
    ensures 4 * DaysTo(year) == 1461 * (year - 1970)
    decreases year
  {
    if year > 1970 {
      FourYears(year - 4);
      FourYearSpans(year - 4);
    }
  }

  lemma FallbackIsYear(year: nat)
    requires year == 2030
    ensures FALLBACK == DaysTo(year) * 24 * 60 * 60 * 1000000
  {
    FourYearSpans(year);
  }

  function Seconds(micros: int): real {
    micros as real / 1000000.0
  }

  // To the nearest microsecond.
  function Micros(seconds: real): int {
    (seconds * 1000000.0 + 0.5).Floor
  }

  lemma MicrosOfSeconds(m: int)
    ensures Micros(Seconds(m)) == m
  {
    assert Seconds(m) * 1000000.0 == m as real;
  }

  // The value is one a column of this type can hold.
  predicate Holds(t: ColumnType, v: Value)
    decreases t
  {
    v.Null? || match t
               case Plain => v.Atom?
               case DateTime => v.Date?
               case Interval => v.Span?
               case Network => v.Net?
               case ArrayOf(item) => v.Items? && forall i :: 0 <= i < |v.items| ==> Holds(item, v.items[i])
  }

  function Encode(t: ColumnType, v: Value): Json
    requires Holds(t, v)
    decreases t
  {
    if v.Null? then JNull
    else
      match t
      case Plain => JText(v.s)
      case DateTime => JNumber(Seconds(v.micros))
      case Interval => JNumber(Seconds(v.micros))
      case Network => JText(v.address)
      case ArrayOf(item) => JArray(seq(|v.items|, i requires 0 <= i < |v.items| => Encode(item, v.items[i])))
  }

  predicate Readable(t: ColumnType, j: Json)
    decreases t
  {
    j.JNull? || match t
                case Plain => j.JText?
                case DateTime => j.JNumber?
                case Interval => j.JNumber?
                case Network => j.JText?
                case ArrayOf(item) => j.JArray? && forall i :: 0 <= i < |j.items| ==> Readable(item, j.items[i])
  }

  // horizon: the last moment, in seconds, the importing system has dates for.
  function Decode(t: ColumnType, j: Json, horizon: real): Value
    requires Readable(t, j)
    decreases t
  {
    if j.JNull? then Null
    else
      match t
      case Plain => Atom(j.s)
      case DateTime => Date(if j.x <= horizon then Micros(j.x) else FALLBACK)
      case Interval => Span(Micros(j.x))
      case Network => Net(j.s)
      case ArrayOf(item) => Items(seq(|j.items|, i requires 0 <= i < |j.items| => Decode(item, j.items[i], horizon)))
  }

  // No date in the value is too far in the future for the importing system, save
  // the one that replaces those.
  predicate InTime(t: ColumnType, v: Value, horizon: real)
    requires Holds(t, v)
    decreases t
  {
    v.Null? || match t
               case DateTime => Seconds(v.micros) <= horizon || v.micros == FALLBACK
               case ArrayOf(item) => forall i :: 0 <= i < |v.items| ==> InTime(item, v.items[i], horizon)
               case _ => true
  }

  // A value survives exactly when all its dates are in time.
  lemma {:induction false} DecodeEncodeIff(t: ColumnType, v: Value, horizon: real)
    requires Holds(t, v)
    ensures Readable(t, Encode(t, v))
    ensures Decode(t, Encode(t, v), horizon) == v <==> InTime(t, v, horizon)
    decreases t
  {
    if !v.Null? {
      match t {
        case DateTime => MicrosOfSeconds(v.micros);
        case Interval => MicrosOfSeconds(v.micros);
        case ArrayOf(item) =>
          forall i | 0 <= i < |v.items|
            ensures Readable(item, Encode(item, v.items[i]))
            ensures Decode(item, Encode(item, v.items[i]), horizon) == v.items[i] <==> InTime(item, v.items[i], horizon)
          {
            DecodeEncodeIff(item, v.items[i], horizon);
          }
          ArrayIff(t, v, horizon);
        case _ =>
      }
    }
  }

  lemma ArrayIff(t: ColumnType, v: Value, horizon: real)
    requires t.ArrayOf? && Holds(t, v) && v.Items?
    requires forall i :: 0 <= i < |v.items| ==>
               && Readable(t.item, Encode(t.item, v.items[i]))
               && (Decode(t.item, Encode(t.item, v.items[i]), horizon) == v.items[i] <==> InTime(t.item, v.items[i], horizon))
    ensures Readable(t, Encode(t, v))
    ensures Decode(t, Encode(t, v), horizon) == v <==> InTime(t, v, horizon)
  {
    var back := Decode(t, Encode(t, v), horizon);
    assert forall i :: 0 <= i < |v.items| ==> back.items[i] == Decode(t.item, Encode(t.item, v.items[i]), horizon);
    if InTime(t, v, horizon) {
      assert back.items == v.items;
    }
  }
}
