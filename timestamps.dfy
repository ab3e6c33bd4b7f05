/**
 * The persisted timestamp form of main.go, the Go layout
 * "2006-01-02T15:04:05.000Z" (year-month-day, 'T', hour:minute:second,
 * '.', three millisecond digits, a literal 'Z' for UTC): a millisecond
 * profile of the date-time format in section 5.6 of RFC 3339.
 *
 * A layout is a sequence of chunks, zero-padded numbers and literal
 * characters; formatting and parsing are both driven by it, as in Go's
 * time package, and are inverse to each other.
 */
module Timestamps {
  import opened Wrappers
  import opened Digits

  datatype Chunk = Num(width: nat) | Lit(c: char)

  /** The layout of main.go's TimeFormat constant. */
  const Layout: seq<Chunk> :=
    [Num(4), Lit('-'), Num(2), Lit('-'), Num(2), Lit('T'),
     Num(2), Lit(':'), Num(2), Lit(':'), Num(2), Lit('.'), Num(3), Lit('Z')]

  /** `vals` supplies one number, small enough for its width, per numeric chunk. */
  predicate Fits(layout: seq<Chunk>, vals: seq<nat>) {
    if layout == [] then vals == []
    else match layout[0]
      case Lit(_) => Fits(layout[1..], vals)
      case Num(w) => vals != [] && vals[0] < Pow10(w) && Fits(layout[1..], vals[1..])
  }

  function FormatWith(layout: seq<Chunk>, vals: seq<nat>): (s: string)
    requires Fits(layout, vals)
  {
    if layout == [] then ""
    else match layout[0]
      case Lit(c) => [c] + FormatWith(layout[1..], vals)
      case Num(w) => Pad(vals[0], w) + FormatWith(layout[1..], vals[1..])
  }

  /** Reads `s` against `layout`: every number exactly its width in digits, every literal in place, nothing left over. */
  function ParseWith(layout: seq<Chunk>, s: string): (r: Option<seq<nat>>)
    ensures r.Some? ==> Fits(layout, r.value)
  {
    if layout == [] then (if s == [] then Some([]) else None)
    else match layout[0]
      case Lit(c) =>
        if s != [] && s[0] == c then ParseWith(layout[1..], s[1..]) else None
      case Num(w) =>
        if w <= |s| && AllDigits(s[..w]) then
          match ParseWith(layout[1..], s[w..])
          case None => None
          case Some(rest) => Some([Value(s[..w])] + rest)
        else None
  }

  /** Formatting then parsing with the same layout gives back the numbers. */
  lemma {:induction false} ParseWithFormatWith(layout: seq<Chunk>, vals: seq<nat>)
    requires Fits(layout, vals)
    ensures ParseWith(layout, FormatWith(layout, vals)) == Some(vals)
  {
    if layout != [] {
      var s := FormatWith(layout, vals);
      match layout[0]
      case Lit(c) =>
        ParseWithFormatWith(layout[1..], vals);
        assert s[1..] == FormatWith(layout[1..], vals);
      case Num(w) =>
        ParseWithFormatWith(layout[1..], vals[1..]);
        assert s[..w] == Pad(vals[0], w);
        assert s[w..] == FormatWith(layout[1..], vals[1..]);
        ValueOfPad(vals[0], w);
        assert vals == [vals[0]] + vals[1..];
    }
  }

  /** A string the layout accepts is exactly the formatting of what was read from it. */
  lemma {:induction false} FormatWithParseWith(layout: seq<Chunk>, s: string)
    requires ParseWith(layout, s).Some?
    ensures FormatWith(layout, ParseWith(layout, s).value) == s
  {
    if layout != [] {
      match layout[0]
      case Lit(c) =>
        FormatWithParseWith(layout[1..], s[1..]);
        assert s == [c] + s[1..];
      case Num(w) =>
        var rest := ParseWith(layout[1..], s[w..]).value;
        FormatWithParseWith(layout[1..], s[w..]);
        PadOfValue(s[..w]);
        assert ParseWith(layout, s).value == [Value(s[..w])] + rest;
        assert s == s[..w] + s[w..];
    }
  }

  /** A calendar instant in UTC, with the fields main.go's layout prints. */
  datatype DateTime = DateTime(year: nat, month: nat, day: nat,
                               hour: nat, minute: nat, second: nat, milli: nat)

  predicate IsLeapYear(y: nat) {
    y % 4 == 0 && (y % 100 != 0 || y % 400 == 0)
  }

  function DaysInMonth(y: nat, m: nat): (n: nat)
    requires 1 <= m <= 12
    ensures 28 <= n <= 31
  {
    if m == 2 then (if IsLeapYear(y) then 29 else 28)
    else if m == 4 || m == 6 || m == 9 || m == 11 then 30
    else 31
  }

  /** The ranges Go's time.Parse checks for this layout (a four-digit year, day within its month). */
  predicate Valid(t: DateTime) {
    && t.year < 10000
    && 1 <= t.month <= 12
    && 1 <= t.day <= DaysInMonth(t.year, t.month)
    && t.hour < 24 && t.minute < 60 && t.second < 60 && t.milli < 1000
  }

  function Fields(t: DateTime): seq<nat> {
    [t.year, t.month, t.day, t.hour, t.minute, t.second, t.milli]
  }

  lemma LayoutFits(t: DateTime)
    requires Valid(t)
    ensures Fits(Layout, Fields(t))
  {
    var v := Fields(t);
    var L := Layout;
    assert Fits(L[14..], v[7..]);
    assert Fits(L[13..], v[7..]);
    assert Fits(L[12..], v[6..]);
    assert Fits(L[11..], v[6..]);
    assert Fits(L[10..], v[5..]);
    assert Fits(L[9..], v[5..]);
    assert Fits(L[8..], v[4..]);
    assert Fits(L[7..], v[4..]);
    assert Fits(L[6..], v[3..]);
    assert Fits(L[5..], v[3..]);
    assert Fits(L[4..], v[2..]);
    assert Fits(L[3..], v[2..]);
    assert Fits(L[2..], v[1..]);
    assert Fits(L[1..], v[1..]);
    assert L == L[0..];
  }

  /** How many numbers a layout holds. */
  function Arity(layout: seq<Chunk>): nat {
    if layout == [] then 0 else (if layout[0].Num? then 1 else 0) + Arity(layout[1..])
  }

  lemma {:induction false} FitsArity(layout: seq<Chunk>, vals: seq<nat>)
    requires Fits(layout, vals)
    ensures |vals| == Arity(layout)
  {
    if layout != [] {
      if layout[0].Num? {
        FitsArity(layout[1..], vals[1..]);
      } else {
        FitsArity(layout[1..], vals);
      }
    }
  }

  lemma LayoutArity(v: seq<nat>)
    requires Fits(Layout, v)
    ensures |v| == 7
  {
    FitsArity(Layout, v);
    var L := Layout;
    assert Arity(L[14..]) == 0;
    assert Arity(L[13..]) == 0;
    assert Arity(L[12..]) == 1;
    assert Arity(L[11..]) == 1;
    assert Arity(L[10..]) == 2;
    assert Arity(L[9..]) == 2;
    assert Arity(L[8..]) == 3;
    assert Arity(L[7..]) == 3;
    assert Arity(L[6..]) == 4;
    assert Arity(L[5..]) == 4;
    assert Arity(L[4..]) == 5;
    assert Arity(L[3..]) == 5;
    assert Arity(L[2..]) == 6;
    assert Arity(L[1..]) == 6;
    assert L == L[0..];
  }

  /** Go's `t.Format(TimeFormat)`. */
  function Format(t: DateTime): (s: string)
    requires Valid(t)
  {
    LayoutFits(t);
    FormatWith(Layout, Fields(t))
  }

  /** main.go's `stringToTime`: None where the Go code panics. */
  function Parse(s: string): (r: Option<DateTime>)
    ensures r.Some? ==> Valid(r.value) && s != ""
  {
    match ParseWith(Layout, s)
    case None => None
    case Some(v) =>
      LayoutArity(v);
      var t := DateTime(v[0], v[1], v[2], v[3], v[4], v[5], v[6]);
      if Valid(t) then Some(t) else None
  }

  /** Every valid instant survives being written out and read back. */
  lemma ParseOfFormat(t: DateTime)
    requires Valid(t)
    ensures Parse(Format(t)) == Some(t)
  {
    LayoutFits(t);
    ParseWithFormatWith(Layout, Fields(t));
  }

  /** A string that parses is the canonical text of what it parses to. */
  lemma FormatOfParse(s: string)
    requires Parse(s).Some?
    ensures Format(Parse(s).value) == s
  {
    FormatWithParseWith(Layout, s);
    var v := ParseWith(Layout, s).value;
    LayoutArity(v);
    assert Fields(Parse(s).value) == v;
  }

  function DaysInYear(y: nat): nat {
    if IsLeapYear(y) then 366 else 365
  }

  /** Days from 0000-01-01 to the first day of year `y` (proleptic Gregorian calendar). */
  function DaysBeforeYear(y: nat): nat {
    if y == 0 then 0 else DaysBeforeYear(y - 1) + DaysInYear(y - 1)
  }

  /** Days from the first day of year `y` to the first day of month `m` (13 stands for the next year). */
  function DaysBeforeMonth(y: nat, m: nat): nat
    requires 1 <= m <= 13
  {
    if m == 1 then 0 else DaysBeforeMonth(y, m - 1) + DaysInMonth(y, m - 1)
  }

  const MillisPerDay: nat := 86_400_000

  function DayNumber(t: DateTime): nat
    requires Valid(t)
  {
    DaysBeforeYear(t.year) + DaysBeforeMonth(t.year, t.month) + t.day - 1
  }

  function MillisOfDay(t: DateTime): nat {
    ((t.hour * 60 + t.minute) * 60 + t.second) * 1000 + t.milli
  }

  /**
   * Milliseconds from 0000-01-01T00:00:00.000Z to `t`: the integer that the
   * model compares wherever main.go compares time.Time values.
   */
  function Instant(t: DateTime): int
    requires Valid(t)
  {
    DayNumber(t) * MillisPerDay + MillisOfDay(t)
  }

  /** Chronological order of the printed fields, most significant first. */
  predicate Earlier(a: DateTime, b: DateTime) {
    || a.year < b.year
    || (a.year == b.year && a.month < b.month)
    || (a.year == b.year && a.month == b.month && a.day < b.day)
    || (a.year == b.year && a.month == b.month && a.day == b.day && a.hour < b.hour)
    || (a.year == b.year && a.month == b.month && a.day == b.day && a.hour == b.hour
        && a.minute < b.minute)
    || (a.year == b.year && a.month == b.month && a.day == b.day && a.hour == b.hour
        && a.minute == b.minute && a.second < b.second)
    || (a.year == b.year && a.month == b.month && a.day == b.day && a.hour == b.hour
        && a.minute == b.minute && a.second == b.second && a.milli < b.milli)
  }

  lemma {:induction false} DaysBeforeYearGrows(y1: nat, y2: nat)
    requires y1 < y2
    ensures DaysBeforeYear(y1) + DaysInYear(y1) <= DaysBeforeYear(y2)
  {
    if y1 + 1 < y2 {
      DaysBeforeYearGrows(y1, y2 - 1);
    }
  }

  lemma {:induction false} DaysBeforeMonthGrows(y: nat, m1: nat, m2: nat)
    requires 1 <= m1 < m2 <= 13
    ensures DaysBeforeMonth(y, m1) + DaysInMonth(y, m1) <= DaysBeforeMonth(y, m2)
  {
    if m1 + 1 < m2 {
      DaysBeforeMonthGrows(y, m1, m2 - 1);
    }
  }

  lemma WholeYear(y: nat)
    ensures DaysBeforeMonth(y, 13) == DaysInYear(y)
  {
    assert DaysBeforeMonth(y, 2) == 31;
    assert DaysBeforeMonth(y, 3) == 31 + DaysInMonth(y, 2);
    assert DaysBeforeMonth(y, 4) == 62 + DaysInMonth(y, 2);
    assert DaysBeforeMonth(y, 5) == 92 + DaysInMonth(y, 2);
    assert DaysBeforeMonth(y, 6) == 123 + DaysInMonth(y, 2);
    assert DaysBeforeMonth(y, 7) == 153 + DaysInMonth(y, 2);
    assert DaysBeforeMonth(y, 8) == 184 + DaysInMonth(y, 2);
    assert DaysBeforeMonth(y, 9) == 215 + DaysInMonth(y, 2);
    assert DaysBeforeMonth(y, 10) == 245 + DaysInMonth(y, 2);
    assert DaysBeforeMonth(y, 11) == 276 + DaysInMonth(y, 2);
    assert DaysBeforeMonth(y, 12) == 306 + DaysInMonth(y, 2);
  }

  /** A later calendar day has a larger day number. */
  lemma DayNumberGrows(a: DateTime, b: DateTime)
    requires Valid(a) && Valid(b)
    requires a.year < b.year || (a.year == b.year && a.month < b.month)
             || (a.year == b.year && a.month == b.month && a.day < b.day)
    ensures DayNumber(a) < DayNumber(b)
  {
    if a.year < b.year {
      DaysBeforeMonthGrows(a.year, a.month, 13);
      WholeYear(a.year);
      DaysBeforeYearGrows(a.year, b.year);
    } else if a.month < b.month {
      DaysBeforeMonthGrows(a.year, a.month, b.month);
    }
  }

  /** Comparing instants as integers is comparing the printed fields chronologically. */
  lemma InstantOrder(a: DateTime, b: DateTime)
    requires Valid(a) && Valid(b)
    ensures Instant(a) < Instant(b) <==> Earlier(a, b)
    ensures Instant(a) == Instant(b) <==> a == b
  {
    assert MillisOfDay(a) < MillisPerDay && MillisOfDay(b) < MillisPerDay;
    if a.year != b.year || a.month != b.month || a.day != b.day {
      if Earlier(a, b) {
        DayNumberGrows(a, b);
      } else {
        DayNumberGrows(b, a);
      }
    }
  }
}
