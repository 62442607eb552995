/**
 * The part of ECMAScript's `Date` that `formatDateISO` relies on
 * (hydroalert-frontend/src/pages/riwayat.tsx:73-74): `Date.UTC(year, month, day)` with a whole
 * year, a month index 0..11 and a whole day, followed by `toISOString().slice(0, 10)`.
 *
 * Following section 21.4 of ECMA-262: a year from 0 to 99 means 1900 + year; a day outside the
 * month rolls over into the neighbouring months (proleptic Gregorian calendar); a date whose
 * midnight lies more than 10^8 days from 1 January 1970 is an invalid time, on which
 * `toISOString` throws a RangeError; the ISO year has four digits from 0 to 9999 and otherwise a
 * sign and six digits.
 */
module UtcCalendar {
  import Text

  predicate IsLeapYear(y: int) {
    y % 4 == 0 && (y % 100 != 0 || y % 400 == 0)
  }

  function DaysInMonth(y: int, m: int): (n: int)
    requires 0 <= m < 12
    ensures 28 <= n <= 31
  {
    if m == 1 then (if IsLeapYear(y) then 29 else 28)
    else if m == 3 || m == 5 || m == 8 || m == 10 then 30
    else 31
  }

  /** A calendar date: year, month index 0..11, day of the month from 1. */
  datatype Date = Date(year: int, month: int, day: int)

  predicate ValidDate(d: Date) {
    0 <= d.month < 12 && 1 <= d.day <= DaysInMonth(d.year, d.month)
  }

  function NextMonth(y: int, m: int): (r: (int, int))
    requires 0 <= m < 12
    ensures 0 <= r.1 < 12
  {
    if m == 11 then (y + 1, 0) else (y, m + 1)
  }

  function PreviousMonth(y: int, m: int): (r: (int, int))
    requires 0 <= m < 12
    ensures 0 <= r.1 < 12
  {
    if m == 0 then (y - 1, 11) else (y, m - 1)
  }

  /**
   * MakeDay's day count read as a calendar date: day `d` of month `m` of year `y`, where a day
   * past the end of the month continues into the next month and a day below 1 counts back into
   * the previous ones.
   */
  function Normalize(y: int, m: int, d: int): (r: Date)
    requires 0 <= m < 12
    ensures ValidDate(r)
    ensures 1 <= d <= DaysInMonth(y, m) ==> r == Date(y, m, d)
    decreases if d < 1 then 1 else 0, if d < 1 then -d else d
  {
    if d < 1 then
      var (py, pm) := PreviousMonth(y, m);
      Normalize(py, pm, d + DaysInMonth(py, pm))
    else if d > DaysInMonth(y, m) then
      var (ny, nm) := NextMonth(y, m);
      Normalize(ny, nm, d - DaysInMonth(y, m))
    else Date(y, m, d)
  }

  /** Day 0 is the last day of the previous month; the day after the last is the next month's 1st. */
  lemma RollOver(y: int, m: int)
    requires 0 <= m < 12
    ensures var (py, pm) := PreviousMonth(y, m); Normalize(y, m, 0) == Date(py, pm, DaysInMonth(py, pm))
    ensures var (ny, nm) := NextMonth(y, m); Normalize(y, m, DaysInMonth(y, m) + 1) == Date(ny, nm, 1)
  {
  }

  /** `Date.UTC`'s year: 0..99 stands for 1900..1999. */
  function FullYear(y: int): (r: int)
    ensures 0 <= y <= 99 ==> r == 1900 + y
    ensures !(0 <= y <= 99) ==> r == y
  {
    if 0 <= y <= 99 then 1900 + y else y
  }

  /** Lexicographic order on dates. */
  predicate Before(a: Date, b: Date) {
    a.year < b.year || (a.year == b.year && (a.month < b.month || (a.month == b.month && a.day < b.day)))
  }

  /** The first and last dates whose midnight is a valid time (±10^8 days from the epoch). */
  const EarliestDate: Date := Date(-271821, 3, 20)
  const LatestDate: Date := Date(275760, 8, 13)

  predicate InTimeRange(d: Date) {
    !Before(d, EarliestDate) && !Before(LatestDate, d)
  }

  /** `n` written with at least `width` digits, zero-padded on the left. */
  function PadDigits(n: nat, width: nat): (s: string)
    ensures |s| >= width
    ensures forall i :: 0 <= i < |s| ==> '0' <= s[i] <= '9'
    decreases width
  {
    var ds := Text.DecimalDigits(n);
    if |ds| >= width then ds else "0" + PadDigits(n, width - 1)
  }

  /** toISOString's year field. */
  function IsoYear(y: int): string {
    if 0 <= y <= 9999 then PadDigits(y, 4)
    else if y < 0 then "-" + PadDigits(-y, 6)
    else "+" + PadDigits(y, 6)
  }

  /** The first ten characters of `toISOString()` for midnight of the date. */
  function IsoPrefix(d: Date): (s: string)
    requires ValidDate(d)
    ensures |s| == 10
  {
    var full := IsoYear(d.year) + "-" + PadDigits(d.month + 1, 2) + "-" + PadDigits(d.day, 2) + "T00:00:00.000Z";
    full[..10]
  }

  /** The outcome of `new Date(Date.UTC(y, m, d)).toISOString().slice(0, 10)`. */
  datatype IsoOutcome = IsoText(text: string) | RangeError

  function UtcIsoDate(year: int, month: int, day: int): (r: IsoOutcome)
    requires 0 <= month < 12
    ensures r.RangeError? <==> !InTimeRange(Normalize(FullYear(year), month, day))
    ensures r.IsoText? ==> |r.text| == 10
    ensures 1 <= day <= DaysInMonth(FullYear(year), month) && -271820 <= FullYear(year) <= 275759 ==> r.IsoText?
  {
    var date := Normalize(FullYear(year), month, day);
    if InTimeRange(date) then IsoText(IsoPrefix(date)) else RangeError
  }

  /** A two-digit number below 100 pads to exactly two digits; so does a year to four. */
  lemma PadExact(n: nat, width: nat)
    requires width >= 1 && n < Text.Power10(width)
    ensures |PadDigits(n, width)| == width
    ensures Text.DigitsValue(PadDigits(n, width), 10) == n
  {
    DecimalDigitsBelow(n, width);
    PadValue(n, width);
  }

  lemma {:induction false} DecimalDigitsBelow(n: nat, width: nat)
    requires width >= 1 && n < Text.Power10(width)
    ensures |Text.DecimalDigits(n)| <= width
  {
    if n >= 10 {
      assert n / 10 < Text.Power10(width - 1);
      DecimalDigitsBelow(n / 10, width - 1);
    }
  }

  lemma {:induction false} PadValue(n: nat, width: nat)
    requires |Text.DecimalDigits(n)| <= width
    ensures |PadDigits(n, width)| == width
    ensures forall i :: 0 <= i < |PadDigits(n, width)| ==> Text.IsDigitIn(PadDigits(n, width)[i], 10)
    ensures Text.DigitsValue(PadDigits(n, width), 10) == n
    decreases width
  {
    var ds := Text.DecimalDigits(n);
    Text.DecimalDigitsValue(n);
    if |ds| < width {
      PadValue(n, width - 1);
      LeadingZero(PadDigits(n, width - 1));
    }
  }

  /** A leading zero does not change the value of a digit string. */
  lemma {:induction false} LeadingZero(ds: string)
    requires forall i :: 0 <= i < |ds| ==> Text.IsDigitIn(ds[i], 10)
    ensures forall i :: 0 <= i < |"0" + ds| ==> Text.IsDigitIn(("0" + ds)[i], 10)
    ensures Text.DigitsValue("0" + ds, 10) == Text.DigitsValue(ds, 10)
    decreases |ds|
  {
    if ds != [] {
      var init := ds[..|ds| - 1];
      LeadingZero(init);
      assert ("0" + ds)[..|ds|] == "0" + init;
    }
  }

  /** The ISO prefix of a date with a four-digit year is `YYYY-MM-DD`. */
  lemma IsoPrefixFourDigitYear(d: Date)
    requires ValidDate(d) && 0 <= d.year <= 9999
    ensures IsoPrefix(d) == PadDigits(d.year, 4) + "-" + PadDigits(d.month + 1, 2) + "-" + PadDigits(d.day, 2)
  {
    var s := PadDigits(d.year, 4) + "-" + PadDigits(d.month + 1, 2) + "-" + PadDigits(d.day, 2);
    assert IsoYear(d.year) == PadDigits(d.year, 4);
    assert |s| == 10 by {
      assert Text.Power10(4) == 10000 && Text.Power10(2) == 100;
      PadExact(d.year, 4);
      PadExact(d.month + 1, 2);
      PadExact(d.day, 2);
    }
    TakePrefix(s, "T00:00:00.000Z");
  }

  lemma TakePrefix(s: string, t: string)
    ensures (s + t)[..|s|] == s
  {
  }

  /**
   * For a valid date with a four-digit year (outside 0..99) the result is `YYYY-MM-DD`: the
   * zero-padded year, month number and day.
   */
  lemma InRangeDateIsPadded(year: int, month: int, day: int)
    requires 100 <= year <= 9999 && 0 <= month < 12 && 1 <= day <= DaysInMonth(year, month)
    ensures UtcIsoDate(year, month, day) ==
      IsoText(PadDigits(year, 4) + "-" + PadDigits(month + 1, 2) + "-" + PadDigits(day, 2))
  {
    var date := Date(year, month, day);
    assert Normalize(FullYear(year), month, day) == date;
    assert InTimeRange(date);
    IsoPrefixFourDigitYear(date);
  }

  /** The padded date text has ten characters and its fields read back as the date. */
  lemma PaddedDateReadsBack(year: int, month: int, day: int)
    requires 0 <= year <= 9999 && 0 <= month < 12 && 1 <= day <= 31
    ensures var s := PadDigits(year, 4) + "-" + PadDigits(month + 1, 2) + "-" + PadDigits(day, 2);
      && |s| == 10
      && Text.DigitsValue(s[..4], 10) == year && s[4] == '-'
      && Text.DigitsValue(s[5..7], 10) == month + 1 && s[7] == '-'
      && Text.DigitsValue(s[8..], 10) == day
  {
    assert Text.Power10(4) == 10000 && Text.Power10(2) == 100;
    PadExact(year, 4);
    PadExact(month + 1, 2);
    PadExact(day, 2);
    DatePieces(PadDigits(year, 4), PadDigits(month + 1, 2), PadDigits(day, 2));
  }

  lemma DatePieces(y: string, mo: string, da: string)
    requires |y| == 4 && |mo| == 2 && |da| == 2
    ensures var s := y + "-" + mo + "-" + da;
      s[..4] == y && s[4] == '-' && s[5..7] == mo && s[7] == '-' && s[8..] == da
  {
    var tail := "-" + mo + "-" + da;
    assert y + "-" + mo + "-" + da == y + tail;
    var rest := mo + ("-" + da);
    assert tail == "-" + rest;
    assert (y + tail)[..4] == y;
    assert (y + tail)[4..] == tail;
    assert tail[1..] == rest;
    assert rest[..2] == mo && rest[2..] == "-" + da;
  }

  /** The first and last valid dates are in range; the days around them are not. */
  lemma TimeRangeEdges()
    ensures InTimeRange(EarliestDate) && InTimeRange(LatestDate)
    ensures !InTimeRange(Date(-271821, 3, 19)) && !InTimeRange(Date(275760, 8, 14))
  {
  }
}
