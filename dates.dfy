/**
 * Instants and civil dates. An instant is a number of milliseconds since the epoch, as
 * in an ECMAScript `Date`; `None` is an Invalid Date. A local calendar day is a day number
 * (days since 1970-01-01 in the local time zone) and is converted to a proleptic Gregorian
 * year, month and day of the month.
 */
module Dates {
  import opened Wrappers
  import opened Text

  /** The largest magnitude a `Date` can hold: 100,000,000 days of milliseconds. */
  const MaxTime: int := 8_640_000_000_000_000

  const MsPerDay: int := 86_400_000

  /** `new Date(n)` for an integer `n` (or NaN): values beyond the range become Invalid Date. */
  function TimeClip(n: Option<int>): (r: Option<int>)
    ensures r.Some? <==> n.Some? && -MaxTime <= n.value <= MaxTime
    ensures r.Some? ==> r == n
  {
    if n.Some? && -MaxTime <= n.value <= MaxTime then n else None
  }

  // ---- The Gregorian calendar -------------------------------------------------------------

  datatype Civil = Civil(year: int, month: int, day: int)

  predicate IsLeap(y: int) {
    (y % 4 == 0 && y % 100 != 0) || y % 400 == 0
  }

  function DaysInYear(y: int): int {
    if IsLeap(y) then 366 else 365
  }

  function DaysInMonth(y: int, m: int): int
    requires 1 <= m <= 12
  {
    if m == 2 then (if IsLeap(y) then 29 else 28)
    else if m == 4 || m == 6 || m == 9 || m == 11 then 30
    else 31
  }

  predicate IsValid(c: Civil) {
    1 <= c.month <= 12 && 1 <= c.day <= DaysInMonth(c.year, c.month)
  }

  /** The day number of January 1st of year `y`. */
  function DaysBeforeYear(y: int): int
    decreases if y >= 1970 then y - 1970 else 1970 - y
  {
    if y == 1970 then 0
    else if y > 1970 then DaysBeforeYear(y - 1) + DaysInYear(y - 1)
    else DaysBeforeYear(y + 1) - DaysInYear(y)
  }

  lemma NextYear(y: int)
    ensures DaysBeforeYear(y + 1) == DaysBeforeYear(y) + DaysInYear(y)
  {
  }

  /** Days in the months of year `y` before month `m`. */
  function DaysBeforeMonth(y: int, m: int): int
    requires 1 <= m <= 12
    decreases m
  {
    if m == 1 then 0 else DaysBeforeMonth(y, m - 1) + DaysInMonth(y, m - 1)
  }

  lemma MonthsFillYear(y: int)
    ensures DaysBeforeMonth(y, 12) + DaysInMonth(y, 12) == DaysInYear(y)
  {
    assert DaysBeforeMonth(y, 3) == 31 + DaysInMonth(y, 2);
    assert DaysBeforeMonth(y, 7) == DaysBeforeMonth(y, 3) + 122;
    assert DaysBeforeMonth(y, 12) == DaysBeforeMonth(y, 7) + 153;
  }

  /** The day number of a civil date. */
  function DayNumber(c: Civil): int
    requires IsValid(c)
  {
    DaysBeforeYear(c.year) + DaysBeforeMonth(c.year, c.month) + c.day - 1
  }

  /** The year holding the day `n` days after January 1st of `y`, and the day's place in it. */
  function YearOf(n: int, y: int): (r: (int, int))
    ensures 0 <= r.1 < DaysInYear(r.0)
    ensures DaysBeforeYear(r.0) + r.1 == DaysBeforeYear(y) + n
    decreases if n < 0 then 400 - n else n
  {
    if n < 0 then
      NextYear(y - 1);
      YearOf(n + DaysInYear(y - 1), y - 1)
    else if n >= DaysInYear(y) then
      NextYear(y);
      YearOf(n - DaysInYear(y), y + 1)
    else (y, n)
  }

  /** The month holding day `doy` of year `y` counted from the start of month `m`, and the day in it. */
  function MonthOf(doy: int, y: int, m: int): (r: (int, int))
    requires 1 <= m <= 12 && 0 <= doy && DaysBeforeMonth(y, m) + doy < DaysInYear(y)
    ensures 1 <= r.0 <= 12 && 1 <= r.1 <= DaysInMonth(y, r.0)
    ensures DaysBeforeMonth(y, r.0) + r.1 - 1 == DaysBeforeMonth(y, m) + doy
    decreases 12 - m
  {
    MonthsFillYear(y);
    if doy < DaysInMonth(y, m) then (m, doy + 1)
    else MonthOf(doy - DaysInMonth(y, m), y, m + 1)
  }

  /** The local calendar date of a day number. */
  function CivilFromDays(n: int): (c: Civil)
    ensures IsValid(c) && DayNumber(c) == n
  {
    var (y, doy) := YearOf(n, 1970);
    var (m, d) := MonthOf(doy, y, 1);
    Civil(y, m, d)
  }

  lemma {:induction false} DaysBeforeYearGrows(a: int, b: int)
    requires a < b
    ensures DaysBeforeYear(a) + DaysInYear(a) <= DaysBeforeYear(b)
    decreases b - a
  {
    NextYear(a);
    if a + 1 < b {
      DaysBeforeYearGrows(a + 1, b);
      NextYear(a + 1);
    }
  }

  lemma {:induction false} DaysBeforeMonthGrows(y: int, a: int, b: int)
    requires 1 <= a < b <= 12
    ensures DaysBeforeMonth(y, a) + DaysInMonth(y, a) <= DaysBeforeMonth(y, b)
    decreases b - a
  {
    if a + 1 < b {
      DaysBeforeMonthGrows(y, a + 1, b);
    }
  }

  /** Different valid dates have different day numbers, so `CivilFromDays` inverts `DayNumber`. */
  lemma CivilFromDayNumber(c: Civil)
    requires IsValid(c)
    ensures CivilFromDays(DayNumber(c)) == c
  {
    var r := CivilFromDays(DayNumber(c));
    DayOfYearInRange(c);
    DayOfYearInRange(r);
    SameYear(r.year, DaysBeforeMonth(r.year, r.month) + r.day - 1, c.year, DaysBeforeMonth(c.year, c.month) + c.day - 1);
    SameMonth(c.year, r.month, r.day, c.month, c.day);
  }

  /** The place of a valid date in its year. */
  lemma DayOfYearInRange(c: Civil)
    requires IsValid(c)
    ensures 0 <= DaysBeforeMonth(c.year, c.month) + c.day - 1 < DaysInYear(c.year)
  {
    MonthsFillYear(c.year);
    if c.month < 12 { DaysBeforeMonthGrows(c.year, c.month, 12); }
  }

  lemma SameYear(y1: int, d1: int, y2: int, d2: int)
    requires 0 <= d1 < DaysInYear(y1) && 0 <= d2 < DaysInYear(y2)
    requires DaysBeforeYear(y1) + d1 == DaysBeforeYear(y2) + d2
    ensures y1 == y2 && d1 == d2
  {
    if y1 < y2 { DaysBeforeYearGrows(y1, y2); }
    if y2 < y1 { DaysBeforeYearGrows(y2, y1); }
  }

  lemma SameMonth(y: int, m1: int, d1: int, m2: int, d2: int)
    requires 1 <= m1 <= 12 && 1 <= d1 <= DaysInMonth(y, m1)
    requires 1 <= m2 <= 12 && 1 <= d2 <= DaysInMonth(y, m2)
    requires DaysBeforeMonth(y, m1) + d1 == DaysBeforeMonth(y, m2) + d2
    ensures m1 == m2 && d1 == d2
  {
    if m1 < m2 { DaysBeforeMonthGrows(y, m1, m2); }
    if m2 < m1 { DaysBeforeMonthGrows(y, m2, m1); }
  }

  // ---- formatGmailDate --------------------------------------------------------------------

  /** The `YYYY/MM/DD` form Gmail search accepts after `after:` and `before:`. */
  function FormatCivil(c: Civil): string {
    IntToString(c.year) + "/" + PadStart2(IntToString(c.month)) + "/" + PadStart2(IntToString(c.day))
  }

  /** The search-query date of a local day. */
  function FormatGmailDate(day: int): string {
    FormatCivil(CivilFromDays(day))
  }

  /** A number below 100, padded to two places, is two digits that spell it. */
  lemma TwoDigits(n: int)
    requires 0 <= n < 100
    ensures var s := PadStart2(IntToString(n)); |s| == 2 && AllDigits(s) && DigitsValue(s) == n
  {
    var t := IntToString(n);
    DigitsValueOfNatToString(n);
    var s := PadStart2(t);
    if n < 10 {
      assert s == "0" + t;
      assert s[..1] == "0";
    }
  }

  lemma NoSlash(n: int)
    ensures '/' !in IntToString(n)
  {
    var s := IntToString(n);
    if n < 0 {
      assert s == "-" + NatToString(-n);
    }
    assert forall k :: 0 <= k < |s| ==> s[k] != '/';
  }

  lemma SplitThree(a: string, b: string, c: string)
    requires '/' !in a && '/' !in b && '/' !in c
    ensures Split(a + "/" + b + "/" + c, '/') == [a, b, c]
  {
    assert [b, c][1..] == [c];
    assert Join([b, c], '/') == b + ['/'] + c;
    assert [a, b, c][1..] == [b, c];
    assert Join([a, b, c], '/') == a + ['/'] + (b + ['/'] + c);
    assert a + ['/'] + (b + ['/'] + c) == a + "/" + b + "/" + c;
    SplitJoin([a, b, c], '/');
  }

  /**
   * A formatted date is the year's numeral, the month in two digits and the day in two
   * digits, separated by slashes.
   */
  lemma FormatCivilShape(c: Civil)
    requires IsValid(c)
    ensures Split(FormatCivil(c), '/') == [IntToString(c.year), PadStart2(IntToString(c.month)), PadStart2(IntToString(c.day))]
    ensures |PadStart2(IntToString(c.month))| == 2 && DigitsValue(PadStart2(IntToString(c.month))) == c.month
    ensures |PadStart2(IntToString(c.day))| == 2 && DigitsValue(PadStart2(IntToString(c.day))) == c.day
  {
    TwoDigitsNoSlash(c.month);
    TwoDigitsNoSlash(c.day);
    NoSlash(c.year);
    SplitThree(IntToString(c.year), PadStart2(IntToString(c.month)), PadStart2(IntToString(c.day)));
  }

  lemma TwoDigitsNoSlash(n: int)
    requires 0 <= n < 100
    ensures var s := PadStart2(IntToString(n)); |s| == 2 && DigitsValue(s) == n && '/' !in s
  {
    TwoDigits(n);
    var s := PadStart2(IntToString(n));
    assert forall k :: 0 <= k < |s| ==> s[k] != '/';
  }

  /** Different days are formatted differently. */
  lemma FormatGmailDateInjective(a: int, b: int)
    requires FormatGmailDate(a) == FormatGmailDate(b)
    ensures a == b
  {
    var ca, cb := CivilFromDays(a), CivilFromDays(b);
    FormatCivilShape(ca);
    FormatCivilShape(cb);
    var pa := Split(FormatCivil(ca), '/');
    assert IntToString(ca.year) == pa[0] == IntToString(cb.year);
    StringToNumberOfIntToString(ca.year);
    StringToNumberOfIntToString(cb.year);
    assert ca == cb;
  }
}
