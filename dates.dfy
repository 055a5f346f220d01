/**
 * Calendar dates in the proleptic Gregorian calendar (chrono's `NaiveDate`, and the
 * calendar JavaScript's `Date` uses), backed by a day number, with the three ways the
 * program writes a date as text and chrono's `%Y-%m-%d` parser.
 */
module Dates {
  import opened Wrappers
  import opened Text

  datatype Date = Date(year: int, month: int, day: int)

  predicate IsLeapYear(y: int)
  {
    y % 4 == 0 && (y % 100 != 0 || y % 400 == 0)
  }

  function DaysInMonth(y: int, m: int): (n: int)
    requires 1 <= m <= 12
    ensures 28 <= n <= 31
    ensures n == 29 <==> m == 2 && IsLeapYear(y)
  {
    if m == 2 then (if IsLeapYear(y) then 29 else 28)
    else if m == 4 || m == 6 || m == 9 || m == 11 then 30
    else 31
  }

  predicate ValidDate(d: Date)
  {
    1 <= d.month <= 12 && 1 <= d.day <= DaysInMonth(d.year, d.month)
  }

  function DaysInYear(y: int): int
  {
    if IsLeapYear(y) then 366 else 365
  }

  /** Days from 0001-01-01 to 1 January of year `y` (negative before year 1). */
  function DaysBeforeYear(y: int): int
  {
    365 * (y - 1) + (y - 1) / 4 - (y - 1) / 100 + (y - 1) / 400
  }

  /** Days from 1 January to the first of month `m` of year `y`. */
  function DaysBeforeMonth(y: int, m: int): int
    requires 1 <= m <= 12
  {
    [0, 31, 59, 90, 120, 151, 181, 212, 243, 273, 304, 334][m - 1]
      + (if m > 2 && IsLeapYear(y) then 1 else 0)
  }

  /** The number of days since 0001-01-01 (which is day 0, a Monday). */
  function DayNumber(d: Date): int
    requires ValidDate(d)
  {
    DaysBeforeYear(d.year) + DaysBeforeMonth(d.year, d.month) + d.day - 1
  }

  /**
   * A day of year `y` lies in that year's block of consecutive day numbers, the
   * numbers of years from 1 on are not negative, and 0001-01-01 is day 0.
   */
  lemma DayNumberInYear(d: Date)
    requires ValidDate(d)
    ensures DaysBeforeYear(d.year) <= DayNumber(d) < DaysBeforeYear(d.year) + DaysInYear(d.year)
    ensures d.year >= 1 ==> DayNumber(d) >= 0
    ensures d == Date(1, 1, 1) ==> DayNumber(d) == 0
  {
  }

  /** Day of the week with Sunday = 0, as JavaScript's `getDay`. */
  function Weekday(d: Date): (w: int)
    requires ValidDate(d)
    ensures 0 <= w < 7
  {
    (DayNumber(d) + 1) % 7
  }

  /** getDay's numbering, pinned to the calendar: 1970-01-01 was a Thursday, 2024-01-01 a Monday, 2024-12-29 a Sunday. */
  lemma WeekdayAnchors()
    ensures Weekday(Date(1970, 1, 1)) == 4
    ensures Weekday(Date(2024, 1, 1)) == 1
    ensures Weekday(Date(2024, 12, 29)) == 0
  {
  }

  lemma DaysBeforeNextMonth(y: int, m: int)
    requires 1 <= m < 12
    ensures DaysBeforeMonth(y, m + 1) == DaysBeforeMonth(y, m) + DaysInMonth(y, m)
  {
  }

  lemma DaysBeforeNextYear(y: int)
    ensures DaysBeforeYear(y + 1) == DaysBeforeYear(y) + DaysInYear(y)
  {
    DivisionStep(y, 4);
    DivisionStep(y, 100);
    DivisionStep(y, 400);
  }

  /** `y / k` grows by one exactly when `y` is a multiple of `k`. */
  lemma DivisionStep(y: int, k: int)
    requires k == 4 || k == 100 || k == 400
    ensures y / k - (y - 1) / k == if y % k == 0 then 1 else 0
  {
    var q := (y - 1) / k;
    var r := (y - 1) % k;
    assert y - 1 == k * q + r && 0 <= r < k;
    if r == k - 1 {
      assert y == k * (q + 1);
    } else {
      assert y == k * q + (r + 1);
    }
  }

  /** The date after `d`. */
  function NextDay(d: Date): (r: Date)
    requires ValidDate(d)
    ensures ValidDate(r) && DayNumber(r) == DayNumber(d) + 1
  {
    if d.day < DaysInMonth(d.year, d.month) then Date(d.year, d.month, d.day + 1)
    else if d.month < 12 then
      DaysBeforeNextMonth(d.year, d.month);
      Date(d.year, d.month + 1, 1)
    else
      DaysBeforeNextYear(d.year);
      Date(d.year + 1, 1, 1)
  }

  /** The date before `d`. */
  function PrevDay(d: Date): (r: Date)
    requires ValidDate(d)
    ensures ValidDate(r) && DayNumber(r) == DayNumber(d) - 1
  {
    if d.day > 1 then Date(d.year, d.month, d.day - 1)
    else if d.month > 1 then
      DaysBeforeNextMonth(d.year, d.month - 1);
      Date(d.year, d.month - 1, DaysInMonth(d.year, d.month - 1))
    else
      DaysBeforeNextYear(d.year - 1);
      Date(d.year - 1, 12, 31)
  }

  /** `d` moved by `k` days, forwards or backwards. */
  function AddDays(d: Date, k: int): (r: Date)
    requires ValidDate(d)
    ensures ValidDate(r)
    decreases if k < 0 then -k else k
  {
    if k == 0 then d
    else if k > 0 then AddDays(NextDay(d), k - 1)
    else AddDays(PrevDay(d), k + 1)
  }

  /** Moving by `k` days moves the day number by `k`. */
  lemma {:induction false} AddDaysNumber(d: Date, k: int)
    requires ValidDate(d)
    ensures DayNumber(AddDays(d, k)) == DayNumber(d) + k
    decreases if k < 0 then -k else k
  {
    if k > 0 {
      AddDaysNumber(NextDay(d), k - 1);
    } else if k < 0 {
      AddDaysNumber(PrevDay(d), k + 1);
    }
  }

  /** Moving `k + 1` days forward is moving `k` days and then one more. */
  lemma {:induction false} AddDaysStep(d: Date, k: nat)
    requires ValidDate(d)
    ensures AddDays(d, k + 1) == NextDay(AddDays(d, k))
    decreases k
  {
    if k > 0 {
      AddDaysStep(NextDay(d), k - 1);
    }
  }

  // ---------------------------------------------------------------------------
  // Dates as text
  // ---------------------------------------------------------------------------

  /** chrono's `%Y`: four digits for 0..9999, otherwise an explicit sign and at least three digits. */
  function ChronoYear(y: int): (s: string)
    ensures 0 <= y < 10000 ==> s == Pad4(y)
    ensures y >= 10000 ==> s == "+" + NatToString(y)
    ensures y < 0 ==> s == "-" + PadStart(NatToString(-y), 3, '0')
  {
    if 0 <= y < 10000 then Pad4(y)
    else if y >= 10000 then "+" + NatToString(y)
    else "-" + PadStart(NatToString(-y), 3, '0')
  }

  /** The text of a date: the year's text, then "-MM-DD" whose fields read back as month and day. */
  predicate DatedText(s: string, year: string, d: Date)
  {
    |s| == |year| + 6 && s[..|year|] == year && s[|year|] == '-' && s[|year| + 3] == '-' &&
    DecimalValue(s[|year| + 1..|year| + 3]) == d.month && DecimalValue(s[|year| + 4..]) == d.day
  }

  lemma DashedFields(year: string, d: Date)
    requires ValidDate(d)
    ensures DatedText(year + "-" + Pad2(d.month) + "-" + Pad2(d.day), year, d)
  {
    var s := year + "-" + Pad2(d.month) + "-" + Pad2(d.day);
    var n := |year|;
    assert s[..n] == year && s[n + 1..n + 3] == Pad2(d.month) && s[n + 4..] == Pad2(d.day);
  }

  /** chrono's `format("%Y-%m-%d")`: four year digits for 0..9999, else the signed year. */
  function ChronoFormat(d: Date): (s: string)
    requires ValidDate(d)
    ensures DatedText(s, ChronoYear(d.year), d)
    ensures 0 <= d.year < 10000 ==> |s| == 10 && AllDigits(s[..4]) && DecimalValue(s[..4]) == d.year
  {
    DashedFields(ChronoYear(d.year), d);
    ChronoYear(d.year) + "-" + Pad2(d.month) + "-" + Pad2(d.day)
  }

  /** JavaScript's `${year}-${pad2(month)}-${pad2(day)}` with the year unpadded. */
  function LocalDateString(d: Date): string
    requires ValidDate(d)
  {
    IntToString(d.year) + "-" + Pad2(d.month) + "-" + Pad2(d.day)
  }

  /** The local rendering is the year as `toString` writes it, then "-MM-DD"; a year from 0 on reads back. */
  lemma LocalDateFields(d: Date)
    requires ValidDate(d)
    ensures var s := LocalDateString(d);
      DatedText(s, IntToString(d.year), d) &&
      (d.year >= 0 ==> AllDigits(s[..|s| - 6]) && DecimalValue(s[..|s| - 6]) == d.year)
  {
    DashedFields(IntToString(d.year), d);
  }

  /** The date part of JavaScript's `toISOString()`: four-digit years, else a sign and six digits. */
  function IsoDateString(d: Date): (s: string)
    requires ValidDate(d)
    ensures 0 <= d.year < 10000 ==> DatedText(s, Pad4(d.year), d) && |s| == 10 && DecimalValue(s[..4]) == d.year
    ensures !(0 <= d.year < 10000) ==> |s| >= 13 && s[0] == (if d.year < 0 then '-' else '+')
  {
    if 0 <= d.year < 10000 then
      DashedFields(Pad4(d.year), d);
      Pad4(d.year) + "-" + Pad2(d.month) + "-" + Pad2(d.day)
    else
      var sign := if d.year < 0 then "-" else "+";
      var y := sign + PadStart(NatToString(if d.year < 0 then -d.year else d.year), 6, '0');
      var s := y + "-" + Pad2(d.month) + "-" + Pad2(d.day);
      assert s[0] == y[0] == sign[0];
      s
  }

  /** For years 1000..9999 the three renderings agree. */
  lemma RenderingsAgree(d: Date)
    requires ValidDate(d) && 1000 <= d.year < 10000
    ensures ChronoFormat(d) == LocalDateString(d) == IsoDateString(d)
  {
    var s := NatToString(d.year);
    assert |s| == 4;
    assert PadStart(s, 4, '0') == s;
  }

  // ---------------------------------------------------------------------------
  // chrono's parser for "%Y-%m-%d"
  // ---------------------------------------------------------------------------

  /** The year range of chrono's `NaiveDate`. */
  const MinChronoYear: int := -262144
  const MaxChronoYear: int := 262143
  const MinI32: int := -0x8000_0000
  const MaxI32: int := 0x7FFF_FFFF

  /** chrono's `ParseErrorKind` texts for the kinds this format can produce. */
  const OutOfRange: string := "input is out of range"
  const Invalid: string := "input contains invalid characters"
  const TooShort: string := "premature end of input"
  const TooLong: string := "trailing input"

  /** A number read at some position, and where reading stopped. */
  datatype Scanned = Scanned(value: int, next: nat)

  /** The length of the run of ASCII digits at `pos`, capped at `max`. */
  function DigitRun(s: string, pos: nat, max: nat): (n: nat)
    requires pos <= |s|
    ensures n <= max && pos + n <= |s|
    ensures AllDigits(s[pos..pos + n])
    ensures n < max && pos + n < |s| ==> !IsDigit(s[pos + n])
    decreases max
  {
    if max == 0 || pos == |s| || !IsDigit(s[pos]) then 0
    else
      var n := 1 + DigitRun(s, pos + 1, max - 1);
      assert s[pos..pos + n] == [s[pos]] + s[pos + 1..pos + n];
      n
  }

  /** Any run that ends at a non-digit, at the end of input or at the cap is the digit run. */
  lemma {:induction false} DigitRunIs(s: string, pos: nat, max: nat, k: nat)
    requires pos + k <= |s| && k <= max
    requires AllDigits(s[pos..pos + k])
    requires k == max || pos + k == |s| || !IsDigit(s[pos + k])
    ensures DigitRun(s, pos, max) == k
    decreases k
  {
    if k > 0 {
      assert IsDigit(s[pos..pos + k][0]);
      assert s[pos + 1..pos + k] == s[pos..pos + k][1..];
      DigitRunIs(s, pos + 1, max - 1, k - 1);
    }
  }

  /** chrono's `scan::number(s, min, max)` at position `pos`. */
  function ScanNumber(s: string, pos: nat, min: nat, max: nat): (r: Result<Scanned>)
    requires pos <= |s|
    ensures r.Ok? ==> pos + min <= r.value.next <= |s|
  {
    if |s| - pos < min then Err(TooShort)
    else
      var n := DigitRun(s, pos, max);
      if n < min then Err(Invalid) else Ok(Scanned(DecimalValue(s[pos..pos + n]), pos + n))
  }

  /** A signed year: '-' or '+' then any number of digits, otherwise one to four digits. */
  function ScanYear(s: string): (r: Result<Scanned>)
    ensures r.Ok? ==> r.value.next <= |s|
  {
    if |s| >= 1 && s[0] == '-' then
      var n :- ScanNumber(s, 1, 1, |s|);
      Ok(Scanned(-n.value, n.next))
    else if |s| >= 1 && s[0] == '+' then ScanNumber(s, 1, 1, |s|)
    else ScanNumber(s, 0, 1, 4)
  }

  /** The literal character `c` at `pos`. */
  function ScanLiteral(s: string, pos: nat, c: char): (r: Result<nat>)
    requires pos <= |s|
    ensures r.Ok? ==> r.value == pos + 1 <= |s| && s[pos] == c
  {
    if |s| - pos < 1 then Err(TooShort)
    else if s[pos] != c then Err(Invalid)
    else Ok(pos + 1)
  }

  /** `NaiveDate::parse_from_str(s, "%Y-%m-%d")`. */
  function ParseDate(s: string): (r: Result<Date>)
    ensures r.Ok? ==> ValidDate(r.value) && MinChronoYear <= r.value.year <= MaxChronoYear
  {
    var y :- ScanYear(s);
    if !(MinI32 <= y.value <= MaxI32) then Err(OutOfRange)
    else
      var p1 :- ScanLiteral(s, y.next, '-');
      var m :- ScanNumber(s, p1, 1, 2);
      var p2 :- ScanLiteral(s, m.next, '-');
      var d :- ScanNumber(s, p2, 1, 2);
      if d.next < |s| then Err(TooLong)
      else
        var date := Date(y.value, m.value, d.value);
        if ValidDate(date) && MinChronoYear <= date.year <= MaxChronoYear then Ok(date)
        else Err(OutOfRange)
  }

  predicate InChronoRange(d: Date)
  {
    ValidDate(d) && MinChronoYear <= d.year <= MaxChronoYear
  }

  /** Reading a date chrono has written gives the same date back. */
  lemma ParseFormatRoundTrip(d: Date)
    requires InChronoRange(d)
    ensures ParseDate(ChronoFormat(d)) == Ok(d)
  {
    var ys := ChronoYear(d.year);
    var tail := "-" + Pad2(d.month) + "-" + Pad2(d.day);
    var s := ys + tail;
    assert s == ChronoFormat(d);
    var n := |ys|;
    assert s[..n] == ys && s[n..] == tail && s[n] == '-';
    YearScan(d.year, s);
    MonthDayScan(s, n, d.month, d.day);
  }

  /** Reading "-MM-DD" at position `n` of `s`. */
  lemma MonthDayScan(s: string, n: nat, m: int, d: int)
    requires 1 <= m < 100 && 1 <= d < 100
    requires n <= |s| && s[n..] == "-" + Pad2(m) + "-" + Pad2(d)
    ensures ScanLiteral(s, n, '-') == Ok(n + 1)
    ensures ScanNumber(s, n + 1, 1, 2) == Ok(Scanned(m, n + 3))
    ensures ScanLiteral(s, n + 3, '-') == Ok(n + 4)
    ensures ScanNumber(s, n + 4, 1, 2) == Ok(Scanned(d, n + 6)) && |s| == n + 6
  {
    var ms, ds := Pad2(m), Pad2(d);
    var tail := "-" + ms + "-" + ds;
    assert |tail| == 6;
    assert s[n + 1..n + 3] == tail[1..3] == ms;
    assert s[n + 4..n + 6] == tail[4..6] == ds;
    assert s[n] == tail[0] == '-' && s[n + 3] == tail[3] == '-';
    TwoDigitScan(s, n + 1, m);
    TwoDigitScan(s, n + 4, d);
  }

  lemma TwoDigitScan(s: string, pos: nat, v: int)
    requires 0 <= v < 100 && pos + 2 <= |s| && s[pos..pos + 2] == Pad2(v)
    ensures ScanNumber(s, pos, 1, 2) == Ok(Scanned(v, pos + 2))
  {
    DigitRunIs(s, pos, 2, 2);
    ScanNumberOf(s, pos, 1, 2, 2);
  }

  /** `scan::number` reads exactly the run of digits at `pos`. */
  lemma ScanNumberOf(s: string, pos: nat, min: nat, max: nat, k: nat)
    requires pos <= |s| && DigitRun(s, pos, max) == k && min <= k
    ensures ScanNumber(s, pos, min, max) == Ok(Scanned(DecimalValue(s[pos..pos + k]), pos + k))
  {
  }

  lemma YearScan(y: int, s: string)
    requires MinChronoYear <= y <= MaxChronoYear
    requires |s| > |ChronoYear(y)| && s[..|ChronoYear(y)|] == ChronoYear(y)
    requires s[|ChronoYear(y)|] == '-'
    ensures ScanYear(s) == Ok(Scanned(y, |ChronoYear(y)|))
  {
    if 0 <= y < 10000 {
      FourDigitYearScan(y, s);
    } else if y >= 10000 {
      SignedYearScan(s, "+", NatToString(y), y);
    } else {
      PadZerosValue(NatToString(-y), 3);
      SignedYearScan(s, "-", PadStart(NatToString(-y), 3, '0'), -y);
    }
  }

  /** A sign, the digits of `v`, then '-'. */
  lemma SignedYearScan(s: string, sign: string, digits: string, v: int)
    requires sign == "-" || sign == "+"
    requires |digits| >= 1 && AllDigits(digits) && DecimalValue(digits) == v
    requires |s| > |sign + digits| && s[..|sign + digits|] == sign + digits && s[|sign + digits|] == '-'
    ensures ScanYear(s) == Ok(Scanned(if sign == "-" then -v else v, |sign + digits|))
  {
    assert ScanNumber(s, 1, 1, |s|) == Ok(Scanned(v, |digits| + 1)) by {
      assert s[1..|digits| + 1] == (sign + digits)[1..] == digits;
      SignedDigitsScan(s, digits, v);
    }
    assert s[0] == (sign + digits)[0] == sign[0];
    SignedYearFromNumber(s, Scanned(v, |digits| + 1));
  }

  lemma FourDigitYearScan(y: int, s: string)
    requires 0 <= y < 10000
    requires |s| > 4 && s[..4] == Pad4(y)
    ensures ScanYear(s) == Ok(Scanned(y, 4))
  {
    var ys := Pad4(y);
    assert s[0..4] == ys;
    assert s[0] == ys[0] && IsDigit(ys[0]);
    DigitRunIs(s, 0, 4, 4);
    ScanNumberOf(s, 0, 1, 4, 4);
  }

  /** The digits of `v` after a sign, followed by anything that is not a digit. */
  lemma SignedDigitsScan(s: string, digits: string, v: int)
    requires |digits| >= 1 && AllDigits(digits) && DecimalValue(digits) == v
    requires |s| > |digits| + 1
    requires s[1..|digits| + 1] == digits && !IsDigit(s[|digits| + 1])
    ensures ScanNumber(s, 1, 1, |s|) == Ok(Scanned(v, |digits| + 1))
  {
    var k := |digits|;
    DigitRunIs(s, 1, |s|, k);
    ScanNumberOf(s, 1, 1, |s|, k);
    assert s[1..1 + k] == digits;
  }

  lemma SignedYearFromNumber(s: string, n: Scanned)
    requires |s| >= 1 && (s[0] == '-' || s[0] == '+')
    requires ScanNumber(s, 1, 1, |s|) == Ok(n)
    ensures ScanYear(s) == Ok(if s[0] == '-' then Scanned(-n.value, n.next) else n)
  {
  }

  // ---------------------------------------------------------------------------
  // Instants in a fixed time zone
  // ---------------------------------------------------------------------------

  const MsPerDay: int := 86400000

  /** A fixed offset east of UTC in milliseconds (`-getTimezoneOffset()` minutes), less than a day either way. */
  predicate ValidZone(zone: int)
  {
    -MsPerDay < zone < MsPerDay
  }

  /** Milliseconds from 0001-01-01T00:00Z to midnight UTC that starts `d` (`new Date("YYYY-MM-DD")`). */
  function UtcMidnight(d: Date): int
    requires ValidDate(d)
  {
    DayNumber(d) * MsPerDay
  }

  /** The instant of local midnight that starts `d` (`new Date(year, monthIndex, day)`). */
  function LocalMidnight(d: Date, zone: int): int
    requires ValidDate(d)
  {
    DayNumber(d) * MsPerDay - zone
  }

  /** The UTC date of local midnight of `d`: what `toISOString()` prints for it. */
  function UtcDateOfLocalMidnight(d: Date, zone: int): (r: Date)
    requires ValidDate(d) && ValidZone(zone)
    ensures ValidDate(r)
    ensures UtcMidnight(r) <= LocalMidnight(d, zone) < UtcMidnight(r) + MsPerDay
  {
    if zone > 0 then PrevDay(d) else d
  }

  /** The local date of midnight UTC of `d`: what `getDay()` of `new Date("YYYY-MM-DD")` looks at. */
  function LocalDateOfUtcMidnight(d: Date, zone: int): (r: Date)
    requires ValidDate(d) && ValidZone(zone)
    ensures ValidDate(r)
    ensures LocalMidnight(r, zone) <= UtcMidnight(d) < LocalMidnight(r, zone) + MsPerDay
  {
    if zone < 0 then PrevDay(d) else d
  }
}
