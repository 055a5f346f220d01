/**
 * The statistics page: the year heatmap (whole weeks from the Sunday on or
 * before 1 January up to the week holding 31 December, each day carrying its
 * minutes of focus), its month labels, the summary figures, the weekday
 * averages and the year switcher. The browser's time zone is a fixed offset
 * east of UTC (`zone`, in milliseconds); the clock is a date and a time of day.
 */
module StatsPage {
  import opened Wrappers
  import opened Text
  import opened Dates
  import opened SessionModel
  import SessionStore
  import Calendar

  /** One heatmap square: its date (local midnight) and its minutes of focus. */
  datatype HeatCell = HeatCell(date: Date, value: int)

  /** A month label over the heatmap: the month (1 to 12), its short English name, and the week it stands over. */
  datatype MonthLabel = MonthLabel(month: int, name: string, week: int)

  // ---------------------------------------------------------------------------
  // The value of one day
  // ---------------------------------------------------------------------------

  /**
   * The key a square looks up: its local date as `YYYY-MM-DD` (`formatLocalDate`).
   * For years 1000..9999 it is the text chrono writes for the day.
   */
  function HeatKey(d: Date): (key: string)
    requires ValidDate(d)
    ensures 1000 <= d.year < 10000 ==> key == ChronoFormat(d)
  {
    if 1000 <= d.year < 10000 then
      RenderingsAgree(d);
      LocalDateString(d)
    else LocalDateString(d)
  }

  /** For years 1000..9999 the key reads back as the square's day. */
  lemma HeatKeyParses(d: Date)
    requires ValidDate(d) && 1000 <= d.year < 10000
    ensures ParseDate(HeatKey(d)) == Ok(d)
  {
    ParseFormatRoundTrip(d);
  }

  /**
   * `new Map(data.map(d => [d.date, d.value])).get(key) || 0` for the square of
   * `d`: the last entry under the key wins, and a missing key reads 0.
   */
  function ValueOn(data: seq<HeatmapData>, d: Date): (v: int)
    requires ValidDate(d)
    ensures (forall j | 0 <= j < |data| :: data[j].date != HeatKey(d)) ==> v == 0
    ensures v == 0 || exists j | 0 <= j < |data| :: data[j].date == HeatKey(d) && data[j].value == v
    decreases |data|
  {
    if data == [] then 0
    else if data[|data| - 1].date == HeatKey(d) then data[|data| - 1].value
    else
      var init := data[..|data| - 1];
      assert forall j | 0 <= j < |init| :: init[j] == data[j];
      ValueOn(init, d)
  }

  /** The square's value is that of the last entry for its day, or 0 when the day has no entry. */
  lemma {:induction false} ValueOnIsLatest(data: seq<HeatmapData>, d: Date, i: int)
    requires ValidDate(d)
    requires 0 <= i < |data| && data[i].date == HeatKey(d)
    requires forall j | i < j < |data| :: data[j].date != HeatKey(d)
    ensures ValueOn(data, d) == data[i].value
    decreases |data|
  {
    if i < |data| - 1 {
      ValueOnIsLatest(data[..|data| - 1], d, i);
    }
  }

  /**
   * As written, the key is `currentDate.toISOString().split('T')[0]` of the
   * square's local midnight, which is the UTC date of that instant.
   */
  function HeatKeyAsWritten(d: Date, zone: int): (key: string)
    requires ValidDate(d) && ValidZone(zone)
    ensures zone <= 0 ==> key == IsoDateString(d)
  {
    IsoDateString(UtcDateOfLocalMidnight(d, zone))
  }

  /**
   * East of UTC every square looks up the day before its own: the key is the
   * previous day's, never its own day's.
   */
  lemma HeatKeyShiftedEast(d: Date, zone: int)
    requires ValidDate(d) && 1001 <= d.year < 10000
    requires ValidZone(zone) && zone > 0
    ensures HeatKeyAsWritten(d, zone) == HeatKey(PrevDay(d))
    ensures HeatKeyAsWritten(d, zone) != HeatKey(d)
  {
    var p := PrevDay(d);
    RenderingsAgree(p);
    SessionStore.LocalDateRoundTrip(p, d);
  }

  // ---------------------------------------------------------------------------
  // The grid of weeks
  // ---------------------------------------------------------------------------

  /** The Sunday on or before 1 January (`startDate.setDate(startDate.getDate() - startDay)`). */
  function HeatmapStart(year: int): (d: Date)
    ensures ValidDate(d)
    ensures DayNumber(d) == DayNumber(Date(year, 1, 1)) - Weekday(Date(year, 1, 1))
  {
    var jan1 := Date(year, 1, 1);
    var startDay := Weekday(jan1);
    if startDay == 0 then jan1
    else
      YearEndAdjoins(year - 1);
      Date(year - 1, 12, 32 - startDay)
  }

  /** 31 December is followed by 1 January. */
  lemma YearEndAdjoins(y: int)
    ensures DayNumber(Date(y + 1, 1, 1)) == DayNumber(Date(y, 12, 31)) + 1
  {
    assert NextDay(Date(y, 12, 31)) == Date(y + 1, 1, 1);
  }

  /** `cells` are squares `base`, `base + 1`, ... of the grid starting at `start`. */
  predicate CellsFrom(cells: seq<HeatCell>, start: Date, base: nat, data: seq<HeatmapData>)
    requires ValidDate(start)
    decreases |cells|
  {
    |cells| == 0 ||
    (CellsFrom(cells[..|cells| - 1], start, base, data) &&
     cells[|cells| - 1].date == AddDays(start, base + |cells| - 1) &&
     cells[|cells| - 1].value == ValueOn(data, cells[|cells| - 1].date))
  }

  /** `weeks` are the grid's first weeks, each of seven squares. */
  predicate WeeksFrom(weeks: seq<seq<HeatCell>>, start: Date, data: seq<HeatmapData>)
    requires ValidDate(start)
    decreases |weeks|
  {
    |weeks| == 0 ||
    (WeeksFrom(weeks[..|weeks| - 1], start, data) && |weeks[|weeks| - 1]| == 7 &&
     CellsFrom(weeks[|weeks| - 1], start, 7 * (|weeks| - 1), data))
  }

  function Max(a: int, b: int): int { if a >= b then a else b }

  /** The squares of the weeks, in order. */
  function Flat(weeks: seq<seq<HeatCell>>): seq<HeatCell>
    decreases |weeks|
  {
    if weeks == [] then [] else Flat(weeks[..|weeks| - 1]) + weeks[|weeks| - 1]
  }

  /** `maxVal` after `Math.max` over the values of `cells`, starting from 0. */
  function MaxOf(cells: seq<HeatCell>): int
    decreases |cells|
  {
    if cells == [] then 0 else Max(MaxOf(cells[..|cells| - 1]), cells[|cells| - 1].value)
  }

  lemma MaxAfterPush(flat: seq<HeatCell>, cells: seq<HeatCell>, c: HeatCell)
    ensures MaxOf(flat + (cells + [c])) == Max(MaxOf(flat + cells), c.value)
  {
    assert flat + (cells + [c]) == (flat + cells) + [c];
    assert ((flat + cells) + [c])[..|flat + cells|] == flat + cells;
  }

  lemma FlatClose(weeks: seq<seq<HeatCell>>, week: seq<HeatCell>)
    ensures Flat(weeks + [week]) + [] == Flat(weeks) + week
  {
    assert (weeks + [week])[..|weeks|] == weeks;
    assert Flat(weeks + [week]) + [] == Flat(weeks + [week]);
  }

  /** `currentDate.setDate(currentDate.getDate() + 1)`. */
  method NextSquareDate(start: Date, ghost k: nat, d: Date) returns (e: Date)
    requires ValidDate(start) && d == AddDays(start, k)
    ensures e == AddDays(start, k + 1)
  {
    AddDaysStep(start, k);
    e := NextDay(d);
  }

  /**
   * One step of the builder after the day's value is known: `Math.max` into
   * `maxVal`, the square pushed onto the open week, and the week closed once it
   * holds seven squares.
   */
  method PushSquare(weeks: seq<seq<HeatCell>>, currentWeek: seq<HeatCell>, maxVal: int, cell: HeatCell,
                    ghost startDate: Date, ghost data: seq<HeatmapData>)
    returns (weeks': seq<seq<HeatCell>>, currentWeek': seq<HeatCell>, maxVal': int)
    requires ValidDate(startDate) && |currentWeek| < 7
    requires WeeksFrom(weeks, startDate, data) && CellsFrom(currentWeek, startDate, 7 * |weeks|, data)
    requires maxVal == MaxOf(Flat(weeks) + currentWeek)
    requires cell.date == AddDays(startDate, 7 * |weeks| + |currentWeek|) && cell.value == ValueOn(data, cell.date)
    ensures |currentWeek'| < 7
    ensures |currentWeek'| > 0 ==> |weeks'| == |weeks| && |currentWeek'| == |currentWeek| + 1
    ensures |currentWeek'| == 0 ==> |weeks'| == |weeks| + 1 && |currentWeek| == 6
    ensures WeeksFrom(weeks', startDate, data) && CellsFrom(currentWeek', startDate, 7 * |weeks'|, data)
    ensures maxVal' == MaxOf(Flat(weeks') + currentWeek')
  {
    maxVal' := Max(maxVal, cell.value);
    currentWeek' := currentWeek + [cell];
    CellsPush(currentWeek, startDate, 7 * |weeks|, data, cell);
    MaxAfterPush(Flat(weeks), currentWeek, cell);
    weeks' := weeks;
    if |currentWeek'| == 7 {
      weeks' := weeks + [currentWeek'];
      WeeksPush(weeks, startDate, data, currentWeek');
      FlatClose(weeks, currentWeek');
      currentWeek' := [];
    }
  }

  lemma CellsPush(cells: seq<HeatCell>, start: Date, base: nat, data: seq<HeatmapData>, c: HeatCell)
    requires ValidDate(start) && CellsFrom(cells, start, base, data)
    requires c.date == AddDays(start, base + |cells|) && c.value == ValueOn(data, c.date)
    ensures CellsFrom(cells + [c], start, base, data)
  {
    assert (cells + [c])[..|cells|] == cells;
  }

  lemma WeeksPush(weeks: seq<seq<HeatCell>>, start: Date, data: seq<HeatmapData>, week: seq<HeatCell>)
    requires ValidDate(start) && WeeksFrom(weeks, start, data)
    requires |week| == 7 && CellsFrom(week, start, 7 * |weeks|, data)
    ensures WeeksFrom(weeks + [week], start, data)
  {
    assert (weeks + [week])[..|weeks|] == weeks;
  }

  /**
   * The `weeks` / `maxValue` builder: the `while` loop that walks the days from
   * the grid's first Sunday, closing a week every seven days, until the date
   * has passed 31 December with no week open. `startNumber` and `endNumber`
   * are the day numbers of the first square and of 31 December, which the
   * source compares as time values.
   */
  method CollectWeeks(startDate: Date, startNumber: int, endNumber: int, data: seq<HeatmapData>)
    returns (weeks: seq<seq<HeatCell>>, maxValue: int)
    requires ValidDate(startDate) && startNumber <= endNumber
    ensures WeeksFrom(weeks, startDate, data)
    ensures |weeks| >= 1 && startNumber + 7 * (|weeks| - 1) <= endNumber < startNumber + 7 * |weeks|
    ensures maxValue == MaxOf(Flat(weeks))
  {
    weeks := [];
    var currentWeek: seq<HeatCell> := [];
    var maxVal := 0;
    var currentDate := startDate;
    var current := startNumber;
    ghost var k: nat := 0;
    while current <= endNumber || |currentWeek| > 0
      invariant k == 7 * |weeks| + |currentWeek| && |currentWeek| < 7 && current == startNumber + k
      invariant currentDate == AddDays(startDate, k)
      invariant current <= endNumber + 7
      invariant |currentWeek| > 0 ==> startNumber + 7 * |weeks| <= endNumber
      invariant |weeks| > 0 ==> startNumber + 7 * (|weeks| - 1) <= endNumber
      invariant WeeksFrom(weeks, startDate, data) && CellsFrom(currentWeek, startDate, 7 * |weeks|, data)
      invariant maxVal == MaxOf(Flat(weeks) + currentWeek)
      decreases endNumber + 7 - current
    {
      var value := ValueOn(data, currentDate);
      weeks, currentWeek, maxVal := PushSquare(weeks, currentWeek, maxVal, HeatCell(currentDate, value), startDate, data);
      currentDate := NextSquareDate(startDate, k, currentDate);
      current := current + 1;
      k := k + 1;
      if current > endNumber && |currentWeek| == 0 {
        assert Flat(weeks) + currentWeek == Flat(weeks);
        break;
      }
    }
    // The loop only stops with no week open, so the source's trailing push of a partial week never runs.
    assert |currentWeek| == 0;
    assert Flat(weeks) + currentWeek == Flat(weeks);
    maxValue := maxVal;
  }

  /** The heatmap of `selectedYear`: its weeks and the largest value shown (at least 0). */
  method BuildHeatmap(selectedYear: int, data: seq<HeatmapData>) returns (weeks: seq<seq<HeatCell>>, maxValue: int)
    ensures WeeksFrom(weeks, HeatmapStart(selectedYear), data)
    ensures var startNumber := DayNumber(HeatmapStart(selectedYear));
      |weeks| >= 1 &&
      startNumber + 7 * (|weeks| - 1) <= DayNumber(Date(selectedYear, 12, 31)) < startNumber + 7 * |weeks|
    ensures maxValue == MaxOf(Flat(weeks))
  {
    var startDate := HeatmapStart(selectedYear);
    var endDate := Date(selectedYear, 12, 31);
    YearEndAdjoins(selectedYear);
    weeks, maxValue := CollectWeeks(startDate, DayNumber(startDate), DayNumber(endDate), data);
  }

  // ---------------------------------------------------------------------------
  // What the grid is
  // ---------------------------------------------------------------------------

  lemma {:induction false} CellsFromAt(cells: seq<HeatCell>, start: Date, base: nat, data: seq<HeatmapData>, i: nat)
    requires ValidDate(start) && CellsFrom(cells, start, base, data) && i < |cells|
    ensures cells[i].date == AddDays(start, base + i) && cells[i].value == ValueOn(data, cells[i].date)
    decreases |cells|
  {
    if i < |cells| - 1 {
      CellsFromAt(cells[..|cells| - 1], start, base, data, i);
    }
  }

  lemma {:induction false} WeeksFromAt(weeks: seq<seq<HeatCell>>, start: Date, data: seq<HeatmapData>, w: nat)
    requires ValidDate(start) && WeeksFrom(weeks, start, data) && w < |weeks|
    ensures |weeks[w]| == 7 && CellsFrom(weeks[w], start, 7 * w, data)
    decreases |weeks|
  {
    if w < |weeks| - 1 {
      WeeksFromAt(weeks[..|weeks| - 1], start, data, w);
    }
  }

  /** Square `i` of week `w` is `AddDays(start, 7 * w + i)` and carries that day's value. */
  lemma GridSquare(weeks: seq<seq<HeatCell>>, start: Date, data: seq<HeatmapData>, w: nat, i: nat)
    requires ValidDate(start) && WeeksFrom(weeks, start, data) && w < |weeks| && i < 7
    ensures |weeks[w]| == 7 && weeks[w][i].date == AddDays(start, 7 * w + i)
    ensures weeks[w][i].value == ValueOn(data, weeks[w][i].date)
  {
    WeeksFromAt(weeks, start, data, w);
    CellsFromAt(weeks[w], start, 7 * w, data, i);
  }

  /** The grid starts on the Sunday on or before 1 January, less than a week before it. */
  lemma StartIsSunday(year: int)
    ensures var start := HeatmapStart(year);
      Weekday(start) == 0 && DayNumber(start) <= DayNumber(Date(year, 1, 1)) < DayNumber(start) + 7
  {
    var a := DayNumber(Date(year, 1, 1)) + 1;
    assert DayNumber(HeatmapStart(year)) + 1 == a - a % 7;
    Calendar.ShiftedRemainder(a, 0);
  }

  /** Every column of a grid that starts on a Sunday is one weekday: square `i` of any week falls on weekday `i`. */
  lemma HeatmapWeekdays(start: Date, weeks: seq<seq<HeatCell>>, data: seq<HeatmapData>, w: nat, i: nat)
    requires ValidDate(start) && Weekday(start) == 0
    requires WeeksFrom(weeks, start, data) && w < |weeks| && i < 7
    ensures |weeks[w]| == 7 && ValidDate(weeks[w][i].date) && Weekday(weeks[w][i].date) == i
  {
    GridSquare(weeks, start, data, w, i);
    WeekdayAfterSunday(start, w, i);
  }

  /** `7 * w + i` days after a Sunday is weekday `i`. */
  lemma WeekdayAfterSunday(start: Date, w: nat, i: nat)
    requires ValidDate(start) && Weekday(start) == 0 && i < 7
    ensures Weekday(AddDays(start, 7 * w + i)) == i
  {
    AddDaysNumber(start, 7 * w + i);
    SevenStep(DayNumber(start) + 1, DayNumber(AddDays(start, 7 * w + i)) + 1, w, i);
  }

  lemma SevenRemainder(q: int, i: int)
    requires 0 <= i < 7
    ensures (7 * q + i) % 7 == i
  {
  }

  lemma SevenStep(a: int, b: int, w: int, i: int)
    requires a % 7 == 0 && 0 <= i < 7 && b == a + 7 * w + i
    ensures b % 7 == i
  {
    SevenRemainder(a / 7 + w, i);
  }

  /** The days of a year lie between its 1 January and its 31 December. */
  lemma DayInYear(e: Date)
    requires ValidDate(e)
    ensures DayNumber(Date(e.year, 1, 1)) <= DayNumber(e) <= DayNumber(Date(e.year, 12, 31))
  {
    MonthsAdvance(e.year, e.month, 12);
  }

  /** Months follow one another: month `a` ends no later than month `b` starts. */
  lemma {:induction false} MonthsAdvance(y: int, a: int, b: int)
    requires 1 <= a <= b <= 12
    ensures DaysBeforeMonth(y, a) <= DaysBeforeMonth(y, b)
    ensures a < b ==> DaysBeforeMonth(y, a) + DaysInMonth(y, a) <= DaysBeforeMonth(y, b)
    decreases b - a
  {
    if a < b {
      DaysBeforeNextMonth(y, a);
      MonthsAdvance(y, a + 1, b);
    }
  }

  /**
   * A grid of whole weeks from a start on or before 1 January whose last week
   * holds 31 December has a square for every day of the year.
   */
  lemma GridCoversYear(start: Date, weeks: seq<seq<HeatCell>>, data: seq<HeatmapData>, e: Date)
    requires ValidDate(start) && WeeksFrom(weeks, start, data)
    requires ValidDate(e) && DayNumber(start) <= DayNumber(Date(e.year, 1, 1))
    requires DayNumber(Date(e.year, 12, 31)) < DayNumber(start) + 7 * |weeks|
    ensures exists w, i | 0 <= w < |weeks| && 0 <= i < 7 ::
      |weeks[w]| == 7 && ValidDate(weeks[w][i].date) && DayNumber(weeks[w][i].date) == DayNumber(e)
  {
    DayInYear(e);
    var offset := DayNumber(e) - DayNumber(start);
    var w, i := offset / 7, offset % 7;
    GridSquare(weeks, start, data, w, i);
    AddDaysNumber(start, 7 * w + i);
  }

  /** Everything in the flattened grid sits in some week, and every square is in it. */
  lemma {:induction false} FlatMembers(weeks: seq<seq<HeatCell>>)
    ensures forall w, i | 0 <= w < |weeks| && 0 <= i < |weeks[w]| :: weeks[w][i] in Flat(weeks)
    ensures forall c | c in Flat(weeks) :: exists w, i | 0 <= w < |weeks| && 0 <= i < |weeks[w]| :: weeks[w][i] == c
    decreases |weeks|
  {
    if weeks != [] {
      var init := weeks[..|weeks| - 1];
      FlatMembers(init);
      assert Flat(weeks) == Flat(init) + weeks[|weeks| - 1];
      forall c | c in Flat(weeks)
        ensures exists w, i | 0 <= w < |weeks| && 0 <= i < |weeks[w]| :: weeks[w][i] == c
      {
        if c in Flat(init) {
          var w, i :| 0 <= w < |init| && 0 <= i < |init[w]| && init[w][i] == c;
          assert weeks[w][i] == c;
        } else {
          var i :| 0 <= i < |weeks[|weeks| - 1]| && weeks[|weeks| - 1][i] == c;
        }
      }
    }
  }

  /** The running maximum from 0 is at least 0, at least every value, and is 0 or one of the values. */
  lemma {:induction false} MaxOfIsMax(cells: seq<HeatCell>)
    ensures MaxOf(cells) >= 0
    ensures forall c | c in cells :: c.value <= MaxOf(cells)
    ensures MaxOf(cells) == 0 || exists c | c in cells :: c.value == MaxOf(cells)
    decreases |cells|
  {
    if cells != [] {
      var init := cells[..|cells| - 1];
      MaxOfIsMax(init);
      assert cells == init + [cells[|cells| - 1]];
    }
  }

  /** `maxValue` is the largest value on the grid, or 0 when no square is above 0. */
  lemma HeatmapMax(weeks: seq<seq<HeatCell>>, maxValue: int)
    requires maxValue == MaxOf(Flat(weeks))
    ensures maxValue >= 0
    ensures forall w, i | 0 <= w < |weeks| && 0 <= i < |weeks[w]| :: weeks[w][i].value <= maxValue
    ensures maxValue == 0 || exists w, i | 0 <= w < |weeks| && 0 <= i < |weeks[w]| :: weeks[w][i].value == maxValue
  {
    FlatMembers(weeks);
    MaxOfIsMax(Flat(weeks));
  }

  // ---------------------------------------------------------------------------
  // Month labels
  // ---------------------------------------------------------------------------

  /** Every week's first day is a real date. */
  predicate FirstDaysValid(weeks: seq<seq<HeatCell>>)
  {
    forall w | 0 <= w < |weeks| && |weeks[w]| > 0 :: ValidDate(weeks[w][0].date)
  }

  /** The week's first day is in the selected year (`firstDayOfWeek.getFullYear() === selectedYear`). */
  predicate StartsInYear(week: seq<HeatCell>, year: int)
  {
    |week| > 0 && week[0].date.year == year
  }

  /** The month of the latest week before `w` that starts in the year, or 0 when there is none. */
  function PrevInYearMonth(weeks: seq<seq<HeatCell>>, year: int, w: nat): int
    requires w <= |weeks|
    decreases w
  {
    if w == 0 then 0
    else if StartsInYear(weeks[w - 1], year) then weeks[w - 1][0].date.month
    else PrevInYearMonth(weeks, year, w - 1)
  }

  /** Week `w` carries a label: it starts in the year, in another month than the latest such week before it. */
  predicate Labelled(weeks: seq<seq<HeatCell>>, year: int, w: nat)
    requires w < |weeks|
  {
    StartsInYear(weeks[w], year) && weeks[w][0].date.month != PrevInYearMonth(weeks, year, w)
  }

  /** `toLocaleString('en-US', { month: 'short' })`. */
  function ShortMonthName(m: int): (name: string)
    requires 1 <= m <= 12
    ensures |name| == 3
  {
    ["Jan", "Feb", "Mar", "Apr", "May", "Jun", "Jul", "Aug", "Sep", "Oct", "Nov", "Dec"][m - 1]
  }

  /** The label over week `w`: its first day's month and that month's short name. */
  function LabelFor(weeks: seq<seq<HeatCell>>, w: nat): (l: MonthLabel)
    requires FirstDaysValid(weeks) && w < |weeks| && |weeks[w]| > 0
    ensures 1 <= l.month <= 12 && |l.name| == 3 && l.week == w
  {
    var m := weeks[w][0].date.month;
    MonthLabel(m, ShortMonthName(m), w)
  }

  /**
   * The `weeks.forEach` that writes the month labels, with `lastMonth` (0 here
   * for the source's -1, months counting from 1): the labels are exactly the
   * labelled weeks, in week order.
   */
  method MonthLabels(weeks: seq<seq<HeatCell>>, selectedYear: int) returns (labels: seq<MonthLabel>)
    requires FirstDaysValid(weeks)
    ensures forall j | 0 <= j < |labels| ::
      0 <= labels[j].week < |weeks| && Labelled(weeks, selectedYear, labels[j].week) &&
      labels[j] == LabelFor(weeks, labels[j].week)
    ensures forall j1, j2 | 0 <= j1 < j2 < |labels| :: labels[j1].week < labels[j2].week
    ensures forall w | 0 <= w < |weeks| && Labelled(weeks, selectedYear, w) ::
      exists j | 0 <= j < |labels| :: labels[j].week == w
  {
    labels := [];
    var lastMonth := 0;
    var weekIndex := 0;
    while weekIndex < |weeks|
      invariant 0 <= weekIndex <= |weeks|
      invariant lastMonth == PrevInYearMonth(weeks, selectedYear, weekIndex)
      invariant forall j | 0 <= j < |labels| ::
        0 <= labels[j].week < weekIndex && Labelled(weeks, selectedYear, labels[j].week) &&
        labels[j] == LabelFor(weeks, labels[j].week)
      invariant forall j1, j2 | 0 <= j1 < j2 < |labels| :: labels[j1].week < labels[j2].week
      invariant forall w | 0 <= w < weekIndex && Labelled(weeks, selectedYear, w) ::
        exists j | 0 <= j < |labels| :: labels[j].week == w
    {
      var week := weeks[weekIndex];
      if |week| > 0 {
        var firstDay := week[0].date;
        var month := firstDay.month;
        if month != lastMonth && firstDay.year == selectedYear {
          ghost var before := labels;
          labels := labels + [MonthLabel(month, ShortMonthName(month), weekIndex)];
          assert labels[|labels| - 1].week == weekIndex;
          assert forall j | 0 <= j < |before| :: labels[j] == before[j];
          lastMonth := month;
        }
      }
      weekIndex := weekIndex + 1;
    }
  }

  /** Within one year, a later day is in the same month or a later one. */
  lemma MonthMonotone(d1: Date, d2: Date)
    requires ValidDate(d1) && ValidDate(d2) && d1.year == d2.year && DayNumber(d1) <= DayNumber(d2)
    ensures d1.month <= d2.month
  {
    if d1.month > d2.month {
      MonthsAdvance(d1.year, d2.month, d1.month);
    }
  }

  /** Between an in-year week `w1` and a later week `w2`, the latest in-year week before `w2` is at `w1` or after it. */
  lemma {:induction false} LatestInYearWeek(weeks: seq<seq<HeatCell>>, year: int, w1: nat, w2: nat)
    requires w1 < w2 <= |weeks| && StartsInYear(weeks[w1], year)
    ensures exists v | w1 <= v < w2 :: StartsInYear(weeks[v], year) && PrevInYearMonth(weeks, year, w2) == weeks[v][0].date.month
    decreases w2
  {
    if !StartsInYear(weeks[w2 - 1], year) {
      LatestInYearWeek(weeks, year, w1, w2 - 1);
    }
  }

  /** On the heatmap, in-year weeks run through the months in order. */
  lemma WeekMonthsInOrder(start: Date, weeks: seq<seq<HeatCell>>, data: seq<HeatmapData>, year: int, w1: nat, w2: nat)
    requires ValidDate(start) && WeeksFrom(weeks, start, data)
    requires w1 <= w2 < |weeks| && StartsInYear(weeks[w1], year) && StartsInYear(weeks[w2], year)
    ensures weeks[w1][0].date.month <= weeks[w2][0].date.month
  {
    GridSquare(weeks, start, data, w1, 0);
    GridSquare(weeks, start, data, w2, 0);
    LaterDayLaterMonth(start, 7 * w1, 7 * w2);
  }

  /** A later day of the same year is in the same month or a later one. */
  lemma LaterDayLaterMonth(start: Date, k1: int, k2: int)
    requires ValidDate(start) && k1 <= k2 && AddDays(start, k1).year == AddDays(start, k2).year
    ensures AddDays(start, k1).month <= AddDays(start, k2).month
  {
    AddDaysNumber(start, k1);
    AddDaysNumber(start, k2);
    MonthMonotone(AddDays(start, k1), AddDays(start, k2));
  }

  /** On the heatmap, label months strictly increase: no month is labelled twice. */
  lemma LabelsOncePerMonth(start: Date, weeks: seq<seq<HeatCell>>, data: seq<HeatmapData>, year: int, labels: seq<MonthLabel>)
    requires ValidDate(start) && WeeksFrom(weeks, start, data)
    requires forall j | 0 <= j < |labels| ::
      0 <= labels[j].week < |weeks| && Labelled(weeks, year, labels[j].week) &&
      |weeks[labels[j].week]| > 0 && labels[j].month == weeks[labels[j].week][0].date.month
    requires forall j1, j2 | 0 <= j1 < j2 < |labels| :: labels[j1].week < labels[j2].week
    ensures forall j1, j2 | 0 <= j1 < j2 < |labels| :: labels[j1].month < labels[j2].month
  {
    forall j1, j2 | 0 <= j1 < j2 < |labels|
      ensures labels[j1].month < labels[j2].month
    {
      var w1, w2 := labels[j1].week, labels[j2].week;
      LatestInYearWeek(weeks, year, w1, w2);
      var v :| w1 <= v < w2 && StartsInYear(weeks[v], year) && PrevInYearMonth(weeks, year, w2) == weeks[v][0].date.month;
      WeekMonthsInOrder(start, weeks, data, year, w1, v);
      WeekMonthsInOrder(start, weeks, data, year, v, w2);
    }
  }

  // ---------------------------------------------------------------------------
  // Squares as drawn
  // ---------------------------------------------------------------------------

  /**
   * `getColor`: no shade for 0 minutes, otherwise one of four shades by the
   * value's share of `maxValue` (below a quarter, a half, three quarters, or
   * more). A value over a `maxValue` of 0 divides to an infinity, and a
   * negative quotient is below a quarter.
   */
  function ShadeLevel(value: int, maxValue: int): (level: int)
    ensures 0 <= level <= 4
    ensures level == 0 <==> value == 0
    ensures (value > 0 && maxValue < 0) || (value < 0 && maxValue > 0) ==> level == 1
  {
    if value == 0 then 0
    else if maxValue == 0 then (if value < 0 then 1 else 4)
    else if (value > 0) != (maxValue > 0) then 1
    else
      // The quotient is positive: compare the magnitudes.
      var v := if value < 0 then -value else value;
      var m := if maxValue < 0 then -maxValue else maxValue;
      if 4 * v < m then 1
      else if 2 * v < m then 2
      else if 4 * v < 3 * m then 3
      else 4
  }

  /** Below the maximum, the shade is one more than the number of whole quarters of `maxValue` the value holds. */
  lemma ShadeIsQuarters(value: int, maxValue: int)
    requires 0 < value < maxValue
    ensures ShadeLevel(value, maxValue) == 1 + (4 * value) / maxValue
  {
    var q := (4 * value) / maxValue;
    assert maxValue * q <= 4 * value < maxValue * (q + 1);
    ScaleOrder(maxValue, 4, q);
    ScaleOrder(maxValue, q + 1, 0);
    assert 0 <= q < 4;
  }

  /** Multiplying by a non-negative factor keeps the order. */
  lemma ScaleMonotone(n: int, a: int, b: int)
    requires n >= 0 && a <= b
    ensures n * a <= n * b
  {
    assert n * b - n * a == n * (b - a);
  }

  /** Multiplying by a positive factor keeps the order both ways. */
  lemma ScaleOrder(n: int, a: int, b: int)
    requires n > 0
    ensures n * a <= n * b <==> a <= b
  {
    if a <= b {
      ScaleMonotone(n, a, b);
    } else {
      ScaleMonotone(n, b + 1, a);
      assert n * (b + 1) == n * b + n;
    }
  }

  /** More minutes never get a lighter shade, and the busiest day gets the darkest. */
  lemma ShadeMonotone(v1: int, v2: int, maxValue: int)
    requires 0 < v1 <= v2 && maxValue >= 0
    ensures ShadeLevel(v1, maxValue) <= ShadeLevel(v2, maxValue)
    ensures v2 == maxValue ==> ShadeLevel(v2, maxValue) == 4
  {
  }

  /** The square is drawn: it is in the selected year and its local midnight is not after `now` (`isCurrentYear && !isFuture`). */
  function SquareShown(c: HeatCell, selectedYear: int, today: Date, timeOfDay: int, zone: int): (shown: bool)
    requires ValidDate(c.date) && ValidDate(today)
    ensures 0 <= timeOfDay < MsPerDay ==>
      (shown <==> c.date.year == selectedYear && DayNumber(c.date) <= DayNumber(today))
  {
    c.date.year == selectedYear && LocalMidnight(c.date, zone) <= LocalMidnight(today, zone) + timeOfDay
  }

  /**
   * `formatTime(minutes)`: `{h}h {m}m` from one hour up, else `{m}m`; `Math.floor`
   * is Dafny's division by 60. The text reads back as the minutes it shows: the
   * number before "h " counts hours, the number before the final "m" counts the
   * minutes under 60.
   */
  function FormatDuration(minutes: int): (r: string)
    ensures |r| >= 2 && r[|r| - 1] == 'm'
    ensures 0 <= minutes < 60 ==> AllDigits(r[..|r| - 1]) && DecimalValue(r[..|r| - 1]) == minutes
    ensures minutes >= 60 ==> exists k | 0 < k && k + 2 < |r| ::
      r[k..k + 2] == "h " && AllDigits(r[..k]) && AllDigits(r[k + 2..|r| - 1]) &&
      DecimalValue(r[k + 2..|r| - 1]) < 60 &&
      60 * DecimalValue(r[..k]) + DecimalValue(r[k + 2..|r| - 1]) == minutes
  {
    var hours := minutes / 60;
    var mins := MinutesPart(minutes);
    var r := if hours > 0 then IntToString(hours) + "h " + IntToString(mins) + "m" else IntToString(mins) + "m";
    if minutes < 0 then r
    else
      var m := NatToString(minutes % 60);
      if minutes < 60 then
        assert r == m + "m";
        assert r[..|r| - 1] == m;
        r
      else
        var h := NatToString(minutes / 60);
        assert r == h + "h " + m + "m";
        var k := |h|;
        assert r[..k] == h;
        assert r[k..k + 2] == "h ";
        assert r[k + 2..|r| - 1] == m;
        r
  }

  // ---------------------------------------------------------------------------
  // Summary figures
  // ---------------------------------------------------------------------------

  /** The four figures the summary cards and the average card show. */
  datatype Summary = Summary(totalMinutes: int, currentStreak: int, longestStreak: int, totalSessions: int, averageMinutes: int)

  /**
   * `Math.round(totalFocusTime / 60)` (seconds to minutes), the streaks and
   * session count with `?? 0`, and `Math.round(totalFocusTime / totalSessions)`
   * when there are sessions, else 0.
   */
  function SummaryOf(stats: Option<UserStats>): (s: Summary)
    ensures stats.None? ==> s == Summary(0, 0, 0, 0, 0)
    ensures stats.Some? ==>
      120 * s.totalMinutes <= 2 * stats.value.totalFocusTime + 60 < 120 * s.totalMinutes + 120 &&
      s.currentStreak == stats.value.currentStreak && s.longestStreak == stats.value.longestStreak &&
      s.totalSessions == stats.value.totalSessions
    ensures s.totalSessions <= 0 ==> s.averageMinutes == 0
    ensures s.totalSessions > 0 ==>
      2 * s.totalSessions * s.averageMinutes <= 2 * s.totalMinutes + s.totalSessions < 2 * s.totalSessions * s.averageMinutes + 2 * s.totalSessions
  {
    match stats
    case None => Summary(0, 0, 0, 0, 0)
    case Some(u) =>
      var total := SessionStore.RoundDiv(u.totalFocusTime, 60);
      var average := if u.totalSessions > 0 then SessionStore.RoundDiv(total, u.totalSessions) else 0;
      Summary(total, u.currentStreak, u.longestStreak, u.totalSessions, average)
  }

  /** With no negative focus time, the average session lies between 0 and the total. */
  lemma AverageWithinTotal(stats: UserStats)
    requires stats.totalFocusTime >= 0 && stats.totalSessions > 0
    ensures var s := SummaryOf(Some(stats));
      0 <= s.totalMinutes && 0 <= s.averageMinutes <= s.totalMinutes
  {
    var s := SummaryOf(Some(stats));
    var n, t, a := s.totalSessions, s.totalMinutes, s.averageMinutes;
    assert 0 <= t;
    assert n * 1 < n * (2 * a + 2);
    ScaleOrder(n, 2 * a + 2, 1);
    ScaleMonotone(t, 1, n);
    assert n * (2 * a) <= n * (2 * t + 1);
    ScaleOrder(n, 2 * a, 2 * t + 1);
  }

  // ---------------------------------------------------------------------------
  // Sums over the data
  // ---------------------------------------------------------------------------

  /** The date an entry names, when its text reads as one (`new Date(d.date)`). */
  function EntryDate(x: HeatmapData): (r: Option<Date>)
    ensures r.Some? ==> ValidDate(r.value)
  {
    match ParseDate(x.date)
    case Ok(e) => Some(e)
    case Err(_) => None
  }

  /** `.reduce((sum, d) => sum + d.value, 0)`. */
  function SumValues(data: seq<HeatmapData>): int
    decreases |data|
  {
    if data == [] then 0 else SumValues(data[..|data| - 1]) + data[|data| - 1].value
  }

  /** `Math.round(sum / count)` for a nonempty list, else 0. */
  function Average(data: seq<HeatmapData>): int
  {
    if |data| > 0 then SessionStore.RoundDiv(SumValues(data), |data|) else 0
  }

  lemma {:induction false} SumOfEqual(data: seq<HeatmapData>, v: int)
    requires forall x | x in data :: x.value == v
    ensures SumValues(data) == |data| * v
    decreases |data|
  {
    if data != [] {
      SumOfEqual(data[..|data| - 1], v);
    }
  }

  /** The average of entries that all hold `v` is `v`. */
  lemma AverageOfEqual(data: seq<HeatmapData>, v: int)
    requires |data| > 0 && forall x | x in data :: x.value == v
    ensures Average(data) == v
  {
    SumOfEqual(data, v);
    var n := |data|;
    assert 2 * (n * v) + n == (2 * n) * v + n;
    DivisionIs(2 * (n * v) + n, 2 * n, v);
  }

  /** `x / d` is the `q` with `d * q <= x < d * q + d`. */
  lemma DivisionIs(x: int, d: int, q: int)
    requires d > 0 && d * q <= x < d * q + d
    ensures x / d == q
  {
    var r := x / d;
    assert d * r <= x < d * (r + 1);
    assert d * q < d * (r + 1);
    assert d * r < d * (q + 1);
    ScaleOrder(d, r + 1, q);
    ScaleOrder(d, q + 1, r);
  }

  /** As written, `dayData` for weekday `index`: `new Date(d.date).getDay()` is the local weekday of the entry's UTC midnight. */
  function OnWeekdayAsWritten(data: seq<HeatmapData>, index: int, zone: int): (r: seq<HeatmapData>)
    requires ValidZone(zone)
    ensures forall x | x in r :: x in data
    decreases |data|
  {
    if data == [] then []
    else
      var x := data[|data| - 1];
      var keep := match EntryDate(x)
        case Some(e) => Weekday(LocalDateOfUtcMidnight(e, zone)) == index
        case None => false;
      OnWeekdayAsWritten(data[..|data| - 1], index, zone) + (if keep then [x] else [])
  }

  /** The entries whose own day is weekday `index`, in their order. */
  function OnWeekday(data: seq<HeatmapData>, index: int): (r: seq<HeatmapData>)
    ensures |r| <= |data|
    ensures forall x :: x in r <==> x in data && EntryDate(x).Some? && Weekday(EntryDate(x).value) == index
    decreases |data|
  {
    if data == [] then []
    else
      var init, x := data[..|data| - 1], data[|data| - 1];
      assert data == init + [x];
      var keep := EntryDate(x).Some? && Weekday(EntryDate(x).value) == index;
      OnWeekday(init, index) + (if keep then [x] else [])
  }

  /** The weekly overview's bar for weekday `index`: the rounded average of that weekday's entries, or 0. */
  function WeekdayAverage(data: seq<HeatmapData>, index: int): (avg: int)
    ensures (forall x | x in data :: EntryDate(x).None? || Weekday(EntryDate(x).value) != index) ==> avg == 0
    ensures var r := OnWeekday(data, index);
      |r| > 0 ==> 2 * |r| * avg <= 2 * SumValues(r) + |r| < 2 * |r| * avg + 2 * |r|
  {
    var r := OnWeekday(data, index);
    assert |r| > 0 ==> r[0] in r;
    Average(r)
  }

  /** A weekday whose entries all hold `v` shows `v`. */
  lemma WeekdayAverageOfEqual(data: seq<HeatmapData>, index: int, v: int)
    requires |OnWeekday(data, index)| > 0
    requires forall x | x in data && EntryDate(x).Some? && Weekday(EntryDate(x).value) == index :: x.value == v
    ensures WeekdayAverage(data, index) == v
  {
    AverageOfEqual(OnWeekday(data, index), v);
  }

  /** An entry chrono wrote for a day reads back as that day. */
  lemma ChronoEntry(e: Date, v: int)
    requires InChronoRange(e)
    ensures EntryDate(HeatmapData(ChronoFormat(e), v)) == Some(e)
  {
    ParseFormatRoundTrip(e);
  }

  /** The day before is the weekday before. */
  lemma WeekdayBefore(e: Date)
    requires ValidDate(e)
    ensures Weekday(PrevDay(e)) == (Weekday(e) + 6) % 7 && Weekday(PrevDay(e)) != Weekday(e)
  {
    var n := DayNumber(e);
    assert DayNumber(PrevDay(e)) + 1 == n;
    var q := (n + 1) / 7;
    var w := (n + 1) % 7;
    assert n + 1 == 7 * q + w;
    if w == 0 {
      assert n == 7 * (q - 1) + 6;
      SevenRemainder(q - 1, 6);
    } else {
      assert n == 7 * q + (w - 1);
      SevenRemainder(q, w - 1);
    }
  }

  /** West of UTC an entry counts for the weekday before its own, and not for its own. */
  lemma WeekdayShiftedWest(x: HeatmapData, e: Date, zone: int)
    requires EntryDate(x) == Some(e) && ValidZone(zone) && zone < 0
    ensures OnWeekdayAsWritten([x], Weekday(e), zone) == []
    ensures OnWeekdayAsWritten([x], (Weekday(e) + 6) % 7, zone) == [x]
    ensures OnWeekday([x], Weekday(e)) == [x]
  {
    WeekdayBefore(e);
    assert [x][..0] == [];
  }

  /** The total of the entries whose own day lies from day number `lo` to `hi`: part of the whole total. */
  function SumBetween(data: seq<HeatmapData>, lo: int, hi: int): (r: int)
    ensures (forall x | x in data :: x.value >= 0) ==> 0 <= r <= SumValues(data)
    decreases |data|
  {
    if data == [] then 0
    else
      assert forall y | y in data[..|data| - 1] :: y in data;
      var x := data[|data| - 1];
      var inRange := match EntryDate(x)
        case Some(e) => lo <= DayNumber(e) <= hi
        case None => false;
      SumBetween(data[..|data| - 1], lo, hi) + (if inRange then x.value else 0)
  }

  /** Splitting the range of days splits the total. */
  lemma {:induction false} SumBetweenSplits(data: seq<HeatmapData>, lo: int, mid: int, hi: int)
    requires lo <= mid < hi
    ensures SumBetween(data, lo, hi) == SumBetween(data, lo, mid) + SumBetween(data, mid + 1, hi)
    decreases |data|
  {
    if data != [] {
      SumBetweenSplits(data[..|data| - 1], lo, mid, hi);
    }
  }

  /** Entries on no day of the range add nothing. */
  lemma {:induction false} SumBetweenOutside(data: seq<HeatmapData>, lo: int, hi: int)
    requires forall x | x in data :: EntryDate(x).None? || !(lo <= DayNumber(EntryDate(x).value) <= hi)
    ensures SumBetween(data, lo, hi) == 0
    decreases |data|
  {
    if data != [] {
      SumBetweenOutside(data[..|data| - 1], lo, hi);
    }
  }

  /** `thisWeekTime` as intended: the entries from this week's Sunday through today, part of the whole total. */
  function ThisWeekTime(data: seq<HeatmapData>, today: Date): (r: int)
    requires ValidDate(today)
    ensures (forall x | x in data :: x.value >= 0) ==> 0 <= r <= SumValues(data)
    ensures Weekday(today) == 0 ==> r == SumBetween(data, DayNumber(today), DayNumber(today))
  {
    SumBetween(data, DayNumber(today) - Weekday(today), DayNumber(today))
  }

  /** `thisMonthTime` as intended: the entries from the first of this month through today, part of the whole total. */
  function ThisMonthTime(data: seq<HeatmapData>, today: Date): (r: int)
    requires ValidDate(today)
    ensures (forall x | x in data :: x.value >= 0) ==> 0 <= r <= SumValues(data)
    ensures today.day == 1 ==> r == SumBetween(data, DayNumber(today), DayNumber(today))
  {
    SumBetween(data, DayNumber(Date(today.year, today.month, 1)), DayNumber(today))
  }

  /** An entry adds to this week's total exactly when its day runs from this week's Sunday through today. */
  lemma ThisWeekTimeAdds(data: seq<HeatmapData>, x: HeatmapData, e: Date, today: Date)
    requires ValidDate(today) && EntryDate(x) == Some(e)
    ensures ThisWeekTime(data + [x], today) == ThisWeekTime(data, today) +
      (if DayNumber(today) - Weekday(today) <= DayNumber(e) <= DayNumber(today) then x.value else 0)
  {
    assert (data + [x])[..|data|] == data;
  }

  /** An entry adds to this month's total exactly when its day runs from the first of the month through today. */
  lemma ThisMonthTimeAdds(data: seq<HeatmapData>, x: HeatmapData, e: Date, today: Date)
    requires ValidDate(today) && EntryDate(x) == Some(e)
    ensures ThisMonthTime(data + [x], today) == ThisMonthTime(data, today) +
      (if DayNumber(Date(today.year, today.month, 1)) <= DayNumber(e) <= DayNumber(today) then x.value else 0)
  {
    assert (data + [x])[..|data|] == data;
  }

  /** As written: the entries whose UTC midnight (`new Date(d.date)`) lies from instant `from` to instant `to`. */
  function SumWithinAsWritten(data: seq<HeatmapData>, from: int, to: int): (r: int)
    ensures (forall x | x in data :: x.value >= 0) ==> 0 <= r <= SumValues(data)
    decreases |data|
  {
    if data == [] then 0
    else
      assert forall y | y in data[..|data| - 1] :: y in data;
      var x := data[|data| - 1];
      var inRange := match EntryDate(x)
        case Some(e) => from <= UtcMidnight(e) <= to
        case None => false;
      SumWithinAsWritten(data[..|data| - 1], from, to) + (if inRange then x.value else 0)
  }

  /**
   * As written, `thisWeekTime`: from `startOfWeek`, which is now moved back to
   * Sunday at the same time of day, until now.
   */
  function ThisWeekTimeAsWritten(data: seq<HeatmapData>, today: Date, timeOfDay: int, zone: int): (r: int)
    requires ValidDate(today)
    ensures (forall x | x in data :: x.value >= 0) ==> 0 <= r <= SumValues(data)
  {
    var now := LocalMidnight(today, zone) + timeOfDay;
    SumWithinAsWritten(data, now - Weekday(today) * MsPerDay, now)
  }

  /** As written, `thisMonthTime`: from local midnight of the first of the month until now. */
  function ThisMonthTimeAsWritten(data: seq<HeatmapData>, today: Date, timeOfDay: int, zone: int): (r: int)
    requires ValidDate(today)
    ensures (forall x | x in data :: x.value >= 0) ==> 0 <= r <= SumValues(data)
  {
    var now := LocalMidnight(today, zone) + timeOfDay;
    SumWithinAsWritten(data, LocalMidnight(Date(today.year, today.month, 1), zone), now)
  }

  /**
   * As written, this week's Sunday is left out whenever the local time of day
   * is past the zone's offset: in UTC, at any moment after midnight.
   */
  lemma WeekSundayDroppedAsWritten(x: HeatmapData, today: Date, sunday: Date, timeOfDay: int, zone: int)
    requires ValidDate(today) && EntryDate(x) == Some(sunday)
    requires DayNumber(sunday) == DayNumber(today) - Weekday(today)
    requires ValidZone(zone) && zone < timeOfDay < MsPerDay
    ensures ThisWeekTimeAsWritten([x], today, timeOfDay, zone) == 0
    ensures ThisWeekTime([x], today) == x.value
  {
    var n, w := DayNumber(today), Weekday(today);
    SingleWithin(x, sunday, LocalMidnight(today, zone) + timeOfDay - w * MsPerDay, LocalMidnight(today, zone) + timeOfDay);
    SingleBetween(x, sunday, n - w, n);
  }

  /** As written, west of UTC the first of the month is left out. */
  lemma MonthFirstDroppedAsWritten(x: HeatmapData, today: Date, timeOfDay: int, zone: int)
    requires ValidDate(today) && EntryDate(x) == Some(Date(today.year, today.month, 1))
    requires ValidZone(zone) && zone < 0 && 0 <= timeOfDay < MsPerDay
    ensures ThisMonthTimeAsWritten([x], today, timeOfDay, zone) == 0
    ensures ThisMonthTime([x], today) == x.value
  {
    var first := Date(today.year, today.month, 1);
    assert DayNumber(first) + today.day - 1 == DayNumber(today);
    SingleWithin(x, first, LocalMidnight(first, zone), LocalMidnight(today, zone) + timeOfDay);
    SingleBetween(x, first, DayNumber(first), DayNumber(today));
  }

  lemma SingleWithin(x: HeatmapData, e: Date, from: int, to: int)
    requires EntryDate(x) == Some(e)
    ensures SumWithinAsWritten([x], from, to) == if from <= UtcMidnight(e) <= to then x.value else 0
  {
    assert [x][..0] == [];
  }

  lemma SingleBetween(x: HeatmapData, e: Date, lo: int, hi: int)
    requires EntryDate(x) == Some(e)
    ensures SumBetween([x], lo, hi) == if lo <= DayNumber(e) <= hi then x.value else 0
  {
    assert [x][..0] == [];
  }

  // ---------------------------------------------------------------------------
  // The year switcher
  // ---------------------------------------------------------------------------

  class StatsView {
    var selectedYear: int

    /** `useState(new Date().getFullYear())`. */
    constructor(currentYear: int)
      ensures selectedYear == currentYear
    {
      selectedYear := currentYear;
    }

    /** The left arrow: `setSelectedYear(y => y - 1)`. */
    method PreviousYear()
      modifies this
      ensures selectedYear == old(selectedYear) - 1
    {
      selectedYear := selectedYear - 1;
    }

    /** The right arrow: `Math.min(y + 1, currentYear)`, which never passes the current year. */
    method NextYear(currentYear: int)
      modifies this
      ensures selectedYear <= currentYear
      ensures old(selectedYear) < currentYear ==> selectedYear == old(selectedYear) + 1
      ensures old(selectedYear) >= currentYear ==> selectedYear == currentYear
    {
      selectedYear := if selectedYear + 1 <= currentYear then selectedYear + 1 else currentYear;
    }

    /** The right arrow is disabled on the current year or later. */
    predicate NextDisabled(currentYear: int)
      reads this
    {
      selectedYear >= currentYear
    }
  }
}
