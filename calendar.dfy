/**
 * The month calendar: the grid of day cells for the month on view (a run of
 * whole weeks from a Sunday: the previous month's tail, the month itself, then
 * the next month's head), the event dot looked up by `YYYY-MM-DD`, and month
 * navigation. Months are numbered 1 to 12 here (JavaScript's `getMonth() + 1`).
 */
module Calendar {
  import opened Wrappers
  import opened Dates

  /** A month on view. */
  datatype YearMonth = YearMonth(year: int, month: int)
  {
    predicate Valid() { 1 <= month <= 12 }
  }

  /** One grid cell: the number shown, whether it belongs to the month on view, and its date. */
  datatype Cell = Cell(date: int, isCurrentMonth: bool, fullDate: Date)

  /** `{ date: 'YYYY-MM-DD', color }`: a coloured dot for a date. */
  datatype CalendarEvent = CalendarEvent(date: string, color: string)

  function MonthOf(d: Date): YearMonth { YearMonth(d.year, d.month) }

  /** `new Date(year, month - 1, 1)`: JavaScript carries month 0 into December of the year before. */
  function PrevMonth(ym: YearMonth): (r: YearMonth)
    requires ym.Valid()
    ensures r.Valid()
    ensures r.month == if ym.month == 1 then 12 else ym.month - 1
    ensures r.year == if ym.month == 1 then ym.year - 1 else ym.year
  {
    if ym.month == 1 then YearMonth(ym.year - 1, 12) else YearMonth(ym.year, ym.month - 1)
  }

  /** `new Date(year, month + 1, 1)`: month 13 carries into January of the year after. */
  function NextMonth(ym: YearMonth): (r: YearMonth)
    requires ym.Valid()
    ensures r.Valid()
    ensures r.month == if ym.month == 12 then 1 else ym.month + 1
    ensures r.year == if ym.month == 12 then ym.year + 1 else ym.year
  {
    if ym.month == 12 then YearMonth(ym.year + 1, 1) else YearMonth(ym.year, ym.month + 1)
  }

  function FirstOf(ym: YearMonth): (d: Date)
    requires ym.Valid()
    ensures ValidDate(d) && d.day == 1 && MonthOf(d) == ym
  {
    Date(ym.year, ym.month, 1)
  }

  /** `new Date(year, month + 1, 0).getDate()`: the number of days in the month. */
  function LastDay(ym: YearMonth): (n: int)
    requires ym.Valid()
    ensures 28 <= n <= 31
  {
    DaysInMonth(ym.year, ym.month)
  }

  /** `firstDay.getDay()`: how many cells of the previous month lead the grid. */
  function Leading(ym: YearMonth): (n: int)
    requires ym.Valid()
    ensures 0 <= n < 7
  {
    Weekday(FirstOf(ym))
  }

  /** The cells needed, rounded up to whole weeks. */
  function GridLength(ym: YearMonth): (n: int)
    requires ym.Valid()
    ensures n % 7 == 0
    ensures Leading(ym) + LastDay(ym) <= n < Leading(ym) + LastDay(ym) + 7
  {
    var used := Leading(ym) + LastDay(ym);
    used + (7 - used % 7) % 7
  }

  /**
   * Cell `k` of the grid: cells before `Leading` count up to the previous month's
   * last day, the month's own days follow from 1, and the next month's days fill
   * the last week from 1. Every cell is a real date showing its day, cell `k`
   * is `k` days after the grid's first cell, and a cell is marked as the current
   * month exactly when its date lies in the month on view.
   */
  function GridCell(ym: YearMonth, k: int): (c: Cell)
    requires ym.Valid() && 0 <= k < GridLength(ym)
    ensures ValidDate(c.fullDate) && c.date == c.fullDate.day
    ensures c.isCurrentMonth <==> Leading(ym) <= k < Leading(ym) + LastDay(ym)
    ensures c.isCurrentMonth <==> MonthOf(c.fullDate) == ym
    ensures k < Leading(ym) ==> MonthOf(c.fullDate) == PrevMonth(ym)
    ensures k >= Leading(ym) + LastDay(ym) ==> MonthOf(c.fullDate) == NextMonth(ym)
    ensures DayNumber(c.fullDate) == DayNumber(FirstOf(ym)) + k - Leading(ym)
  {
    var lead := Leading(ym);
    var dim := LastDay(ym);
    if k < lead then
      var p := PrevMonth(ym);
      MonthsAdjoin(p);
      var d := LastDay(p) - lead + 1 + k;
      Cell(d, false, Date(p.year, p.month, d))
    else if k < lead + dim then
      Cell(k - lead + 1, true, Date(ym.year, ym.month, k - lead + 1))
    else
      var n := NextMonth(ym);
      MonthsAdjoin(ym);
      Cell(k - lead - dim + 1, false, Date(n.year, n.month, k - lead - dim + 1))
  }

  /** `getEventForDate`: the first event whose date is the cell's zero-padded `YYYY-MM-DD`. */
  function EventFor(events: seq<CalendarEvent>, fullDate: Date): (r: Option<CalendarEvent>)
    requires ValidDate(fullDate)
    ensures r.None? <==> forall e | e in events :: e.date != LocalDateString(fullDate)
    ensures r.Some? ==> exists i | 0 <= i < |events| :: (events[i] == r.value &&
      r.value.date == LocalDateString(fullDate) &&
      forall j | 0 <= j < i :: events[j].date != LocalDateString(fullDate))
  {
    FirstEvent(events, LocalDateString(fullDate), 0)
  }

  /** `Array.prototype.find` from position `from` on, by date. */
  function FirstEvent(events: seq<CalendarEvent>, key: string, from: nat): (r: Option<CalendarEvent>)
    requires from <= |events|
    requires forall j | 0 <= j < from :: events[j].date != key
    ensures r.None? <==> forall e | e in events :: e.date != key
    ensures r.Some? ==> exists i | from <= i < |events| :: (events[i] == r.value && r.value.date == key &&
      forall j | 0 <= j < i :: events[j].date != key)
    decreases |events| - from
  {
    if from == |events| then None
    else if events[from].date == key then Some(events[from])
    else FirstEvent(events, key, from + 1)
  }

  /** `isSelected`: the selected date when there is one, else today. */
  function IsSelected(d: Date, selectedDate: Option<Date>, today: Date): (r: bool)
    ensures selectedDate.Some? ==> (r <==> d == selectedDate.value)
    ensures selectedDate.Some? && selectedDate.value != today && d == today ==> !r
    ensures selectedDate.None? ==> (r <==> d == today)
  {
    if selectedDate.Some? then d == selectedDate.value else d == today
  }

  /** The cell's click handler: only a day of the month on view is reported to `onSelectDate`. */
  function Clicked(cell: Cell): (r: Option<Date>)
    ensures r.Some? <==> cell.isCurrentMonth
    ensures r.Some? ==> r.value == cell.fullDate
  {
    if cell.isCurrentMonth then Some(cell.fullDate) else None
  }

  /** The calendar's month on view. */
  class CalendarView {
    var currentMonth: Date

    predicate Valid()
      reads this
    {
      ValidDate(currentMonth)
    }

    /** `useState(new Date())`: the view opens on today. */
    constructor(today: Date)
      requires ValidDate(today)
      ensures Valid() && currentMonth == today
    {
      currentMonth := today;
    }

    /** `goToPrevMonth`: the first of the previous month. */
    method GoToPrevMonth()
      requires Valid()
      modifies this
      ensures Valid() && currentMonth == FirstOf(PrevMonth(MonthOf(old(currentMonth))))
    {
      currentMonth := FirstOf(PrevMonth(MonthOf(currentMonth)));
    }

    /** `goToNextMonth`: the first of the next month. */
    method GoToNextMonth()
      requires Valid()
      modifies this
      ensures Valid() && currentMonth == FirstOf(NextMonth(MonthOf(old(currentMonth))))
    {
      currentMonth := FirstOf(NextMonth(MonthOf(currentMonth)));
    }

    /** `calendarDays`: the grid for the month on view, built by the three loops. */
    method CalendarDays() returns (days: seq<Cell>)
      requires Valid()
      ensures var ym := MonthOf(currentMonth);
        |days| == GridLength(ym) && forall k | 0 <= k < |days| :: days[k] == GridCell(ym, k)
    {
      var ym := MonthOf(currentMonth);
      var year, month := currentMonth.year, currentMonth.month;
      var lead := Weekday(Date(year, month, 1));
      var daysInMonth := DaysInMonth(year, month);
      var prev := PrevMonth(ym);
      var prevMonthLastDay := DaysInMonth(prev.year, prev.month);
      days := [];
      // Previous month's days
      var i := lead - 1;
      while i >= 0
        invariant -1 <= i < lead
        invariant |days| == lead - 1 - i
        invariant forall k | 0 <= k < |days| :: days[k] == GridCell(ym, k)
      {
        days := days + [Cell(prevMonthLastDay - i, false, Date(prev.year, prev.month, prevMonthLastDay - i))];
        i := i - 1;
      }
      // Current month's days
      i := 1;
      while i <= daysInMonth
        invariant 1 <= i <= daysInMonth + 1
        invariant |days| == lead + i - 1
        invariant forall k | 0 <= k < |days| :: days[k] == GridCell(ym, k)
      {
        days := days + [Cell(i, true, Date(year, month, i))];
        i := i + 1;
      }
      // Next month's days, up to a whole number of weeks (`Math.ceil(days.length / 7) * 7`)
      var totalDays := ((|days| + 6) / 7) * 7;
      var remainingDays := totalDays - |days|;
      assert totalDays == GridLength(ym);
      var next := NextMonth(ym);
      i := 1;
      while i <= remainingDays
        invariant 1 <= i <= remainingDays + 1
        invariant |days| == lead + daysInMonth + i - 1
        invariant forall k | 0 <= k < |days| :: days[k] == GridCell(ym, k)
      {
        days := days + [Cell(i, false, Date(next.year, next.month, i))];
        i := i + 1;
      }
    }
  }

  // ---------------------------------------------------------------------------
  // Properties of the grid and of navigation
  // ---------------------------------------------------------------------------

  /** Navigating forward then back, or back then forward, returns to the same month. */
  lemma NavigationRoundTrip(ym: YearMonth)
    requires ym.Valid()
    ensures PrevMonth(NextMonth(ym)) == ym && NextMonth(PrevMonth(ym)) == ym
  {
  }

  /** The first of the next month follows the last of this month. */
  lemma MonthsAdjoin(ym: YearMonth)
    requires ym.Valid()
    ensures var n := NextMonth(ym);
      NextDay(Date(ym.year, ym.month, LastDay(ym))) == FirstOf(n) &&
      DayNumber(FirstOf(n)) == DayNumber(FirstOf(ym)) + LastDay(ym)
  {
    var last := Date(ym.year, ym.month, LastDay(ym));
    assert DayNumber(last) == DayNumber(FirstOf(ym)) + LastDay(ym) - 1;
  }

  /** The grid's columns are the weekdays Sunday to Saturday. */
  lemma GridColumns(ym: YearMonth, k: int)
    requires ym.Valid() && 0 <= k < GridLength(ym)
    ensures ValidDate(GridCell(ym, k).fullDate) && Weekday(GridCell(ym, k).fullDate) == k % 7
  {
    var a := DayNumber(FirstOf(ym)) + 1;
    ShiftedRemainder(a, k);
  }

  lemma ShiftedRemainder(a: int, k: int)
    ensures (a - a % 7 + k) % 7 == k % 7
  {
    assert a - a % 7 == 7 * (a / 7);
  }

  /**
   * The grid takes four to six weeks; six exactly when the leading cells and the
   * month together exceed 35, so it is not capped at five rows.
   */
  lemma GridRows(ym: YearMonth)
    requires ym.Valid()
    ensures 28 <= GridLength(ym) <= 42
    ensures GridLength(ym) == 42 <==> Leading(ym) + LastDay(ym) > 35
    ensures GridLength(ym) - (Leading(ym) + LastDay(ym)) < 7
  {
  }

  /** August 2026 begins on a Saturday: six leading cells and 31 days need six rows. */
  lemma SixRowMonth()
    ensures Leading(YearMonth(2026, 8)) == 6 && GridLength(YearMonth(2026, 8)) == 42
  {
    assert DayNumber(Date(2026, 8, 1)) == 739828;
  }
}
