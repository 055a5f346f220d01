/**
 * The application shell's own state: the list of tasks the schedule tab shows, the
 * local profile, the selected date and the user sub-page. Tasks are added from
 * the add-task form and toggled from the list of tasks; the calendar receives one
 * event per task of the selected month.
 */
module AppShell {
  import opened Wrappers
  import opened Text
  import opened Dates
  import opened TaskModel
  import opened TaskStore
  import Calendar
  import SessionStore

  /** A task as the shell keeps it: the form's fields plus an id and the completion flag. */
  datatype ScheduledTask = ScheduledTask(id: string, fields: TaskDraft, completed: bool)

  /** The shell's local profile (`defaultUser`). */
  datatype Profile = Profile(
    id: string, name: string, email: Option<string>, avatar: Option<string>, joinDate: string, isPremium: bool)

  /** `Partial<User>`: `Some` for each key present in the update. */
  datatype ProfileUpdates = ProfileUpdates(
    id: Option<string>, name: Option<string>, email: Option<Option<string>>, avatar: Option<Option<string>>,
    joinDate: Option<string>, isPremium: Option<bool>)

  datatype SubPage = Achievements | Settings | Premium

  /** `categoryDotColors`. */
  function DotColor(c: TaskCategory): (color: string)
    ensures c == Reminder ==> color == "bg-sky-400"
    ensures c == ToDo ==> color == "bg-emerald-400"
    ensures c == Event ==> color == "bg-violet-400"
  {
    match c
    case Reminder => "bg-sky-400"
    case ToDo => "bg-emerald-400"
    case Event => "bg-violet-400"
  }

  /** `{ ...prev, ...updates }`: the keys present in the update win, the others keep their value. */
  function Merge(p: Profile, u: ProfileUpdates): (r: Profile)
    ensures r.id == (if u.id.Some? then u.id.value else p.id)
    ensures r.name == (if u.name.Some? then u.name.value else p.name)
    ensures r.email == (if u.email.Some? then u.email.value else p.email)
    ensures r.avatar == (if u.avatar.Some? then u.avatar.value else p.avatar)
    ensures r.joinDate == (if u.joinDate.Some? then u.joinDate.value else p.joinDate)
    ensures r.isPremium == (if u.isPremium.Some? then u.isPremium.value else p.isPremium)
  {
    Profile(
      Spread(u.id, p.id), Spread(u.name, p.name), Spread(u.email, p.email), Spread(u.avatar, p.avatar),
      Spread(u.joinDate, p.joinDate), Spread(u.isPremium, p.isPremium))
  }

  /** One key of an object spread: the update's value when the key is present. */
  function Spread<T>(update: Option<T>, current: T): T
  {
    if update.Some? then update.value else current
  }

  /** `tasks.map(t => t.id === id ? { ...t, completed: !t.completed } : t)`. */
  function ToggleById(ts: seq<ScheduledTask>, id: string): (r: seq<ScheduledTask>)
    ensures |r| == |ts|
    ensures forall i | 0 <= i < |ts| ::
      r[i].id == ts[i].id && r[i].fields == ts[i].fields &&
      r[i].completed == (if ts[i].id == id then !ts[i].completed else ts[i].completed)
    decreases |ts|
  {
    if ts == [] then []
    else [if ts[0].id == id then ts[0].(completed := !ts[0].completed) else ts[0]] + ToggleById(ts[1..], id)
  }

  /** `tasks.filter(t => t.date === key)`. */
  function DatedOn(ts: seq<ScheduledTask>, key: string): (r: seq<ScheduledTask>)
    ensures forall t :: t in r <==> t in ts && t.fields.date == key
    decreases |ts|
  {
    if ts == [] then []
    else if ts[0].fields.date == key then [ts[0]] + DatedOn(ts[1..], key)
    else DatedOn(ts[1..], key)
  }

  /** The month and year of `new Date(task.date)` are those of the selected date (an unreadable date matches nothing). */
  function InMonthOf(t: ScheduledTask, selected: Date): (r: bool)
    ensures r ==> ParseDate(t.fields.date).Ok?
    ensures forall d | InChronoRange(d) && t.fields.date == ChronoFormat(d) ::
      r <==> d.year == selected.year && d.month == selected.month
  {
    ChronoTextParses(t.fields.date);
    var parsed := ParseDate(t.fields.date);
    parsed.Ok? && parsed.value.month == selected.month && parsed.value.year == selected.year
  }

  /** Any text chrono writes for a date reads back as that date. */
  lemma ChronoTextParses(s: string)
    ensures forall d | InChronoRange(d) && s == ChronoFormat(d) :: ParseDate(s) == Ok(d)
  {
    forall d | InChronoRange(d) && s == ChronoFormat(d) ensures ParseDate(s) == Ok(d) {
      ParseFormatRoundTrip(d);
    }
  }

  /** The tasks of the selected month, in list order. */
  function TasksInMonth(ts: seq<ScheduledTask>, selected: Date): (r: seq<ScheduledTask>)
    ensures forall t :: t in r <==> t in ts && InMonthOf(t, selected)
    decreases |ts|
  {
    if ts == [] then []
    else if InMonthOf(ts[0], selected) then [ts[0]] + TasksInMonth(ts[1..], selected)
    else TasksInMonth(ts[1..], selected)
  }

  /** A JavaScript value as compared by `===`: a number never equals a string. */
  datatype JsValue = JsNumber(n: int) | JsString(s: string)

  /** A calendar event as the shell builds it: `date` holds whatever value the map put there. */
  datatype ShellEvent = ShellEvent(date: JsValue, color: string)

  /**
   * `calendarEvents` as written: each task of the selected month becomes an event
   * whose date is `new Date(task.date).getDate()`, the day of the month as a number.
   */
  function CalendarEventsAsWritten(ts: seq<ScheduledTask>, selected: Date): (r: seq<ShellEvent>)
    ensures |r| == |TasksInMonth(ts, selected)|
    ensures forall i | 0 <= i < |r| :: r[i].date.JsNumber?
    decreases |ts|
  {
    if ts == [] then []
    else if InMonthOf(ts[0], selected) then
      [ShellEvent(JsNumber(ParseDate(ts[0].fields.date).value.day), DotColor(ts[0].fields.category))] +
      CalendarEventsAsWritten(ts[1..], selected)
    else CalendarEventsAsWritten(ts[1..], selected)
  }

  /** The calendar's `events.find(e => e.date === dateStr)` over the events the shell builds. */
  function FindAsWritten(events: seq<ShellEvent>, fullDate: Date): (r: Option<ShellEvent>)
    requires ValidDate(fullDate)
    ensures r.None? <==> forall e | e in events :: e.date != JsString(LocalDateString(fullDate))
    decreases |events|
  {
    if events == [] then None
    else if events[0].date == JsString(LocalDateString(fullDate)) then Some(events[0])
    else FindAsWritten(events[1..], fullDate)
  }

  /**
   * `calendarEvents` as the calendar needs it: each task of the selected month
   * becomes an event carrying that task's own `YYYY-MM-DD` date.
   */
  function CalendarEvents(ts: seq<ScheduledTask>, selected: Date): (r: seq<Calendar.CalendarEvent>)
    ensures |r| == |TasksInMonth(ts, selected)|
    ensures forall i | 0 <= i < |r| ::
      r[i] == Calendar.CalendarEvent(TasksInMonth(ts, selected)[i].fields.date,
                                     DotColor(TasksInMonth(ts, selected)[i].fields.category))
    decreases |ts|
  {
    if ts == [] then []
    else if InMonthOf(ts[0], selected) then
      [Calendar.CalendarEvent(ts[0].fields.date, DotColor(ts[0].fields.category))] + CalendarEvents(ts[1..], selected)
    else CalendarEvents(ts[1..], selected)
  }

  class Shell {
    var tasks: seq<ScheduledTask>
    var user: Profile
    var selectedDate: Date
    var subPage: Option<SubPage>

    predicate Valid()
      reads this
    {
      ValidDate(selectedDate)
    }

    /** The shell opens on today with no tasks, the default profile and no sub-page. */
    constructor(today: Date, defaultUser: Profile)
      requires ValidDate(today)
      ensures Valid() && tasks == [] && user == defaultUser && selectedDate == today && subPage == None
    {
      tasks, user, selectedDate, subPage := [], defaultUser, today, None;
    }

    /** `handleAddTask`: one new, not completed task with id `Date.now().toString()` joins the end. */
    method AddTask(fields: TaskDraft, now: int)
      modifies this
      ensures tasks == old(tasks) + [ScheduledTask(IntToString(now), fields, false)]
      ensures user == old(user) && selectedDate == old(selectedDate) && subPage == old(subPage)
    {
      tasks := tasks + [ScheduledTask(IntToString(now), fields, false)];
    }

    /** `handleToggleTask`: the tasks with that id flip their completion flag. */
    method ToggleTask(taskId: string)
      modifies this
      ensures tasks == ToggleById(old(tasks), taskId)
      ensures user == old(user) && selectedDate == old(selectedDate) && subPage == old(subPage)
    {
      tasks := ToggleById(tasks, taskId);
    }

    /** `handleUpdateUser`. */
    method UpdateUser(updates: ProfileUpdates)
      modifies this
      ensures user == Merge(old(user), updates)
      ensures tasks == old(tasks) && selectedDate == old(selectedDate) && subPage == old(subPage)
    {
      user := Merge(user, updates);
    }

    /** The premium page's `onUpgrade`: the profile turns premium and the sub-page closes. */
    method Upgrade()
      modifies this
      ensures user == old(user).(isPremium := true) && subPage == None
      ensures tasks == old(tasks) && selectedDate == old(selectedDate)
    {
      user := user.(isPremium := true);
      subPage := None;
    }

    /** The calendar's `onSelectDate`. */
    method SelectDate(d: Date)
      requires ValidDate(d)
      modifies this
      ensures Valid() && selectedDate == d
      ensures tasks == old(tasks) && user == old(user) && subPage == old(subPage)
    {
      selectedDate := d;
    }

    /** `tasksForSelectedDate` as intended: the tasks dated with the selected day, written as the form writes it. */
    function TasksForSelectedDate(): (r: seq<ScheduledTask>)
      requires Valid()
      reads this
      ensures forall t :: t in r <==> t in tasks && t.fields.date == LocalDateString(selectedDate)
    {
      DatedOn(tasks, LocalDateString(selectedDate))
    }
  }

  // ---------------------------------------------------------------------------
  // Properties
  // ---------------------------------------------------------------------------

  /** Toggling the same id twice restores the list. */
  lemma ToggleTwice(ts: seq<ScheduledTask>, id: string)
    ensures ToggleById(ToggleById(ts, id), id) == ts
  {
    var r := ToggleById(ToggleById(ts, id), id);
    assert |r| == |ts|;
    forall i | 0 <= i < |ts|
      ensures r[i] == ts[i]
    {
    }
  }

  /** Applying the same update twice is applying it once, and an empty update changes nothing. */
  lemma MergeIdempotent(p: Profile, u: ProfileUpdates)
    ensures Merge(Merge(p, u), u) == Merge(p, u)
    ensures Merge(p, ProfileUpdates(None, None, None, None, None, None)) == p
  {
  }

  /**
   * As written, `tasksForSelectedDate` keys on `selectedDate.toISOString()`:
   * for a day picked in the calendar (local midnight) that is the UTC date of
   * local midnight.
   */
  function TasksForDateAsWritten(ts: seq<ScheduledTask>, selected: Date, zone: int): (r: seq<ScheduledTask>)
    requires ValidDate(selected) && ValidZone(zone)
    ensures forall t :: t in r <==> t in ts && t.fields.date == IsoDateString(UtcDateOfLocalMidnight(selected, zone))
  {
    DatedOn(ts, IsoDateString(UtcDateOfLocalMidnight(selected, zone)))
  }

  /** A task saved from the form for the selected date shows in the selected date's list. */
  lemma AddedTaskIsListed(ts: seq<ScheduledTask>, t: ScheduledTask, selected: Date)
    requires ValidDate(selected)
    requires t.fields.date == LocalDateString(selected)
    ensures t in DatedOn(ts + [t], LocalDateString(selected))
  {
  }

  /**
   * As written, the saved task shows in the list at UTC and west of it (four-digit
   * years), and never east of UTC, where the list is the previous day's.
   */
  lemma AddedTaskHiddenEastAsWritten(ts: seq<ScheduledTask>, t: ScheduledTask, selected: Date, zone: int)
    requires ValidDate(selected) && 1001 <= selected.year < 10000 && ValidZone(zone)
    requires t.fields.date == LocalDateString(selected)
    ensures zone <= 0 ==> t in TasksForDateAsWritten(ts + [t], selected, zone)
    ensures zone > 0 ==> t !in TasksForDateAsWritten(ts + [t], selected, zone)
  {
    RenderingsAgree(selected);
    if zone > 0 {
      var p := PrevDay(selected);
      RenderingsAgree(p);
      SessionStore.LocalDateRoundTrip(p, selected);
    }
  }

  /**
   * As written, no cell of the calendar ever finds an event: the shell's event
   * dates are numbers and the calendar looks them up with `===` against a string.
   */
  lemma NoDotAsWritten(ts: seq<ScheduledTask>, selected: Date, cell: Date)
    requires ValidDate(cell)
    ensures FindAsWritten(CalendarEventsAsWritten(ts, selected), cell) == None
  {
  }

  /** A task on 14 October 2026 (dated as the form writes it) with that day selected: the calendar shows no dot for it. */
  lemma NoDotCounterexample()
    ensures var d := Date(2026, 10, 14);
      var t := ScheduledTask("1", TaskDraft("Read", ToDo, LocalDateString(d), "09:00", "10:00"), false);
      InMonthOf(t, d) && |CalendarEventsAsWritten([t], d)| == 1 &&
      FindAsWritten(CalendarEventsAsWritten([t], d), d) == None
  {
    var d := Date(2026, 10, 14);
    var t := ScheduledTask("1", TaskDraft("Read", ToDo, LocalDateString(d), "09:00", "10:00"), false);
    SessionStore.LocalDateRoundTrip(d, d);
    assert InMonthOf(t, d);
    assert TasksInMonth([t], d) == [t];
    NoDotAsWritten([t], d, d);
  }

  /**
   * With each task's own date as the event date, every cell of the selected month
   * that carries a task (dated as the form writes it) finds an event of that date.
   */
  lemma DotShown(ts: seq<ScheduledTask>, t: ScheduledTask, selected: Date, cell: Date)
    requires t in ts
    requires ValidDate(cell) && 1000 <= cell.year < 10000
    requires t.fields.date == LocalDateString(cell)
    requires cell.month == selected.month && cell.year == selected.year
    ensures var found := Calendar.EventFor(CalendarEvents(ts, selected), cell);
      found.Some? && found.value.date == t.fields.date
  {
    SessionStore.LocalDateRoundTrip(cell, cell);
    assert InMonthOf(t, selected);
    var inMonth := TasksInMonth(ts, selected);
    assert t in inMonth;
    var i :| 0 <= i < |inMonth| && inMonth[i] == t;
    var events := CalendarEvents(ts, selected);
    assert events[i].date == LocalDateString(cell);
    assert events[i] in events;
  }
}
