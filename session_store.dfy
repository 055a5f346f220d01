/**
 * The frontend's session cache: recent sessions, the daily aggregates of a date
 * range, the user's summary statistics and the heatmap, with a loading flag and
 * the last error. Service outcomes, the signed-in user and the local date are
 * parameters.
 */
module SessionStore {
  import opened Wrappers
  import opened Text
  import opened Dates
  import opened SessionModel
  import opened UserModel

  /** `Omit<CreateFocusSessionRequest, 'userId'>`. */
  datatype SessionDraft = SessionDraft(
    durationSeconds: int, startedAt: string, endedAt: string, category: Option<string>, notes: Option<string>)

  function SessionRequestFor(user: User, draft: SessionDraft): (q: CreateFocusSessionRequest)
    ensures q.userId == user.id && q.durationSeconds == draft.durationSeconds
    ensures q.startedAt == draft.startedAt && q.endedAt == draft.endedAt
    ensures q.category == draft.category && q.notes == draft.notes
  {
    CreateFocusSessionRequest(user.id, draft.durationSeconds, draft.startedAt, draft.endedAt, draft.category, draft.notes)
  }

  /** The position of the first aggregate dated `date`, or `|stats|` when there is none. */
  function FirstOnDate(stats: seq<DailyStats>, date: string): (i: nat)
    ensures i <= |stats|
    ensures i < |stats| ==> stats[i].date == date
    ensures forall j | 0 <= j < i :: stats[j].date != date
    decreases |stats|
  {
    if stats == [] then 0
    else if stats[0].date == date then 0
    else 1 + FirstOnDate(stats[1..], date)
  }

  /** `dailyStats.find(s => s.date === date)`. */
  function FindOnDate(stats: seq<DailyStats>, date: string): (r: Option<DailyStats>)
    ensures r.None? <==> forall s | s in stats :: s.date != date
    ensures r.Some? ==> r.value in stats && r.value.date == date
    ensures forall i | 0 <= i < |stats| && stats[i].date == date && (forall j | 0 <= j < i :: stats[j].date != date) ::
      r == Some(stats[i])
  {
    var k := FirstOnDate(stats, date);
    forall i | 0 <= i < |stats| && stats[i].date == date && (forall j | 0 <= j < i :: stats[j].date != date)
      ensures i == k
    {
    }
    if k < |stats| then Some(stats[k]) else None
  }

  /** `Math.round(x / d)`: the nearest integer, halves rounded up. */
  function RoundDiv(x: int, d: int): (r: int)
    requires d > 0
    ensures 2 * d * r <= 2 * x + d < 2 * d * r + 2 * d
  {
    (2 * x + d) / (2 * d)
  }

  /** The bar for one day of the week chart: rounded minutes of the first aggregate under `key`, or 0. */
  function KeyMinutes(stats: seq<DailyStats>, key: string): int
  {
    match FindOnDate(stats, key)
    case Some(s) => RoundDiv(s.totalFocusSeconds, 60)
    case None => 0
  }

  /** The Sunday that starts the week of `today` (`setDate(getDate() - getDay())`). */
  function StartOfWeek(today: Date): (r: Date)
    requires ValidDate(today)
    ensures ValidDate(r)
  {
    AddDays(today, -Weekday(today))
  }

  /** The keys of the seven days from `start` on, as `formatLocalDate` writes them. */
  function WeekKeys(start: Date): (keys: seq<string>)
    requires ValidDate(start)
  {
    seq(7, i requires 0 <= i < 7 => LocalDateString(AddDays(start, i)))
  }

  class SessionState {
    var sessions: seq<FocusSession>
    var dailyStats: seq<DailyStats>
    var userStats: Option<UserStats>
    var heatmapData: seq<HeatmapData>
    var isLoading: bool
    var error: Option<string>

    constructor()
      ensures sessions == [] && dailyStats == [] && userStats == None && heatmapData == []
      ensures !isLoading && error == None
    {
      sessions, dailyStats, userStats, heatmapData := [], [], None, [];
      isLoading, error := false, None;
    }

    /**
     * `createSession`: throws "No user found" without a user; otherwise sends the
     * draft under the user's id and puts the created session first. A failure is
     * recorded and rethrown.
     */
    method CreateSession(user: Option<User>, draft: SessionDraft, created: Result<FocusSession>)
      returns (r: Result<FocusSession>, sent: Option<CreateFocusSessionRequest>)
      modifies this
      ensures dailyStats == old(dailyStats) && userStats == old(userStats) && heatmapData == old(heatmapData)
      ensures user.None? ==> r == Err("No user found") && sent == None
      ensures user.None? ==> sessions == old(sessions) && isLoading == old(isLoading) && error == old(error)
      ensures user.Some? ==> sent == Some(SessionRequestFor(user.value, draft)) && r == created && !isLoading
      ensures user.Some? && created.Ok? ==> sessions == [created.value] + old(sessions) && error == None
      ensures user.Some? && created.Err? ==> sessions == old(sessions) && error == Some(created.error)
    {
      if user.None? {
        return Err("No user found"), None;
      }
      sent := Some(SessionRequestFor(user.value, draft));
      isLoading, error := true, None;
      match created {
        case Ok(s) =>
          sessions, isLoading := [s] + sessions, false;
        case Err(e) =>
          error, isLoading := Some(e), false;
      }
      r := created;
    }

    /** `fetchSessions`: the fetched list replaces the cache. No user: nothing happens. */
    method FetchSessions(user: Option<User>, fetched: Result<seq<FocusSession>>)
      modifies this
      ensures dailyStats == old(dailyStats) && userStats == old(userStats) && heatmapData == old(heatmapData)
      ensures user.None? ==> sessions == old(sessions) && isLoading == old(isLoading) && error == old(error)
      ensures user.Some? && fetched.Ok? ==> sessions == fetched.value && !isLoading && error == None
      ensures user.Some? && fetched.Err? ==> sessions == old(sessions) && !isLoading && error == Some(fetched.error)
    {
      if user.None? {
        return;
      }
      isLoading, error := true, None;
      match fetched {
        case Ok(got) =>
          sessions, isLoading := got, false;
        case Err(e) =>
          error, isLoading := Some(e), false;
      }
    }

    /** `fetchDailyStats`: no loading flag, and a success keeps the last error. */
    method FetchDailyStats(user: Option<User>, fetched: Result<seq<DailyStats>>)
      modifies this
      ensures sessions == old(sessions) && userStats == old(userStats) && heatmapData == old(heatmapData)
      ensures isLoading == old(isLoading)
      ensures user.None? || fetched.Ok? ==> error == old(error)
      ensures user.Some? && fetched.Ok? ==> dailyStats == fetched.value
      ensures user.None? || fetched.Err? ==> dailyStats == old(dailyStats)
      ensures user.Some? && fetched.Err? ==> error == Some(fetched.error)
    {
      if user.None? {
        return;
      }
      match fetched {
        case Ok(got) => dailyStats := got;
        case Err(e) => error := Some(e);
      }
    }

    /** `fetchUserStats`: as `fetchDailyStats`, for the summary statistics. */
    method FetchUserStats(user: Option<User>, fetched: Result<UserStats>)
      modifies this
      ensures sessions == old(sessions) && dailyStats == old(dailyStats) && heatmapData == old(heatmapData)
      ensures isLoading == old(isLoading)
      ensures user.None? || fetched.Ok? ==> error == old(error)
      ensures user.Some? && fetched.Ok? ==> userStats == Some(fetched.value)
      ensures user.None? || fetched.Err? ==> userStats == old(userStats)
      ensures user.Some? && fetched.Err? ==> error == Some(fetched.error)
    {
      if user.None? {
        return;
      }
      match fetched {
        case Ok(got) => userStats := Some(got);
        case Err(e) => error := Some(e);
      }
    }

    /** `fetchHeatmapData`: as `fetchDailyStats`, for the heatmap. */
    method FetchHeatmapData(user: Option<User>, fetched: Result<seq<HeatmapData>>)
      modifies this
      ensures sessions == old(sessions) && dailyStats == old(dailyStats) && userStats == old(userStats)
      ensures isLoading == old(isLoading)
      ensures user.None? || fetched.Ok? ==> error == old(error)
      ensures user.Some? && fetched.Ok? ==> heatmapData == fetched.value
      ensures user.None? || fetched.Err? ==> heatmapData == old(heatmapData)
      ensures user.Some? && fetched.Err? ==> error == Some(fetched.error)
    {
      if user.None? {
        return;
      }
      match fetched {
        case Ok(got) => heatmapData := got;
        case Err(e) => error := Some(e);
      }
    }

    /** `getTodayFocusSeconds`: from the first aggregate dated today, else 0. */
    function TodayFocusSeconds(today: Date): (r: int)
      requires ValidDate(today)
      reads this
      ensures (forall s | s in dailyStats :: s.date != LocalDateString(today)) ==> r == 0
      ensures forall i | 0 <= i < |dailyStats| && dailyStats[i].date == LocalDateString(today) &&
        (forall j | 0 <= j < i :: dailyStats[j].date != LocalDateString(today)) :: r == dailyStats[i].totalFocusSeconds
    {
      match FindOnDate(dailyStats, LocalDateString(today))
      case Some(s) => s.totalFocusSeconds
      case None => 0
    }

    /** `getTodaySessionCount`: from the first aggregate dated today, else 0. */
    function TodaySessionCount(today: Date): (r: int)
      requires ValidDate(today)
      reads this
      ensures (forall s | s in dailyStats :: s.date != LocalDateString(today)) ==> r == 0
      ensures forall i | 0 <= i < |dailyStats| && dailyStats[i].date == LocalDateString(today) &&
        (forall j | 0 <= j < i :: dailyStats[j].date != LocalDateString(today)) :: r == dailyStats[i].sessionCount
    {
      match FindOnDate(dailyStats, LocalDateString(today))
      case Some(s) => s.sessionCount
      case None => 0
    }

    /**
     * `getWeekData`: seven bars, Sunday of the current week first, the `i`-th
     * being the rounded minutes of the day `i` days after that Sunday.
     */
    method WeekData(today: Date) returns (result: seq<int>)
      requires ValidDate(today)
      ensures var keys := WeekKeys(StartOfWeek(today));
        |result| == 7 && forall j | 0 <= j < 7 :: result[j] == KeyMinutes(dailyStats, keys[j])
    {
      var startOfWeek := StartOfWeek(today);
      ghost var keys := WeekKeys(startOfWeek);
      result := [];
      for i := 0 to 7
        invariant |result| == i
        invariant forall j | 0 <= j < i :: result[j] == KeyMinutes(dailyStats, keys[j])
      {
        var date := AddDays(startOfWeek, i);
        var dateKey := LocalDateString(date);
        var stat := FindOnDate(dailyStats, dateKey);
        var minutes := if stat.Some? then RoundDiv(stat.value.totalFocusSeconds, 60) else 0;
        assert minutes == KeyMinutes(dailyStats, keys[i]);
        result := result + [minutes];
      }
    }

    method ClearError()
      modifies this
      ensures error == None
      ensures sessions == old(sessions) && dailyStats == old(dailyStats) && userStats == old(userStats)
      ensures heatmapData == old(heatmapData) && isLoading == old(isLoading)
    {
      error := None;
    }
  }

  // ---------------------------------------------------------------------------
  // Properties
  // ---------------------------------------------------------------------------

  /** The week chart starts on a Sunday, within the six days before today, and runs over seven consecutive days. */
  lemma WeekStartsOnSunday(today: Date, i: int)
    requires ValidDate(today) && 0 <= i < 7
    ensures Weekday(StartOfWeek(today)) == 0
    ensures DayNumber(today) - 6 <= DayNumber(StartOfWeek(today)) <= DayNumber(today)
    ensures DayNumber(AddDays(StartOfWeek(today), i)) == DayNumber(StartOfWeek(today)) + i
  {
    BackToSunday(DayNumber(today), Weekday(today));
    AddDaysNumber(today, -Weekday(today));
    AddDaysNumber(StartOfWeek(today), i);
  }

  /** Going back `(n + 1) % 7` days from day `n` reaches a day whose number plus one is a multiple of 7. */
  lemma BackToSunday(n: int, w: int)
    requires w == (n + 1) % 7
    ensures (n - w + 1) % 7 == 0
  {
    var q := (n + 1) / 7;
    assert n - w + 1 == 7 * q;
  }

  /** A day without an aggregate shows 0; a day with one shows its seconds rounded to minutes. */
  lemma KeyMinutesOf(stats: seq<DailyStats>, key: string)
    ensures (forall s | s in stats :: s.date != key) ==> KeyMinutes(stats, key) == 0
    ensures forall i | 0 <= i < |stats| && stats[i].date == key && (forall j | 0 <= j < i :: stats[j].date != key) ::
      120 * KeyMinutes(stats, key) <= 2 * stats[i].totalFocusSeconds + 60 < 120 * KeyMinutes(stats, key) + 120
  {
    var k := FirstOnDate(stats, key);
    forall i | 0 <= i < |stats| && stats[i].date == key && (forall j | 0 <= j < i :: stats[j].date != key)
      ensures i == k
    {
    }
  }

  /**
   * `formatLocalDate` for four-digit years: ten characters `YYYY-MM-DD` whose
   * fields read back as the year, the 1-based month and the day.
   */
  lemma LocalDateShape(d: Date)
    requires ValidDate(d) && 1000 <= d.year < 10000
    ensures var s := LocalDateString(d);
      |s| == 10 && s[4] == '-' && s[7] == '-' &&
      AllDigits(s[..4]) && DecimalValue(s[..4]) == d.year &&
      AllDigits(s[5..7]) && DecimalValue(s[5..7]) == d.month &&
      AllDigits(s[8..]) && DecimalValue(s[8..]) == d.day
  {
    var y := NatToString(d.year);
    var s := LocalDateString(d);
    assert s == y + "-" + Pad2(d.month) + "-" + Pad2(d.day);
    assert s[..4] == y;
    assert s[5..7] == Pad2(d.month);
    assert s[8..] == Pad2(d.day);
  }

  /** `formatLocalDate` is read back by the backend's date parser, so distinct dates give distinct keys. */
  lemma LocalDateRoundTrip(d: Date, e: Date)
    requires ValidDate(d) && 1000 <= d.year < 10000
    requires ValidDate(e) && 1000 <= e.year < 10000
    ensures ParseDate(LocalDateString(d)) == Ok(d)
    ensures LocalDateString(d) == LocalDateString(e) ==> d == e
  {
    RenderingsAgree(d);
    RenderingsAgree(e);
    ParseFormatRoundTrip(d);
    ParseFormatRoundTrip(e);
  }
}
