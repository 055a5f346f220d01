/**
 * The two streak calculators of the session commands. Both read the distinct
 * dates on which a user has focus time, as stored TEXT, and parse neighbouring
 * dates with chrono's `%Y-%m-%d` parser inside their loops; a date that does not
 * parse ends the call with the parser's message. The current streak walks the
 * dates newest first and counts the days of the run that starts today or
 * yesterday; the longest streak walks them oldest first and keeps the longest run
 * of consecutive days. The copy of the current-streak calculator in the
 * achievement commands is the same code over the same query and is this one.
 */
module Streak {
  import opened Wrappers
  import opened Dates
  import opened Collections

  // ---------------------------------------------------------------------------
  // The loops, as the source runs them
  // ---------------------------------------------------------------------------

  /** What parsing a stored date gives the loops: its day number, or the parser's message. */
  function DayOf(s: string): (r: Result<int>)
    ensures ParseDate(s).Ok? ==> r == Ok(DayNumber(ParseDate(s).value))
    ensures ParseDate(s).Err? ==> r == Err(ParseDate(s).error)
  {
    var d :- ParseDate(s);
    Ok(DayNumber(d))
  }

  function DaysOf(dates: seq<string>): (r: seq<Result<int>>)
    ensures |r| == |dates| && forall i | 0 <= i < |dates| :: r[i] == DayOf(dates[i])
  {
    seq(|dates|, i requires 0 <= i < |dates| => DayOf(dates[i]))
  }

  /**
   * The current-streak loop from position `i` on, `streak` days counted so far:
   * it counts at most one more day per remaining position, and an error is the
   * error of one of the days it read.
   */
  function CurrentLoop(days: seq<Result<int>>, i: nat, streak: int): (r: Result<int>)
    requires 1 <= i
    ensures r.Ok? ==> streak <= r.value <= streak + (if i < |days| then |days| - i else 0)
    ensures r.Err? ==> exists j | i - 1 <= j < |days| :: days[j] == Err(r.error)
    decreases |days| - i
  {
    if i >= |days| then Ok(streak)
    else
      var prev :- days[i - 1];
      var curr :- days[i];
      if prev - curr == 1 then CurrentLoop(days, i + 1, streak + 1) else Ok(streak)
  }

  /**
   * `calculate_current_streak` over the active dates, newest first, on the day
   * `today`: at most one day per date, and an error only once the newest date is
   * today or yesterday, as the parse error of one of the dates.
   */
  function CurrentStreak(dates: seq<string>, today: Date): (r: Result<int>)
    requires ValidDate(today)
    ensures r.Ok? ==> 0 <= r.value <= |dates|
    ensures r.Err? ==> dates != [] && (dates[0] == ChronoFormat(today) || dates[0] == ChronoFormat(AddDays(today, -1)))
    ensures r.Err? ==> exists j | 0 <= j < |dates| :: ParseDate(dates[j]) == Err(r.error)
  {
    var r := StreakFrom(dates, ChronoFormat(today), ChronoFormat(AddDays(today, -1)));
    if r.Err? then
      var j :| 0 <= j < |dates| && DayOf(dates[j]) == Err(r.error);
      assert ParseDate(dates[j]) == Err(r.error);
      r
    else r
  }

  /** The current streak given the renderings of today and yesterday. */
  function StreakFrom(dates: seq<string>, todayText: string, yesterdayText: string): (r: Result<int>)
    ensures r.Ok? ==> 0 <= r.value <= |dates|
    ensures r.Err? ==> dates != [] && (dates[0] == todayText || dates[0] == yesterdayText)
    ensures r.Err? ==> exists j | 0 <= j < |dates| :: DayOf(dates[j]) == Err(r.error)
  {
    if dates == [] then Ok(0)
    else if dates[0] != todayText && dates[0] != yesterdayText then Ok(0)
    else CurrentLoop(DaysOf(dates), 1, 1)
  }

  /**
   * The longest-streak loop from position `i` on: the longest run never
   * shrinks and grows by at most one day per remaining position, and an error is
   * the error of one of the days it read.
   */
  function LongestLoop(days: seq<Result<int>>, i: nat, longest: int, current: int): (r: Result<int>)
    requires 1 <= i
    ensures r.Ok? ==> longest <= r.value
    ensures r.Ok? && 1 <= current <= longest ==> r.value <= longest + (if i < |days| then |days| - i else 0)
    ensures r.Err? ==> exists j | i - 1 <= j < |days| :: days[j] == Err(r.error)
    decreases |days| - i
  {
    if i >= |days| then Ok(longest)
    else
      var prev :- days[i - 1];
      var curr :- days[i];
      if curr - prev == 1 then
        var extended := current + 1;
        LongestLoop(days, i + 1, if extended > longest then extended else longest, extended)
      else LongestLoop(days, i + 1, longest, 1)
  }

  /**
   * `calculate_longest_streak` over the active dates, oldest first: 0 for no
   * dates, otherwise between 1 and the number of dates, and an error is the
   * parse error of one of the dates.
   */
  function LongestStreak(dates: seq<string>): (r: Result<int>)
    ensures dates == [] ==> r == Ok(0)
    ensures r.Ok? && dates != [] ==> 1 <= r.value <= |dates|
    ensures r.Err? ==> exists j | 0 <= j < |dates| :: ParseDate(dates[j]) == Err(r.error)
  {
    if dates == [] then Ok(0)
    else
      var r := LongestLoop(DaysOf(dates), 1, 1, 1);
      if r.Err? then
        var j :| 0 <= j < |dates| && DaysOf(dates)[j] == Err(r.error);
        assert DayOf(dates[j]) == Err(r.error);
        r
      else r
  }

  /** The current-streak calculator, loop for loop. */
  method CalculateCurrentStreak(dates: seq<string>, today: Date) returns (r: Result<int>)
    requires ValidDate(today)
    ensures r == CurrentStreak(dates, today)
  {
    if |dates| == 0 {
      return Ok(0);
    }
    var todayText := ChronoFormat(today);
    var yesterdayText := ChronoFormat(AddDays(today, -1));
    if dates[0] != todayText && dates[0] != yesterdayText {
      return Ok(0);
    }
    r := CurrentRun(dates);
  }

  /** The current-streak loop over dates whose newest is today or yesterday. */
  method CurrentRun(dates: seq<string>) returns (r: Result<int>)
    requires |dates| >= 1
    ensures r == CurrentLoop(DaysOf(dates), 1, 1)
  {
    ghost var days := DaysOf(dates);
    var streak := 1;
    for i := 1 to |dates|
      invariant CurrentLoop(days, i, streak) == CurrentLoop(days, 1, 1)
    {
      var prev := DayOf(dates[i - 1]);
      if prev.Err? {
        return Err(prev.error);
      }
      var curr := DayOf(dates[i]);
      if curr.Err? {
        return Err(curr.error);
      }
      if prev.value - curr.value == 1 {
        streak := streak + 1;
      } else {
        // `break`, after which the loop's result is returned
        return Ok(streak);
      }
    }
    r := Ok(streak);
  }

  /** The longest-streak calculator, loop for loop. */
  method CalculateLongestStreak(dates: seq<string>) returns (r: Result<int>)
    ensures r == LongestStreak(dates)
  {
    if |dates| == 0 {
      return Ok(0);
    }
    ghost var days := DaysOf(dates);
    assert LongestStreak(dates) == LongestLoop(days, 1, 1, 1);
    var longest := 1;
    var current := 1;
    for i := 1 to |dates|
      invariant LongestLoop(days, i, longest, current) == LongestLoop(days, 1, 1, 1)
    {
      var prev := DayOf(dates[i - 1]);
      assert days[i - 1] == prev;
      if prev.Err? {
        assert LongestLoop(days, i, longest, current) == Err(prev.error);
        return Err(prev.error);
      }
      var curr := DayOf(dates[i]);
      assert days[i] == curr;
      if curr.Err? {
        assert LongestLoop(days, i, longest, current) == Err(curr.error);
        return Err(curr.error);
      }
      if curr.value - prev.value == 1 {
        assert LongestLoop(days, i, longest, current)
          == LongestLoop(days, i + 1, if current + 1 > longest then current + 1 else longest, current + 1);
        current := current + 1;
        if current > longest {
          longest := current;
        }
      } else {
        assert LongestLoop(days, i, longest, current) == LongestLoop(days, i + 1, longest, 1);
        current := 1;
      }
    }
    r := Ok(longest);
  }

  // ---------------------------------------------------------------------------
  // What the loops compute, over the day numbers of the dates
  // ---------------------------------------------------------------------------

  predicate AllParse(dates: seq<string>)
  {
    forall i | 0 <= i < |dates| :: ParseDate(dates[i]).Ok?
  }

  predicate AllDays(days: seq<Result<int>>)
  {
    forall i | 0 <= i < |days| :: days[i].Ok?
  }

  lemma AllParseDays(dates: seq<string>)
    requires AllParse(dates)
    ensures AllDays(DaysOf(dates))
  {
    var days := DaysOf(dates);
    forall i | 0 <= i < |days| ensures days[i].Ok? {
      assert days[i] == DayOf(dates[i]);
    }
  }

  /** The day numbers, once every date has parsed. */
  function Numbers(days: seq<Result<int>>): (ns: seq<int>)
    requires AllDays(days)
    ensures |ns| == |days| && forall i | 0 <= i < |days| :: days[i] == Ok(ns[i])
  {
    seq(|days|, i requires 0 <= i < |days| && AllDays(days) => days[i].value)
  }

  /** The day number of every date. */
  function DayNumbers(dates: seq<string>): (ns: seq<int>)
    requires AllParse(dates)
    ensures |ns| == |dates|
  {
    AllParseDays(dates);
    Numbers(DaysOf(dates))
  }

  lemma DayNumbersAt(dates: seq<string>, i: nat)
    requires AllParse(dates) && i < |dates|
    ensures DayNumbers(dates)[i] == DayNumber(ParseDate(dates[i]).value)
  {
    AllParseDays(dates);
    assert DaysOf(dates)[i] == DayOf(dates[i]);
  }

  /** Parsing the dates newest first gives the results oldest first, reversed. */
  lemma DaysOfReverse(dates: seq<string>)
    ensures DaysOf(Reverse(dates)) == Reverse(DaysOf(dates))
  {
    var n := |dates|;
    var rd := Reverse(dates);
    var a := DaysOf(rd);
    var b := Reverse(DaysOf(dates));
    assert |a| == n && |b| == n;
    forall i | 0 <= i < n ensures a[i] == b[i] {
      assert rd[i] == dates[n - 1 - i];
    }
  }

  /** The first `len` days, newest first, are consecutive. */
  predicate DescendingRun(ns: seq<int>, len: int)
  {
    1 <= len <= |ns| && forall k | 0 < k < len :: ns[k - 1] == ns[k] + 1
  }

  /** The `len` days ending at position `end`, oldest first, are consecutive. */
  predicate AscendingRun(ns: seq<int>, end: nat, len: int)
  {
    end < |ns| && 1 <= len <= end + 1 && forall k | end - len + 1 < k <= end :: ns[k] == ns[k - 1] + 1
  }

  /** The length of the longest run of consecutive days ending at `end`. */
  function RunEndingAt(ns: seq<int>, end: nat): (n: nat)
    requires end < |ns|
    ensures AscendingRun(ns, end, n)
    decreases end
  {
    if end == 0 then 1
    else if ns[end] == ns[end - 1] + 1 then RunEndingAt(ns, end - 1) + 1
    else 1
  }

  lemma {:induction false} RunEndingAtIsLongest(ns: seq<int>, end: nat, len: int)
    requires AscendingRun(ns, end, len)
    ensures len <= RunEndingAt(ns, end)
    decreases end
  {
    if len > 1 {
      assert ns[end] == ns[end - 1] + 1;
      RunEndingAtIsLongest(ns, end - 1, len - 1);
    }
  }

  /** The longest run ending before position `n`. */
  function MaxRun(ns: seq<int>, n: nat): (m: nat)
    requires 1 <= n <= |ns|
    ensures 1 <= m <= n
    decreases n
  {
    var here := RunEndingAt(ns, n - 1);
    if n == 1 then here
    else
      var before := MaxRun(ns, n - 1);
      if here > before then here else before
  }

  lemma {:induction false} MaxRunMonotone(ns: seq<int>, a: nat, b: nat)
    requires 1 <= a <= b <= |ns|
    ensures RunEndingAt(ns, a - 1) <= MaxRun(ns, b)
    decreases b
  {
    if a < b { MaxRunMonotone(ns, a, b - 1); }
  }

  lemma {:induction false} MaxRunIsMaximum(ns: seq<int>, n: nat)
    requires 1 <= n <= |ns|
    ensures exists end: nat | end < n :: AscendingRun(ns, end, MaxRun(ns, n))
    ensures forall end: nat, len | end < n && AscendingRun(ns, end, len) :: len <= MaxRun(ns, n)
    decreases n
  {
    if n > 1 {
      MaxRunIsMaximum(ns, n - 1);
    }
    forall end: nat, len | end < n && AscendingRun(ns, end, len) ensures len <= MaxRun(ns, n) {
      RunEndingAtIsLongest(ns, end, len);
      MaxRunMonotone(ns, end + 1, n);
    }
    if n == 1 || RunEndingAt(ns, n - 1) > MaxRun(ns, n - 1) {
      assert AscendingRun(ns, n - 1, MaxRun(ns, n));
    }
  }

  lemma {:induction false} CurrentLoopStops(days: seq<Result<int>>, i: nat)
    requires AllDays(days) && 1 <= i <= |days| && DescendingRun(Numbers(days), i)
    ensures CurrentLoop(days, i, i).Ok?
    ensures var c := CurrentLoop(days, i, i).value; var ns := Numbers(days);
      i <= c && DescendingRun(ns, c) && (c == |ns| || ns[c - 1] != ns[c] + 1)
    decreases |days| - i
  {
    var ns := Numbers(days);
    if i < |days| && ns[i - 1] == ns[i] + 1 {
      assert DescendingRun(ns, i + 1);
      CurrentLoopStops(days, i + 1);
    }
  }

  /**
   * When every date parses: no dates, or a newest date that is neither today nor
   * yesterday, give 0; otherwise the streak is the length of the run of
   * consecutive days at the newest end, stopping at the first gap.
   */
  lemma CurrentStreakValue(dates: seq<string>, today: Date)
    requires ValidDate(today) && AllParse(dates)
    ensures CurrentStreak(dates, today).Ok?
    ensures var c := CurrentStreak(dates, today).value; var ns := DayNumbers(dates);
      if dates == [] || (dates[0] != ChronoFormat(today) && dates[0] != ChronoFormat(AddDays(today, -1))) then c == 0
      else DescendingRun(ns, c) && (c == |ns| || ns[c - 1] != ns[c] + 1)
  {
    var t, y := ChronoFormat(today), ChronoFormat(AddDays(today, -1));
    assert CurrentStreak(dates, today) == StreakFrom(dates, t, y);
    if dates != [] && (dates[0] == t || dates[0] == y) {
      CurrentRunValue(dates);
    }
  }

  /** Over dates that all parse, the loop from the newest date counts the run of consecutive days there. */
  lemma CurrentRunValue(dates: seq<string>)
    requires AllParse(dates) && dates != []
    ensures CurrentLoop(DaysOf(dates), 1, 1).Ok?
    ensures var c := CurrentLoop(DaysOf(dates), 1, 1).value; var ns := DayNumbers(dates);
      DescendingRun(ns, c) && (c == |ns| || ns[c - 1] != ns[c] + 1)
  {
    AllParseDays(dates);
    assert DayNumbers(dates) == Numbers(DaysOf(dates));
    CurrentLoopStops(DaysOf(dates), 1);
  }

  lemma {:induction false} LongestLoopValue(days: seq<Result<int>>, i: nat)
    requires AllDays(days) && 1 <= i <= |days|
    ensures var ns := Numbers(days);
      LongestLoop(days, i, MaxRun(ns, i), RunEndingAt(ns, i - 1)) == Ok(MaxRun(ns, |ns|))
    decreases |days| - i
  {
    if i < |days| {
      var ns := Numbers(days);
      assert days[i - 1] == Ok(ns[i - 1]) && days[i] == Ok(ns[i]);
      var here, before := RunEndingAt(ns, i), MaxRun(ns, i);
      assert MaxRun(ns, i + 1) == if here > before then here else before;
      if ns[i] - ns[i - 1] == 1 {
        assert here == RunEndingAt(ns, i - 1) + 1;
        assert LongestLoop(days, i, before, RunEndingAt(ns, i - 1))
          == LongestLoop(days, i + 1, if here > before then here else before, here);
      } else {
        assert here == 1;
        assert LongestLoop(days, i, before, RunEndingAt(ns, i - 1))
          == LongestLoop(days, i + 1, before, 1);
      }
      LongestLoopValue(days, i + 1);
    }
  }

  /** Over parsed days: 1 <= longest <= n, a run of that length occurs and none is longer. */
  lemma LongestDaysValue(days: seq<Result<int>>)
    requires AllDays(days) && days != []
    ensures LongestLoop(days, 1, 1, 1).Ok?
    ensures var l := LongestLoop(days, 1, 1, 1).value; var ns := Numbers(days);
      1 <= l <= |days| &&
      (exists end: nat | end < |ns| :: AscendingRun(ns, end, l)) &&
      (forall end: nat, len | AscendingRun(ns, end, len) :: len <= l)
  {
    var ns := Numbers(days);
    LongestLoopValue(days, 1);
    MaxRunIsMaximum(ns, |ns|);
  }

  /**
   * When every date parses, the longest streak is 0 for no dates and otherwise a
   * run of consecutive days that occurs, no run being longer; so it lies between
   * 1 and the number of dates.
   */
  lemma LongestStreakValue(dates: seq<string>)
    requires AllParse(dates)
    ensures LongestStreak(dates).Ok?
    ensures var l := LongestStreak(dates).value; var ns := DayNumbers(dates);
      (dates == [] ==> l == 0) &&
      (dates != [] ==>
        1 <= l <= |dates| &&
        (exists end: nat | end < |ns| :: AscendingRun(ns, end, l)) &&
        (forall end: nat, len | AscendingRun(ns, end, len) :: len <= l))
  {
    if dates != [] {
      AllParseDays(dates);
      assert DayNumbers(dates) == Numbers(DaysOf(dates));
      LongestDaysValue(DaysOf(dates));
    }
  }

  /** Over parsed days, the newest-first streak from the start is at most the longest oldest-first run. */
  lemma CurrentDaysAtMostLongest(days: seq<Result<int>>)
    requires AllDays(days) && days != []
    ensures AllDays(Reverse(days))
    ensures CurrentLoop(Reverse(days), 1, 1).Ok? && LongestLoop(days, 1, 1, 1).Ok?
    ensures CurrentLoop(Reverse(days), 1, 1).value <= LongestLoop(days, 1, 1, 1).value
  {
    var n := |days|;
    var rev := Reverse(days);
    assert AllDays(rev) by {
      forall i | 0 <= i < n ensures rev[i].Ok? {
        assert rev[i] == days[n - 1 - i];
      }
    }
    var up := Numbers(days);
    var down := Numbers(rev);
    forall i | 0 <= i < n ensures down[i] == up[n - 1 - i] {
      assert rev[i] == days[n - 1 - i];
    }
    assert DescendingRun(down, 1);
    CurrentLoopStops(rev, 1);
    LongestDaysValue(days);
    ReversedRun(up, down, CurrentLoop(rev, 1, 1).value);
  }

  /** A run at the start of the reversed numbers is a run ending at the last of the numbers. */
  lemma ReversedRun(up: seq<int>, down: seq<int>, c: int)
    requires |up| == |down| && forall i | 0 <= i < |down| :: down[i] == up[|up| - 1 - i]
    requires DescendingRun(down, c)
    ensures AscendingRun(up, |up| - 1, c)
  {
    var n := |up|;
    forall k | n - c < k <= n - 1 ensures up[k] == up[k - 1] + 1 {
      var m := n - k;
      assert down[m - 1] == up[k] && down[m] == up[k - 1];
    }
  }

  /**
   * Over the same dates, newest first for the one and oldest first for the other,
   * the current streak never exceeds the longest streak.
   */
  lemma CurrentAtMostLongest(asc: seq<string>, today: Date)
    requires ValidDate(today) && AllParse(asc)
    ensures CurrentStreak(Reverse(asc), today).Ok? && LongestStreak(asc).Ok?
    ensures CurrentStreak(Reverse(asc), today).value <= LongestStreak(asc).value
  {
    var t, y := ChronoFormat(today), ChronoFormat(AddDays(today, -1));
    var desc := Reverse(asc);
    assert CurrentStreak(desc, today) == StreakFrom(desc, t, y);
    if asc != [] {
      AllParseDays(asc);
      var days := DaysOf(asc);
      DaysOfReverse(asc);
      CurrentDaysAtMostLongest(days);
      LongestDaysValue(days);
      assert LongestStreak(asc) == LongestLoop(days, 1, 1, 1);
      if desc[0] == t || desc[0] == y {
        assert StreakFrom(desc, t, y) == CurrentLoop(Reverse(days), 1, 1);
      } else {
        assert StreakFrom(desc, t, y) == Ok(0);
      }
    }
  }
}
