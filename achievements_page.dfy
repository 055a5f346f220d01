/**
 * The achievements page: a fixed table of seven goals computed from the
 * user's figures, each with its progress, its target and whether it is
 * unlocked, and the number of unlocked goals shown in the header. Figures the
 * page is not given take the component's default values.
 */
module AchievementsPage {
  import opened Wrappers

  /** The figures the page is given (`currentStreak`, `longestStreak`, ...); focus time is in minutes. */
  datatype Figures = Figures(currentStreak: int, longestStreak: int, totalFocusTime: int,
                             totalSessions: int, tasksCompleted: int)

  /** The props as passed: any of them may be missing. */
  datatype Props = Props(currentStreak: Option<int>, longestStreak: Option<int>, totalFocusTime: Option<int>,
                         totalSessions: Option<int>, tasksCompleted: Option<int>)

  datatype Goal = Goal(id: string, title: string, description: string, progress: int, target: int, unlocked: bool)

  function OrDefault(x: Option<int>, default: int): (r: int)
    ensures x.Some? ==> r == x.value
    ensures x.None? ==> r == default
  {
    if x.Some? then x.value else default
  }

  /** The destructuring defaults: 7, 23, 1250, 48 and 156. */
  function FiguresOf(p: Props): (f: Figures)
    ensures p.currentStreak.None? ==> f.currentStreak == 7
    ensures p.longestStreak.None? ==> f.longestStreak == 23
    ensures p.totalFocusTime.None? ==> f.totalFocusTime == 1250
    ensures p.totalSessions.None? ==> f.totalSessions == 48
    ensures p.tasksCompleted.None? ==> f.tasksCompleted == 156
    ensures p.currentStreak.Some? ==> f.currentStreak == p.currentStreak.value
    ensures p.longestStreak.Some? ==> f.longestStreak == p.longestStreak.value
    ensures p.totalFocusTime.Some? ==> f.totalFocusTime == p.totalFocusTime.value
    ensures p.totalSessions.Some? ==> f.totalSessions == p.totalSessions.value
    ensures p.tasksCompleted.Some? ==> f.tasksCompleted == p.tasksCompleted.value
  {
    Figures(OrDefault(p.currentStreak, 7), OrDefault(p.longestStreak, 23), OrDefault(p.totalFocusTime, 1250),
            OrDefault(p.totalSessions, 48), OrDefault(p.tasksCompleted, 156))
  }

  /** The seven goals in display order; `Math.floor(totalFocusTime / 60)` is the hours of focus. */
  function Goals(f: Figures): seq<Goal>
  {
    var hours := f.totalFocusTime / 60;
    [ Goal("first-focus", "First Flow", "Complete your first focus session", 1, 1, true),
      Goal("week-streak", "Week Warrior", "Maintain a 7-day streak", f.currentStreak, 7, f.currentStreak >= 7),
      Goal("month-streak", "Monthly Master", "Maintain a 30-day streak", f.longestStreak, 30, f.longestStreak >= 30),
      Goal("10-hours", "Time Keeper", "Accumulate 10 hours of focus time", hours, 10, f.totalFocusTime >= 600),
      Goal("100-hours", "Century Club", "Accumulate 100 hours of focus time", hours, 100, f.totalFocusTime >= 6000),
      Goal("50-sessions", "Session Sage", "Complete 50 focus sessions", f.totalSessions, 50, f.totalSessions >= 50),
      Goal("100-tasks", "Task Terminator", "Complete 100 tasks", f.tasksCompleted, 100, f.tasksCompleted >= 100) ]
  }

  /** `achievements.filter(a => a.unlocked).length`. */
  function UnlockedCount(goals: seq<Goal>): (n: nat)
    ensures n <= |goals|
    ensures n == 0 <==> forall i | 0 <= i < |goals| :: !goals[i].unlocked
    decreases |goals|
  {
    if goals == [] then 0 else (if goals[0].unlocked then 1 else 0) + UnlockedCount(goals[1..])
  }

  /** The number of goals whose condition holds, counted from the figures alone. */
  function ConditionsMet(f: Figures): (n: nat)
    ensures 1 <= n <= 7
  {
    1 + (if f.currentStreak >= 7 then 1 else 0) + (if f.longestStreak >= 30 then 1 else 0)
      + (if f.totalFocusTime >= 600 then 1 else 0) + (if f.totalFocusTime >= 6000 then 1 else 0)
      + (if f.totalSessions >= 50 then 1 else 0) + (if f.tasksCompleted >= 100 then 1 else 0)
  }

  // ---------------------------------------------------------------------------
  // Properties of the table
  // ---------------------------------------------------------------------------

  /** Always seven goals with distinct ids, and the first one is unlocked whatever the figures. */
  lemma GoalsShape(f: Figures)
    ensures var gs := Goals(f);
      |gs| == 7 && gs[0].id == "first-focus" && gs[0].unlocked && gs[0].progress == gs[0].target == 1 &&
      forall i, j | 0 <= i < j < 7 :: gs[i].id != gs[j].id
  {
  }

  /** Each goal is unlocked exactly when its figure reaches its threshold. */
  lemma UnlockRules(f: Figures)
    ensures var gs := Goals(f);
      (gs[1].unlocked <==> f.currentStreak >= 7) && (gs[2].unlocked <==> f.longestStreak >= 30) &&
      (gs[3].unlocked <==> f.totalFocusTime >= 600) && (gs[4].unlocked <==> f.totalFocusTime >= 6000) &&
      (gs[5].unlocked <==> f.totalSessions >= 50) && (gs[6].unlocked <==> f.tasksCompleted >= 100)
  {
  }

  /** Both hour goals show the whole hours of focus time as their progress. */
  lemma HourProgress(f: Figures)
    ensures var gs := Goals(f);
      gs[3].progress == gs[4].progress &&
      60 * gs[3].progress <= f.totalFocusTime < 60 * gs[3].progress + 60
  {
  }

  /** Reaching 100 hours has unlocked 10 hours. */
  lemma CenturyImpliesTimeKeeper(f: Figures)
    ensures Goals(f)[4].unlocked ==> Goals(f)[3].unlocked
  {
  }

  /** The header's count is the number of conditions met, so it runs from 1 to 7. */
  lemma UnlockedCountIsConditionsMet(f: Figures)
    ensures UnlockedCount(Goals(f)) == ConditionsMet(f)
    ensures 1 <= UnlockedCount(Goals(f)) <= 7
  {
    var gs := Goals(f);
    assert gs[7..] == [];
    assert UnlockedCount(gs[6..]) == if gs[6].unlocked then 1 else 0;
    assert UnlockedCount(gs[5..]) == (if gs[5].unlocked then 1 else 0) + UnlockedCount(gs[6..]);
    assert UnlockedCount(gs[4..]) == (if gs[4].unlocked then 1 else 0) + UnlockedCount(gs[5..]);
    assert UnlockedCount(gs[3..]) == (if gs[3].unlocked then 1 else 0) + UnlockedCount(gs[4..]);
    assert UnlockedCount(gs[2..]) == (if gs[2].unlocked then 1 else 0) + UnlockedCount(gs[3..]);
    assert UnlockedCount(gs[1..]) == (if gs[1].unlocked then 1 else 0) + UnlockedCount(gs[2..]);
  }

  /** All seven are unlocked exactly when every threshold is reached. */
  lemma AllUnlocked(f: Figures)
    ensures UnlockedCount(Goals(f)) == 7 <==>
      f.currentStreak >= 7 && f.longestStreak >= 30 && f.totalFocusTime >= 6000 &&
      f.totalSessions >= 50 && f.tasksCompleted >= 100
  {
    UnlockedCountIsConditionsMet(f);
  }
}
