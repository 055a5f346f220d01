/**
 * The achievement commands: listing the catalogue for a user, unlocking one
 * kind on request, and the automatic check, which gathers the user's
 * statistics, evaluates a fixed table of eight rules in order and unlocks each
 * kind whose rule holds and that the user has not unlocked yet. A failing
 * statistics query counts as 0; a failing "already unlocked?" probe ends the
 * check with its error (rows inserted before it stay); a failing insert is
 * skipped. Which statements fail is given by the fault parameters, indexed by
 * rule position; the UUIDs and clock readings of the inserts are parameters too.
 */
module AchievementCommands {
  import opened Wrappers
  import opened Collections
  import opened Dates
  import opened Streak
  import opened Db
  import opened Session
  import opened AchievementModel

  /** A command's result and the `achievements` table it leaves. */
  datatype Outcome<T> = Outcome(result: Result<T>, achievements: map<string, AchievementRow>)

  const AlreadyUnlocked: string := "Achievement already unlocked"

  /** `SELECT EXISTS(... WHERE user_id = ?1 AND achievement_type = ?2)`. */
  predicate Unlocked(table: map<string, AchievementRow>, u: string, t: AchievementType)
  {
    exists id | id in table :: table[id].userId == u && table[id].achievementType == AsStr(t)
  }

  // ---------------------------------------------------------------------------
  // get_achievements
  // ---------------------------------------------------------------------------

  function RowsOfType(table: map<string, AchievementRow>, u: string, t: AchievementType): (ids: set<string>)
    ensures forall id :: id in ids <==> id in table && table[id].userId == u && table[id].achievementType == AsStr(t)
  {
    set id | id in table && table[id].userId == u && table[id].achievementType == AsStr(t)
  }

  /**
   * The `unlocked_at` the listing shows for a kind: that of one of the user's
   * rows of that kind (the row with the least id), or none.
   */
  function UnlockedAt(table: map<string, AchievementRow>, u: string, t: AchievementType): (r: Option<string>)
    ensures r.Some? <==> Unlocked(table, u, t)
    ensures r.Some? ==> exists id | id in table ::
      table[id].userId == u && table[id].achievementType == AsStr(t) && table[id].unlockedAt == r.value
  {
    var ids := RowsOfType(table, u, t);
    if ids == {} then None
    else
      var id := Minimum(ids);
      Some(table[id].unlockedAt)
  }

  /**
   * `get_achievements`: the error of a failing `prepare` or `query_map`
   * (`fault`), or the ten kinds in catalogue order, each with its texts and
   * unlock state.
   */
  function GetAchievements(table: map<string, AchievementRow>, u: string, fault: Option<string>): (r: Result<seq<AchievementInfo>>)
    ensures fault.Some? ==> r == Err(fault.value)
    ensures r.Ok? <==> fault.None?
    ensures r.Ok? ==> |r.value| == |AllTypes| == 10
    ensures r.Ok? ==> forall i | 0 <= i < |r.value| ::
      r.value[i].achievementType == AllTypes[i] &&
      r.value[i].name == DisplayName(AllTypes[i]) && r.value[i].description == Description(AllTypes[i]) &&
      (r.value[i].unlocked <==> Unlocked(table, u, AllTypes[i])) &&
      (r.value[i].unlocked <==> r.value[i].unlockedAt.Some?)
    ensures r.Ok? ==> forall i | 0 <= i < |r.value| && r.value[i].unlocked :: exists id | id in table ::
      table[id].userId == u && table[id].achievementType == AsStr(AllTypes[i]) &&
      table[id].unlockedAt == r.value[i].unlockedAt.value
  {
    if fault.Some? then Err(fault.value)
    else
      Ok(seq(|AllTypes|, i requires 0 <= i < |AllTypes| =>
        var t := AllTypes[i];
        var at := UnlockedAt(table, u, t);
        AchievementInfo(t, DisplayName(t), Description(t), at.Some?, at)))
  }

  // ---------------------------------------------------------------------------
  // Probing and inserting
  // ---------------------------------------------------------------------------

  /** `is_achievement_unlocked`: the probe's error, or whether a row of the kind exists. */
  function IsAchievementUnlocked(table: map<string, AchievementRow>, u: string, t: AchievementType, fault: Option<string>)
    : (r: Result<bool>)
    ensures fault.Some? ==> r == Err(fault.value)
    ensures fault.None? ==> r == Ok(Unlocked(table, u, t))
  {
    if fault.Some? then Err(fault.value) else Ok(Unlocked(table, u, t))
  }

  /** `unlock_achievement_internal`: insert one row of the kind with no metadata. */
  function InsertAchievement(
    table: map<string, AchievementRow>, u: string, t: AchievementType, id: string, now: string, fault: Option<string>)
    : (o: Outcome<Achievement>)
    ensures id in table ==> o == Outcome(Err(UniqueViolation("achievements", "id")), table)
    ensures id !in table && fault.Some? ==> o == Outcome(Err(fault.value), table)
    ensures id !in table && fault.None? ==>
      o.result == Ok(Achievement(id, u, t, now, None)) &&
      o.achievements == table[id := AchievementRow(u, AsStr(t), now, None)] &&
      Unlocked(o.achievements, u, t)
  {
    if id in table then Outcome(Err(UniqueViolation("achievements", "id")), table)
    else if fault.Some? then Outcome(Err(fault.value), table)
    else
      var table' := table[id := AchievementRow(u, AsStr(t), now, None)];
      assert table'[id].userId == u && table'[id].achievementType == AsStr(t);
      Outcome(Ok(Achievement(id, u, t, now, None)), table')
  }

  /** `unlock_achievement`: probe, refuse a kind already unlocked, otherwise insert. */
  function UnlockAchievement(
    table: map<string, AchievementRow>, u: string, t: AchievementType, id: string, now: string,
    probeFault: Option<string>, insertFault: Option<string>): Outcome<Achievement>
  {
    match IsAchievementUnlocked(table, u, t, probeFault)
    case Err(e) => Outcome(Err(e), table)
    case Ok(exists_) =>
      if exists_ then Outcome(Err(AlreadyUnlocked), table)
      else InsertAchievement(table, u, t, id, now, insertFault)
  }

  /** Unlocking refuses an unlocked kind and writes nothing; otherwise it adds at most one row. */
  lemma UnlockOutcome(
    table: map<string, AchievementRow>, u: string, t: AchievementType, id: string, now: string,
    probeFault: Option<string>, insertFault: Option<string>)
    ensures var o := UnlockAchievement(table, u, t, id, now, probeFault, insertFault);
      (probeFault.Some? ==> o == Outcome(Err(probeFault.value), table)) &&
      (probeFault.None? && Unlocked(table, u, t) ==> o == Outcome(Err(AlreadyUnlocked), table)) &&
      (o.result.Ok? ==>
        !Unlocked(table, u, t) && Unlocked(o.achievements, u, t) &&
        o.result.value == Achievement(id, u, t, now, None) && o.result.value.metadata.None? &&
        o.achievements == table[id := AchievementRow(u, AsStr(t), now, None)]) &&
      (o.result.Err? ==> o.achievements == table)
  {
  }

  /** Once a kind is unlocked, unlocking it again is refused and writes nothing. */
  lemma UnlockOnce(
    table: map<string, AchievementRow>, u: string, t: AchievementType,
    id1: string, now1: string, id2: string, now2: string, insertFault: Option<string>, secondFault: Option<string>)
    requires UnlockAchievement(table, u, t, id1, now1, None, insertFault).result.Ok?
    ensures var first := UnlockAchievement(table, u, t, id1, now1, None, insertFault).achievements;
      UnlockAchievement(first, u, t, id2, now2, None, secondFault) == Outcome(Err(AlreadyUnlocked), first)
  {
  }

  /** The command itself, statement by statement. */
  method UnlockAchievementCommand(
    db: Database, u: string, t: AchievementType, id: string, now: string,
    probeFault: Option<string>, insertFault: Option<string>)
    returns (r: Result<Achievement>)
    modifies db`achievements
    ensures Outcome(r, db.achievements) == UnlockAchievement(old(db.achievements), u, t, id, now, probeFault, insertFault)
  {
    var probe := IsAchievementUnlocked(db.achievements, u, t, probeFault);
    if probe.Err? {
      return Err(probe.error);
    }
    if probe.value {
      return Err(AlreadyUnlocked);
    }
    r := UnlockAchievementInternal(db, u, t, id, now, insertFault);
  }

  /** `unlock_achievement_internal` as a statement on the store. */
  method UnlockAchievementInternal(db: Database, u: string, t: AchievementType, id: string, now: string, fault: Option<string>)
    returns (r: Result<Achievement>)
    modifies db`achievements
    ensures Outcome(r, db.achievements) == InsertAchievement(old(db.achievements), u, t, id, now, fault)
  {
    if id in db.achievements {
      return Err(UniqueViolation("achievements", "id"));
    }
    if fault.Some? {
      return Err(fault.value);
    }
    db.achievements := db.achievements[id := AchievementRow(u, AsStr(t), now, None)];
    r := Ok(Achievement(id, u, t, now, None));
  }

  // ---------------------------------------------------------------------------
  // The automatic check
  // ---------------------------------------------------------------------------

  /** The statistics the rules read. */
  datatype CheckStats = CheckStats(
    totalFocusTime: int, totalSessions: int, tasksCompleted: int, currentStreak: int, maxSessionDuration: int)

  /** Which of the four statistics queries fail (each failure reads as 0). */
  datatype StatFaults = StatFaults(totals: bool, tasks: bool, streak: bool, maxDuration: bool)

  /** The kinds the rules unlock, in rule order. */
  const RuleTypes: seq<AchievementType> :=
    [FirstSession, HourMaster, StreakWeek, StreakMonth, TotalHours10, TotalHours50, TotalHours100, TaskMaster]

  /** The statistics as the check reads them, a failing query or streak reading as 0. */
  function GatherStats(
    sessions: map<string, SessionRow>, tasks: map<string, TaskRow>, stats: map<(string, string), StatRow>,
    u: string, today: Date, f: StatFaults): (s: CheckStats)
    requires ValidDate(today)
    ensures s.totalFocusTime == (if f.totals then 0 else MapSum(UserDurations(sessions, u)))
    ensures s.totalSessions == (if f.totals then 0 else |UserDurations(sessions, u)|)
    ensures s.tasksCompleted == (if f.tasks then 0 else |CompletedTasks(tasks, u)|)
    ensures var c := CurrentStreak(Reverse(ActiveAscending(stats, u)), today);
      s.currentStreak == (if f.streak || c.Err? then 0 else c.value)
    ensures var d := UserDurations(sessions, u);
      f.maxDuration || d == map[] ==> s.maxSessionDuration == 0
    ensures var d := UserDurations(sessions, u);
      !f.maxDuration && d != map[] ==>
        (exists id | id in d :: d[id] == s.maxSessionDuration) && forall id | id in d :: d[id] <= s.maxSessionDuration
  {
    var durations := UserDurations(sessions, u);
    var streak := CurrentStreak(Reverse(ActiveAscending(stats, u)), today);
    CheckStats(
      if f.totals then 0 else SumValues(durations),
      if f.totals then 0 else |durations|,
      if f.tasks then 0 else |CompletedTasks(tasks, u)|,
      if f.streak || streak.Err? then 0 else streak.value,
      if f.maxDuration then 0 else MaxValue(durations))
  }

  const SecondsPerHour := 3600

  /** The rule table: each kind with whether its condition holds. */
  function Checks(s: CheckStats): (r: seq<(AchievementType, bool)>)
    ensures |r| == |RuleTypes| && forall i | 0 <= i < |r| :: r[i].0 == RuleTypes[i]
    ensures r[0].1 <==> s.totalSessions >= 1
    ensures r[1].1 <==> s.maxSessionDuration >= 1 * SecondsPerHour
    ensures r[2].1 <==> s.currentStreak >= 7
    ensures r[3].1 <==> s.currentStreak >= 30
    ensures r[4].1 <==> s.totalFocusTime >= 10 * SecondsPerHour
    ensures r[5].1 <==> s.totalFocusTime >= 50 * SecondsPerHour
    ensures r[6].1 <==> s.totalFocusTime >= 100 * SecondsPerHour
    ensures r[7].1 <==> s.tasksCompleted >= 50
  {
    [(FirstSession, s.totalSessions >= 1),
     (HourMaster, s.maxSessionDuration >= 3600),
     (StreakWeek, s.currentStreak >= 7),
     (StreakMonth, s.currentStreak >= 30),
     (TotalHours10, s.totalFocusTime >= 36000),
     (TotalHours50, s.totalFocusTime >= 180000),
     (TotalHours100, s.totalFocusTime >= 360000),
     (TaskMaster, s.tasksCompleted >= 50)]
  }

  /** The rule kinds are distinct, and the morning and night kinds have no rule. */
  lemma RuleTypesDistinct()
    ensures forall i, j | 0 <= i < j < |RuleTypes| :: RuleTypes[i] != RuleTypes[j]
    ensures EarlyBird !in RuleTypes && NightOwl !in RuleTypes
  {
  }

  /** The rules are nested: a longer streak or more hours implies the shorter or fewer. */
  lemma ChecksNested(s: CheckStats)
    ensures Checks(s)[3].1 ==> Checks(s)[2].1
    ensures Checks(s)[6].1 ==> Checks(s)[5].1
    ensures Checks(s)[5].1 ==> Checks(s)[4].1
  {
  }

  /** Every kind occurs at most once among the checks. */
  predicate DistinctTypes(checks: seq<(AchievementType, bool)>)
  {
    forall i, j | 0 <= i < j < |checks| :: checks[i].0 != checks[j].0
  }

  /** The ids used by the inserts at positions `i` on are absent from `table` and pairwise distinct. */
  predicate FreshIds(ids: seq<string>, table: map<string, AchievementRow>, i: nat)
  {
    (forall j | i <= j < |ids| :: ids[j] !in table) &&
    (forall j, k | i <= j < k < |ids| :: ids[j] != ids[k])
  }

  /**
   * The loop over the checks from position `i`: a kind whose condition holds is
   * probed, and if not unlocked it is inserted; a successful insert is listed.
   * The outcome's list holds what positions `i` on add.
   */
  function CheckLoop(
    table: map<string, AchievementRow>, u: string, checks: seq<(AchievementType, bool)>,
    ids: seq<string>, nows: seq<string>, probeFaults: map<nat, string>, insertFaults: map<nat, string>, i: nat)
    : Outcome<seq<Achievement>>
    requires |ids| == |checks| && |nows| == |checks| && i <= |checks|
    decreases |checks| - i
  {
    if i == |checks| then Outcome(Ok([]), table)
    else
      var (t, condition) := checks[i];
      if !condition then CheckLoop(table, u, checks, ids, nows, probeFaults, insertFaults, i + 1)
      else
        match IsAchievementUnlocked(table, u, t, FaultAt(probeFaults, i))
        case Err(e) => Outcome(Err(e), table)
        case Ok(unlocked) =>
          if unlocked then CheckLoop(table, u, checks, ids, nows, probeFaults, insertFaults, i + 1)
          else
            var w := InsertAchievement(table, u, t, ids[i], nows[i], FaultAt(insertFaults, i));
            var rest := CheckLoop(w.achievements, u, checks, ids, nows, probeFaults, insertFaults, i + 1);
            if w.result.Ok? then Prepend([w.result.value], rest) else rest
  }

  /** The outcome with `acc` in front of its list, when it has one. */
  function Prepend(acc: seq<Achievement>, o: Outcome<seq<Achievement>>): (r: Outcome<seq<Achievement>>)
    ensures r.achievements == o.achievements
    ensures o.result.Err? ==> r == o
    ensures o.result.Ok? ==> r.result == Ok(acc + o.result.value)
  {
    if o.result.Ok? then Outcome(Ok(acc + o.result.value), o.achievements) else o
  }

  /** `check_and_unlock_achievements` on the store, for the user `u` on the day `today`. */
  function CheckAndUnlock(
    table: map<string, AchievementRow>, sessions: map<string, SessionRow>, tasks: map<string, TaskRow>,
    stats: map<(string, string), StatRow>, u: string, today: Date, f: StatFaults,
    ids: seq<string>, nows: seq<string>, probeFaults: map<nat, string>, insertFaults: map<nat, string>)
    : Outcome<seq<Achievement>>
    requires ValidDate(today) && |ids| == |RuleTypes| && |nows| == |RuleTypes|
  {
    CheckLoop(table, u, Checks(GatherStats(sessions, tasks, stats, u, today, f)), ids, nows, probeFaults, insertFaults, 0)
  }

  lemma PrependNothing(o: Outcome<seq<Achievement>>)
    ensures Prepend([], o) == o
  {
    if o.result.Ok? {
      assert [] + o.result.value == o.result.value;
    }
  }

  lemma PrependTwice(a: seq<Achievement>, b: seq<Achievement>, o: Outcome<seq<Achievement>>)
    ensures Prepend(a, Prepend(b, o)) == Prepend(a + b, o)
  {
    if o.result.Ok? {
      assert a + (b + o.result.value) == (a + b) + o.result.value;
    }
  }

  /** One step of the loop where the rule does not hold or the kind is unlocked. */
  lemma CheckLoopSkips(
    table: map<string, AchievementRow>, u: string, checks: seq<(AchievementType, bool)>,
    ids: seq<string>, nows: seq<string>, probeFaults: map<nat, string>, insertFaults: map<nat, string>, i: nat)
    requires |ids| == |checks| && |nows| == |checks| && i < |checks|
    requires !checks[i].1 || (i !in probeFaults && Unlocked(table, u, checks[i].0))
    ensures CheckLoop(table, u, checks, ids, nows, probeFaults, insertFaults, i) ==
      CheckLoop(table, u, checks, ids, nows, probeFaults, insertFaults, i + 1)
  {
  }

  /** One step of the loop whose probe fails. */
  lemma CheckLoopProbeFails(
    table: map<string, AchievementRow>, u: string, checks: seq<(AchievementType, bool)>,
    ids: seq<string>, nows: seq<string>, probeFaults: map<nat, string>, insertFaults: map<nat, string>, i: nat)
    requires |ids| == |checks| && |nows| == |checks| && i < |checks|
    requires checks[i].1 && i in probeFaults
    ensures CheckLoop(table, u, checks, ids, nows, probeFaults, insertFaults, i) == Outcome(Err(probeFaults[i]), table)
  {
  }

  /** One step of the loop that inserts. */
  lemma CheckLoopInserts(
    table: map<string, AchievementRow>, u: string, checks: seq<(AchievementType, bool)>,
    ids: seq<string>, nows: seq<string>, probeFaults: map<nat, string>, insertFaults: map<nat, string>, i: nat)
    requires |ids| == |checks| && |nows| == |checks| && i < |checks|
    requires checks[i].1 && i !in probeFaults && !Unlocked(table, u, checks[i].0)
    ensures var w := InsertAchievement(table, u, checks[i].0, ids[i], nows[i], FaultAt(insertFaults, i));
      var rest := CheckLoop(w.achievements, u, checks, ids, nows, probeFaults, insertFaults, i + 1);
      CheckLoop(table, u, checks, ids, nows, probeFaults, insertFaults, i) ==
        (if w.result.Ok? then Prepend([w.result.value], rest) else rest)
  {
  }

  /** The four statistics queries of the check. */
  method ReadStats(db: Database, u: string, today: Date, f: StatFaults) returns (s: CheckStats)
    requires ValidDate(today)
    ensures s == GatherStats(db.sessions, db.tasks, db.dailyStats, u, today, f)
  {
    var durations := UserDurations(db.sessions, u);
    var totalFocusTime := if f.totals then 0 else SumValues(durations);
    var totalSessions := if f.totals then 0 else |durations|;
    var tasksCompleted := if f.tasks then 0 else |CompletedTasks(db.tasks, u)|;
    var streak := CalculateCurrentStreak(Reverse(ActiveAscending(db.dailyStats, u)), today);
    var currentStreak := if f.streak || streak.Err? then 0 else streak.value;
    var maxSessionDuration := if f.maxDuration then 0 else MaxValue(durations);
    s := CheckStats(totalFocusTime, totalSessions, tasksCompleted, currentStreak, maxSessionDuration);
  }

  /** The check, loop for loop. */
  method CheckAndUnlockAchievements(
    db: Database, u: string, today: Date, f: StatFaults,
    ids: seq<string>, nows: seq<string>, probeFaults: map<nat, string>, insertFaults: map<nat, string>)
    returns (r: Result<seq<Achievement>>)
    requires ValidDate(today) && |ids| == |RuleTypes| && |nows| == |RuleTypes|
    modifies db`achievements
    ensures Outcome(r, db.achievements) ==
      CheckAndUnlock(old(db.achievements), db.sessions, db.tasks, db.dailyStats, u, today, f, ids, nows, probeFaults, insertFaults)
  {
    var stats := ReadStats(db, u, today, f);
    r := RunChecks(db, u, Checks(stats), ids, nows, probeFaults, insertFaults);
  }

  /** The loop over the rule table. */
  method RunChecks(
    db: Database, u: string, checks: seq<(AchievementType, bool)>,
    ids: seq<string>, nows: seq<string>, probeFaults: map<nat, string>, insertFaults: map<nat, string>)
    returns (r: Result<seq<Achievement>>)
    requires |ids| == |checks| && |nows| == |checks|
    modifies db`achievements
    ensures Outcome(r, db.achievements) == CheckLoop(old(db.achievements), u, checks, ids, nows, probeFaults, insertFaults, 0)
  {
    ghost var table0 := db.achievements;
    var newlyUnlocked: seq<Achievement> := [];
    PrependNothing(CheckLoop(table0, u, checks, ids, nows, probeFaults, insertFaults, 0));
    for i := 0 to |checks|
      invariant Prepend(newlyUnlocked, CheckLoop(db.achievements, u, checks, ids, nows, probeFaults, insertFaults, i)) ==
        CheckLoop(table0, u, checks, ids, nows, probeFaults, insertFaults, 0)
    {
      ghost var before := db.achievements;
      var (t, condition) := checks[i];
      if condition {
        var unlocked := IsAchievementUnlocked(db.achievements, u, t, FaultAt(probeFaults, i));
        if unlocked.Err? {
          CheckLoopProbeFails(before, u, checks, ids, nows, probeFaults, insertFaults, i);
          return Err(unlocked.error);
        }
        if !unlocked.value {
          CheckLoopInserts(before, u, checks, ids, nows, probeFaults, insertFaults, i);
          var achievement := UnlockAchievementInternal(db, u, t, ids[i], nows[i], FaultAt(insertFaults, i));
          ghost var rest := CheckLoop(db.achievements, u, checks, ids, nows, probeFaults, insertFaults, i + 1);
          if achievement.Ok? {
            PrependTwice(newlyUnlocked, [achievement.value], rest);
            newlyUnlocked := newlyUnlocked + [achievement.value];
          }
        } else {
          CheckLoopSkips(before, u, checks, ids, nows, probeFaults, insertFaults, i);
        }
      } else {
        CheckLoopSkips(before, u, checks, ids, nows, probeFaults, insertFaults, i);
      }
    }
    assert newlyUnlocked + [] == newlyUnlocked;
    r := Ok(newlyUnlocked);
  }

  // ---------------------------------------------------------------------------
  // What the check promises
  // ---------------------------------------------------------------------------

  /** The listed achievements were inserted at the positions `idx`, in increasing order. */
  ghost predicate Picks(
    listed: seq<Achievement>, idx: seq<nat>, table: map<string, AchievementRow>, u: string,
    checks: seq<(AchievementType, bool)>, ids: seq<string>, nows: seq<string>, i: nat)
    requires |ids| == |checks| && |nows| == |checks|
  {
    |idx| == |listed| &&
    (forall k | 0 <= k < |idx| :: i <= idx[k] < |checks|) &&
    (forall k | 0 <= k < |idx| ::
      listed[k] == Achievement(ids[idx[k]], u, checks[idx[k]].0, nows[idx[k]], None) &&
      checks[idx[k]].1 && !Unlocked(table, u, checks[idx[k]].0)) &&
    (forall k, l | 0 <= k < l < |idx| :: idx[k] < idx[l])
  }

  /** Rows are only ever added. */
  lemma {:induction false} CheckLoopGrows(
    table: map<string, AchievementRow>, u: string, checks: seq<(AchievementType, bool)>,
    ids: seq<string>, nows: seq<string>, probeFaults: map<nat, string>, insertFaults: map<nat, string>, i: nat)
    requires |ids| == |checks| && |nows| == |checks| && i <= |checks|
    ensures var o := CheckLoop(table, u, checks, ids, nows, probeFaults, insertFaults, i);
      forall id | id in table :: id in o.achievements && o.achievements[id] == table[id]
    decreases |checks| - i
  {
    if i < |checks| {
      var (t, condition) := checks[i];
      CheckLoopGrows(table, u, checks, ids, nows, probeFaults, insertFaults, i + 1);
      if condition && FaultAt(probeFaults, i).None? && !Unlocked(table, u, t) {
        var w := InsertAchievement(table, u, t, ids[i], nows[i], FaultAt(insertFaults, i));
        CheckLoopGrows(w.achievements, u, checks, ids, nows, probeFaults, insertFaults, i + 1);
      }
    }
  }

  lemma UnlockedGrows(a: map<string, AchievementRow>, b: map<string, AchievementRow>, u: string, t: AchievementType)
    requires forall id | id in a :: id in b && b[id] == a[id]
    requires Unlocked(a, u, t)
    ensures Unlocked(b, u, t)
  {
    var id :| id in a && a[id].userId == u && a[id].achievementType == AsStr(t);
    assert b[id] == a[id];
  }

  /**
   * Whatever fails, a listed achievement is one whose condition held and whose
   * kind the user had not unlocked, listed in rule order, each position once.
   */
  lemma {:induction false} CheckLoopPicks(
    table: map<string, AchievementRow>, u: string, checks: seq<(AchievementType, bool)>,
    ids: seq<string>, nows: seq<string>, probeFaults: map<nat, string>, insertFaults: map<nat, string>, i: nat)
    requires |ids| == |checks| && |nows| == |checks| && i <= |checks|
    ensures var o := CheckLoop(table, u, checks, ids, nows, probeFaults, insertFaults, i);
      o.result.Ok? ==> exists idx :: Picks(o.result.value, idx, table, u, checks, ids, nows, i)
    decreases |checks| - i
  {
    var o := CheckLoop(table, u, checks, ids, nows, probeFaults, insertFaults, i);
    if i == |checks| {
      assert Picks([], [], table, u, checks, ids, nows, i);
    } else if o.result.Ok? {
      var t := checks[i].0;
      if !checks[i].1 || (i !in probeFaults && Unlocked(table, u, t)) {
        CheckLoopSkips(table, u, checks, ids, nows, probeFaults, insertFaults, i);
        CheckLoopPicks(table, u, checks, ids, nows, probeFaults, insertFaults, i + 1);
        var idx :| Picks(o.result.value, idx, table, u, checks, ids, nows, i + 1);
        assert Picks(o.result.value, idx, table, u, checks, ids, nows, i);
      } else if i in probeFaults {
        CheckLoopProbeFails(table, u, checks, ids, nows, probeFaults, insertFaults, i);
      } else {
        CheckLoopInserts(table, u, checks, ids, nows, probeFaults, insertFaults, i);
        var w := InsertAchievement(table, u, t, ids[i], nows[i], FaultAt(insertFaults, i));
        var rest := CheckLoop(w.achievements, u, checks, ids, nows, probeFaults, insertFaults, i + 1);
        CheckLoopPicks(w.achievements, u, checks, ids, nows, probeFaults, insertFaults, i + 1);
        var idx :| Picks(rest.result.value, idx, w.achievements, u, checks, ids, nows, i + 1);
        PicksShrink(rest.result.value, idx, table, w.achievements, u, checks, ids, nows, i + 1);
        if w.result.Ok? {
          PicksCons(rest.result.value, idx, table, u, checks, ids, nows, i);
        } else {
          assert Picks(o.result.value, idx, table, u, checks, ids, nows, i);
        }
      }
    }
  }

  /** The achievement inserted at position `i` in front of the later picks. */
  lemma PicksCons(
    listed: seq<Achievement>, idx: seq<nat>, table: map<string, AchievementRow>,
    u: string, checks: seq<(AchievementType, bool)>, ids: seq<string>, nows: seq<string>, i: nat)
    requires |ids| == |checks| && |nows| == |checks| && i < |checks|
    requires checks[i].1 && !Unlocked(table, u, checks[i].0)
    requires Picks(listed, idx, table, u, checks, ids, nows, i + 1)
    ensures Picks([Achievement(ids[i], u, checks[i].0, nows[i], None)] + listed, [i] + idx, table, u, checks, ids, nows, i)
  {
  }

  /** A pick from a larger table is a pick from a smaller one. */
  lemma PicksShrink(
    listed: seq<Achievement>, idx: seq<nat>, small: map<string, AchievementRow>, large: map<string, AchievementRow>,
    u: string, checks: seq<(AchievementType, bool)>, ids: seq<string>, nows: seq<string>, i: nat)
    requires |ids| == |checks| && |nows| == |checks|
    requires forall id | id in small :: id in large && large[id] == small[id]
    requires Picks(listed, idx, large, u, checks, ids, nows, i)
    ensures Picks(listed, idx, small, u, checks, ids, nows, i)
  {
    forall k | 0 <= k < |idx| ensures !Unlocked(small, u, checks[idx[k]].0) {
      if Unlocked(small, u, checks[idx[k]].0) {
        UnlockedGrows(small, large, u, checks[idx[k]].0);
      }
    }
  }

  /** An error is the error of a probe. */
  lemma {:induction false} CheckLoopError(
    table: map<string, AchievementRow>, u: string, checks: seq<(AchievementType, bool)>,
    ids: seq<string>, nows: seq<string>, probeFaults: map<nat, string>, insertFaults: map<nat, string>, i: nat)
    requires |ids| == |checks| && |nows| == |checks| && i <= |checks|
    ensures var o := CheckLoop(table, u, checks, ids, nows, probeFaults, insertFaults, i);
      o.result.Err? ==> exists j | i <= j < |checks| :: j in probeFaults && o.result.error == probeFaults[j]
    ensures probeFaults == map[] ==> CheckLoop(table, u, checks, ids, nows, probeFaults, insertFaults, i).result.Ok?
    decreases |checks| - i
  {
    if i < |checks| {
      var (t, condition) := checks[i];
      CheckLoopError(table, u, checks, ids, nows, probeFaults, insertFaults, i + 1);
      if condition && FaultAt(probeFaults, i).None? && !Unlocked(table, u, t) {
        var w := InsertAchievement(table, u, t, ids[i], nows[i], FaultAt(insertFaults, i));
        CheckLoopError(w.achievements, u, checks, ids, nows, probeFaults, insertFaults, i + 1);
      }
    }
  }

  /**
   * Without faults and with fresh ids, every kind whose condition holds at
   * positions `i` on is unlocked afterwards.
   */
  lemma {:induction false} CheckLoopUnlocksAll(
    table: map<string, AchievementRow>, u: string, checks: seq<(AchievementType, bool)>,
    ids: seq<string>, nows: seq<string>, i: nat)
    requires |ids| == |checks| && |nows| == |checks| && i <= |checks|
    requires FreshIds(ids, table, i)
    ensures var o := CheckLoop(table, u, checks, ids, nows, map[], map[], i);
      forall j | i <= j < |checks| && checks[j].1 :: Unlocked(o.achievements, u, checks[j].0)
    decreases |checks| - i
  {
    if i < |checks| {
      var o := CheckLoop(table, u, checks, ids, nows, map[], map[], i);
      var t := checks[i].0;
      var next := table;
      if checks[i].1 && !Unlocked(table, u, t) {
        CheckLoopInserts(table, u, checks, ids, nows, map[], map[], i);
        next := InsertAchievement(table, u, t, ids[i], nows[i], None).achievements;
        assert FreshIds(ids, next, i + 1);
      } else {
        CheckLoopSkips(table, u, checks, ids, nows, map[], map[], i);
      }
      assert o.achievements == CheckLoop(next, u, checks, ids, nows, map[], map[], i + 1).achievements;
      assert checks[i].1 ==> Unlocked(next, u, t);
      CheckLoopUnlocksAll(next, u, checks, ids, nows, i + 1);
      if checks[i].1 {
        CheckLoopGrows(next, u, checks, ids, nows, map[], map[], i + 1);
        UnlockedGrows(next, o.achievements, u, t);
      }
    }
  }

  /** When every kind whose condition holds is already unlocked, the loop lists nothing and writes nothing. */
  lemma {:induction false} CheckLoopNothingNew(
    table: map<string, AchievementRow>, u: string, checks: seq<(AchievementType, bool)>,
    ids: seq<string>, nows: seq<string>, insertFaults: map<nat, string>, i: nat)
    requires |ids| == |checks| && |nows| == |checks| && i <= |checks|
    requires forall j | i <= j < |checks| && checks[j].1 :: Unlocked(table, u, checks[j].0)
    ensures CheckLoop(table, u, checks, ids, nows, map[], insertFaults, i) == Outcome(Ok([]), table)
    decreases |checks| - i
  {
    if i < |checks| {
      CheckLoopNothingNew(table, u, checks, ids, nows, insertFaults, i + 1);
    }
  }

  /**
   * Idempotence: after a check without faults and with fresh ids, a second
   * check (no other writes in between, so the same rule table) returns the
   * empty list and inserts nothing, whatever its own ids and insert faults.
   */
  lemma CheckTwice(
    table: map<string, AchievementRow>, u: string, checks: seq<(AchievementType, bool)>,
    ids: seq<string>, nows: seq<string>, ids2: seq<string>, nows2: seq<string>, insertFaults2: map<nat, string>)
    requires |ids| == |checks| && |nows| == |checks| && |ids2| == |checks| && |nows2| == |checks|
    requires FreshIds(ids, table, 0)
    ensures var first := CheckLoop(table, u, checks, ids, nows, map[], map[], 0);
      CheckLoop(first.achievements, u, checks, ids2, nows2, map[], insertFaults2, 0) == Outcome(Ok([]), first.achievements)
  {
    var first := CheckLoop(table, u, checks, ids, nows, map[], map[], 0);
    CheckLoopUnlocksAll(table, u, checks, ids, nows, 0);
    CheckLoopNothingNew(first.achievements, u, checks, ids2, nows2, insertFaults2, 0);
  }

  /**
   * The command's promises: a listed achievement belongs to the user, its rule
   * held, the user had not unlocked its kind, the list follows rule order with
   * no kind twice, and neither the morning nor the night kind is ever listed;
   * an error is a probe's error.
   */
  lemma CheckAndUnlockPromises(
    table: map<string, AchievementRow>, sessions: map<string, SessionRow>, tasks: map<string, TaskRow>,
    stats: map<(string, string), StatRow>, u: string, today: Date, f: StatFaults,
    ids: seq<string>, nows: seq<string>, probeFaults: map<nat, string>, insertFaults: map<nat, string>)
    requires ValidDate(today) && |ids| == |RuleTypes| && |nows| == |RuleTypes|
    ensures var o := CheckAndUnlock(table, sessions, tasks, stats, u, today, f, ids, nows, probeFaults, insertFaults);
      var checks := Checks(GatherStats(sessions, tasks, stats, u, today, f));
      (o.result.Ok? ==>
        (forall k | 0 <= k < |o.result.value| :: var a := o.result.value[k];
          a.userId == u && a.metadata.None? && a.achievementType != EarlyBird && a.achievementType != NightOwl &&
          !Unlocked(table, u, a.achievementType) &&
          exists j | 0 <= j < |checks| :: checks[j] == (a.achievementType, true)) &&
        (forall k, l | 0 <= k < l < |o.result.value| :: o.result.value[k].achievementType != o.result.value[l].achievementType)) &&
      (o.result.Err? ==> exists j | 0 <= j < |RuleTypes| :: j in probeFaults && o.result.error == probeFaults[j]) &&
      (probeFaults == map[] ==> o.result.Ok?)
  {
    var checks := Checks(GatherStats(sessions, tasks, stats, u, today, f));
    var o := CheckLoop(table, u, checks, ids, nows, probeFaults, insertFaults, 0);
    CheckLoopError(table, u, checks, ids, nows, probeFaults, insertFaults, 0);
    CheckLoopPicks(table, u, checks, ids, nows, probeFaults, insertFaults, 0);
    RuleTypesDistinct();
    if o.result.Ok? {
      var idx :| Picks(o.result.value, idx, table, u, checks, ids, nows, 0);
      forall k | 0 <= k < |o.result.value|
        ensures exists j | 0 <= j < |checks| :: checks[j] == (o.result.value[k].achievementType, true)
        ensures o.result.value[k].achievementType in RuleTypes
      {
        assert checks[idx[k]] == (o.result.value[k].achievementType, true);
      }
      forall k, l | 0 <= k < l < |o.result.value|
        ensures o.result.value[k].achievementType != o.result.value[l].achievementType
      {
        assert idx[k] < idx[l];
      }
    }
  }
}
