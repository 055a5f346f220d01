# FLOW learning tracker: a Dafny model

FLOW is a desktop focus and learning tracker. Its backend is a Rust/Tauri process that keeps
users, focus sessions, daily aggregates, tasks, achievements and settings in SQLite. Its
frontend is React with zustand stores. This project models the core of both halves:

- the command handlers, over the database tables held as maps in one `Db.Database` object:
  the user, task, session, achievement, settings and data export/import commands, the
  streak calculators and the migration runner;
- the four stores (`TaskStore`, `SessionStore`, `SettingsStore`, `UserStore`) as classes
  whose methods update their fields, with the service call's outcome as a parameter;
- the page logic of the app shell, the calendar, the focus timer, the add-task form, the
  toast queue, the statistics page, the achievements page, the home page and the language
  helpers.

The clock, the local time zone (a fixed offset in milliseconds east of UTC), the UUIDs and
the failure of individual SQL statements are parameters. Every method is proved against a
specification function. The lemmas state the properties the source relies on:

- round trips: token and string conversions, date formatting and parsing, export then import;
- invariants: the daily aggregates stay exact under any sequence of session creates, and the
  settings cache stays coherent with the table;
- idempotence: a second migration run, a second achievement check, a second import, a
  double toggle;
- ordering and maximality: the streaks, the latest sessions, the month labels.

## Model

| member | source | states |
|---|---|---|
| AchievementModel.AsStr | src-tauri/src/models/achievement.rs:29-42 | every kind is stored as one of the ten snake_case tokens |
| AchievementModel.FromStr | src-tauri/src/models/achievement.rs:44-58 | a string is recognised exactly when it is one of the ten tokens |
| AchievementModel.DisplayName | src-tauri/src/models/achievement.rs:60-73 | every kind has a non-empty display name |
| AchievementModel.Description | src-tauri/src/models/achievement.rs:75-88 | every kind has a non-empty description |
| AchievementModel.FromStrAsStr | src-tauri/src/models/achievement.rs:29-58 | reading back a stored token gives the same kind |
| AchievementModel.AsStrFromStr | src-tauri/src/models/achievement.rs:44-58 | a recognised token is written back unchanged |
| AchievementModel.AsStrInjective | src-tauri/src/models/achievement.rs:29-42 | distinct kinds have distinct tokens |
| AchievementModel.SerdeNameIsToken | src-tauri/src/models/achievement.rs:5-26 | the serde snake_case name of a kind is its database token |
| AchievementModel.AllTypesComplete | src-tauri/src/commands/achievement.rs:28-39 | the catalogue lists all ten kinds, each once |
| TaskModel.AsStr | src-tauri/src/models/task.rs:15-21 | every category is stored as one of its three tokens |
| TaskModel.FromStr | src-tauri/src/models/task.rs:23-30 | a string is recognised exactly when it is a category token |
| TaskModel.FromStrAsStr | src-tauri/src/models/task.rs:15-30 | reading back a stored category gives the same category |
| TaskModel.AsStrFromStr | src-tauri/src/models/task.rs:23-30 | a recognised token is written back unchanged |
| TaskModel.SerdeNameIsToken | src-tauri/src/models/task.rs:5-21 | the serde name of a category is its database token |
| TaskModel.DecodeCategory | src-tauri/src/commands/task.rs:71 | a known token decodes to its category; anything else reads as To Do |
| TaskCommands.GetTaskById | src-tauri/src/commands/task.rs:233-254 | succeeds exactly for a stored id, with that row's owner and creation time; otherwise no-rows |
| TaskCommands.Selected | src-tauri/src/commands/task.rs:55-89 | a task is selected exactly when it is the user's and, when a date is given, on that date |
| TaskCommands.TasksOf | src-tauri/src/commands/task.rs:65-82 | one task per selected id, in order, read from its row |
| TaskCommands.CreateTask | src-tauri/src/commands/task.rs:9-44 | the store and result after the insert follow the create specification |
| TaskCommands.CreateTaskSpec | src-tauri/src/commands/task.rs:15-43 | a create succeeds iff the id is fresh and the insert does not fail; the new task is stored incomplete with its category token and reads back as returned; no other row changes, and a failure writes nothing |
| TaskCommands.GetTasks | src-tauri/src/commands/task.rs:48-114 | exactly the user's tasks (on the date, if given), each once, in the query's ORDER BY |
| TaskCommands.OrdersTotal | src-tauri/src/commands/task.rs:62-103 | both task orderings are total, so the sorted lists are well defined |
| TaskCommands.TaskChangesEmpty | src-tauri/src/commands/task.rs:154-156 | the change list is empty exactly when the request sets no field |
| TaskCommands.TaskChanges | src-tauri/src/commands/task.rs:126-152 | at most six changes, one per optional field |
| TaskCommands.BuildTaskClauses | src-tauri/src/commands/task.rs:126-152 | one SET clause per present field in field order, numbered from ?1; the next index follows them |
| TaskCommands.BuildTaskParams | src-tauri/src/commands/task.rs:165-185 | the bound values are the present fields in order, then the id of that task |
| TaskCommands.TaskStatementBinds | src-tauri/src/commands/task.rs:158-189 | every placeholder gets its field's value, the WHERE gets the id, and the count matches |
| TaskCommands.TaskChangesWrite | src-tauri/src/commands/task.rs:129-189 | running the UPDATE writes exactly the present fields of the row |
| TaskCommands.UpdateTask | src-tauri/src/commands/task.rs:118-193 | the store and result follow the update specification |
| TaskCommands.UpdateTaskSpec | src-tauri/src/commands/task.rs:118-193 | an empty request just reads that task and writes nothing; a missing id or any failure writes nothing; otherwise only that row changes, to the merged fields, and is returned |
| TaskCommands.UpdateExecutes | src-tauri/src/commands/task.rs:158-189 | executing a non-empty change-set rewrites that row to the merged fields and no other row |
| TaskCommands.UpdatedTaskFields | src-tauri/src/commands/task.rs:233-254 | a task read back keeps its id, owner and creation time, and has each field from the request or as before |
| TaskCommands.DeleteTask | src-tauri/src/commands/task.rs:197-204 | success removes that id and nothing else; a failure leaves the table |
| TaskCommands.Toggled | src-tauri/src/commands/task.rs:221 | the new flag is 0 or 1, and 0 exactly when it was 1 |
| TaskCommands.ToggleTaskCompletion | src-tauri/src/commands/task.rs:208-230 | the store and result follow the toggle specification |
| TaskCommands.ToggleSpec | src-tauri/src/commands/task.rs:208-230 | a missing task is no-rows; success changes only that row's flag and returns the negation of the old reading; a failure writes nothing |
| TaskCommands.ToggleTwiceRestores | src-tauri/src/commands/task.rs:208-230 | toggling twice restores a table whose flag held 0 or 1 |
| UserCommands.GetUserById | src-tauri/src/commands/user.rs:122-140 | succeeds exactly for a stored id with that row's profile |
| UserCommands.GetUser | src-tauri/src/commands/user.rs:9-33 | none for an empty table, otherwise one of the stored users |
| UserCommands.CreateUser | src-tauri/src/commands/user.rs:37-62 | the store and result follow the create specification |
| UserCommands.CreateUserSpec | src-tauri/src/commands/user.rs:37-62 | a create succeeds iff the id is fresh and the insert does not fail; the profile is not premium, has no avatar, was created and updated now, joined today, and reads back as returned; other rows are kept and a failure writes nothing |
| UserCommands.BuildUserParams | src-tauri/src/commands/user.rs:97-111 | the bound values are the timestamp, the present fields in order, then the user id |
| UserCommands.UserChanges | src-tauri/src/commands/user.rs:71-88 | the timestamp comes first, followed by up to four present fields |
| UserCommands.BuildUserClausesAsWritten | src-tauri/src/commands/user.rs:71-88 | the clause list as the source builds it: the premium clause does not advance the index |
| UserCommands.BuildUserClauses | src-tauri/src/commands/user.rs:71-94 | one clause per present field numbered consecutively after `updated_at = ?1` |
| UserCommands.UpdateUserCommandAsWritten | src-tauri/src/commands/user.rs:66-120 | the store and result of the command as written follow its specification |
| UserCommands.UpdateUser | src-tauri/src/commands/user.rs:66-120 | the store and result of the corrected command follow the corrected specification |
| UserCommands.UpdatedAtAlwaysWritten | src-tauri/src/commands/user.rs:71-97 | every update sets `updated_at` from ?1, even with no other field |
| UserCommands.WithoutPremiumBothAgree | src-tauri/src/commands/user.rs:71-111 | without the premium field the written and corrected statements are the same |
| UserCommands.PremiumStatementMiscounts | src-tauri/src/commands/user.rs:86-111 | as written, the premium clause takes the WHERE placeholder, so the statement has one placeholder fewer than the values bound |
| UserCommands.UpdateUserAsWritten | src-tauri/src/commands/user.rs:66-120 | as written, a request with the premium field fails with the parameter-count error and writes nothing; without it, the command is the intended update |
| UserCommands.UpgradeCounterexample | src-tauri/src/commands/user.rs:86-116 | as written, turning premium on fails with the parameter-count error |
| UserCommands.UserStatementBinds | src-tauri/src/commands/user.rs:90-111 | in the corrected statement every placeholder gets its field's value and the count matches |
| UserCommands.UserChangesWrite | src-tauri/src/commands/user.rs:74-110 | running the corrected UPDATE writes exactly the present fields and the timestamp |
| UserCommands.UpdateUserSpec | src-tauri/src/commands/user.rs:66-120 | succeeds iff the user exists and nothing fails; a missing user or a failure writes nothing; otherwise only that row changes, to the merged fields, and is returned |
| UserCommands.UserUpdateExecutes | src-tauri/src/commands/user.rs:115-116 | the corrected statement binds without error for every request |
| UserCommands.UpdatedUserFields | src-tauri/src/commands/user.rs:119-140 | the profile read back has each field from the request or as before, premium as a boolean |
| UserCommands.SessionsWithout | src-tauri/src/commands/user.rs:148 | exactly the sessions of other users remain |
| UserCommands.TasksWithout | src-tauri/src/commands/user.rs:150 | exactly the tasks of other users remain |
| UserCommands.UserAchievementsWithout | src-tauri/src/commands/user.rs:152 | exactly the `user_achievements` rows of other users remain |
| UserCommands.SettingsWithout | src-tauri/src/commands/user.rs:154 | exactly the settings of other users remain |
| UserCommands.DeleteUser | src-tauri/src/commands/user.rs:144-162 | the deletes run in order; each table is cleared of the user up to the first failing statement |
| SettingsCommands.GetSetting | src-tauri/src/commands/settings.rs:9-25 | the stored value for the user's key, or none; a failing query also reads as none |
| SettingsCommands.UpsertSetting | src-tauri/src/commands/settings.rs:38-43 | success stores the value under the key; an existing row keeps its id, a new row takes the fresh one; failure writes nothing |
| SettingsCommands.RemoveSetting | src-tauri/src/commands/settings.rs:80-84 | success removes that key only; failure writes nothing |
| SettingsCommands.GetAllSettings | src-tauri/src/commands/settings.rs:50-69 | exactly the user's readable keys, each with its stored value |
| SettingsCommands.SetSetting | src-tauri/src/commands/settings.rs:29-46 | the table and result follow the upsert specification |
| SettingsCommands.DeleteSetting | src-tauri/src/commands/settings.rs:73-87 | the table and result follow the remove specification |
| SettingsCommands.SetThenGet | src-tauri/src/commands/settings.rs:38-40 | after a set, both the single read and the full read return the new value |
| SettingsCommands.SetTwice | src-tauri/src/commands/settings.rs:38-41 | setting the same value again changes nothing |
| SettingsCommands.DeleteThenGet | src-tauri/src/commands/settings.rs:80-82 | after a delete the key reads as none, and other keys read as before |
| SettingsCommands.UpsertIsLocal | src-tauri/src/commands/settings.rs:38-41 | an upsert adds at most its own key and changes no other row |
| SettingsCommands.SetIsLocal | src-tauri/src/commands/settings.rs:38-41 | other keys read the same after a set |
| SettingsCommands.AllAgreesWithGet | src-tauri/src/commands/settings.rs:56-66 | the full read and the single read agree key by key |
| Db.Bind | src-tauri/src/commands/user.rs:113-116 | binding succeeds exactly when the value count equals the highest placeholder, else the parameter-count error |
| Db.ParameterCount | src-tauri/src/commands/user.rs:113-116 | SQLite's parameter count: the highest placeholder index of the SET list and the WHERE, attained by one of them |
| Db.QueryText | src-tauri/src/commands/user.rs:90-94 | the statement text starts with UPDATE, the table and SET, and ends with the id filter at the WHERE placeholder |
| Db.Migrate | src-tauri/src/db/mod.rs:33-64 | the ledger only grows by appending and foreign keys are untouched; a run succeeds exactly when no statement that runs fails, and then the ledger names the initial batch; the batch runs exactly when unrecorded and the statements before it succeed, and is recorded once, only after it succeeded |
| Db.SecondRunAppliesNothing | src-tauri/src/db/mod.rs:45-61 | after a successful run, a second run applies nothing and leaves the ledger as it is |
| Db.Init | src-tauri/src/db/mod.rs:20-30 | foreign keys are on whenever the migrations ran; an open or pragma failure is returned and changes nothing; otherwise the result is that of the migrations, and success means foreign keys on and the initial batch recorded |
| Db.Database.RunMigrations | src-tauri/src/db/mod.rs:33-64 | the schema and result follow the migration specification, statement by statement |
| Db.Database.InitDatabase | src-tauri/src/db/mod.rs:20-30 | the schema and result follow the init specification |
| Db.Database.constructor | src-tauri/src/db/mod.rs:20-21 | a new connection has empty tables and no schema |
| AchievementCommands.UnlockedAt | src-tauri/src/commands/achievement.rs:19-45 | a kind has an unlock time exactly when a row of that kind exists for the user, and the time is that row's |
| AchievementCommands.RowsOfType | src-tauri/src/commands/achievement.rs:169-170 | exactly the user's rows of that kind |
| AchievementCommands.UnlockedGrows | src-tauri/src/commands/achievement.rs:150-156 | a kind stays unlocked once rows are only added |
| AchievementCommands.GetAchievements | src-tauri/src/commands/achievement.rs:9-57 | a failing `prepare` or `query_map` is its error; otherwise ten entries in catalogue order with their texts, each unlocked exactly when a row exists |
| AchievementCommands.IsAchievementUnlocked | src-tauri/src/commands/achievement.rs:162-174 | the probe's error, or whether a row of the kind exists |
| AchievementCommands.InsertAchievement | src-tauri/src/commands/achievement.rs:177-199 | a taken id or a failure writes nothing; otherwise one row of the kind, with no metadata, is added |
| AchievementCommands.UnlockOutcome | src-tauri/src/commands/achievement.rs:61-98 | unlocking refuses a kind already unlocked and writes nothing; otherwise it adds at most one row |
| AchievementCommands.UnlockOnce | src-tauri/src/commands/achievement.rs:73-83 | once a kind is unlocked, unlocking it again is refused and changes nothing |
| AchievementCommands.UnlockAchievementCommand | src-tauri/src/commands/achievement.rs:61-98 | the table and result follow the unlock specification |
| AchievementCommands.UnlockAchievementInternal | src-tauri/src/commands/achievement.rs:177-199 | the table and result follow the insert specification |
| AchievementCommands.GatherStats | src-tauri/src/commands/achievement.rs:110-136 | focus time, session and task counts and the current streak as the queries give them; a failing query reads as 0 |
| AchievementCommands.Checks | src-tauri/src/commands/achievement.rs:139-148 | the eight rule kinds in source order, each with its threshold: a session, a one-hour session, 7 and 30 streak days, 10, 50 and 100 hours, 50 completed tasks |
| AchievementCommands.RuleTypesDistinct | src-tauri/src/commands/achievement.rs:139-148 | the rule kinds are distinct, and the early-bird and night-owl kinds have no rule |
| AchievementCommands.ChecksNested | src-tauri/src/commands/achievement.rs:142-146 | a longer streak or more hours implies the shorter or fewer |
| AchievementCommands.CheckLoopSkips | src-tauri/src/commands/achievement.rs:150-156 | a rule that does not hold, or a kind already unlocked, moves on without writing |
| AchievementCommands.CheckLoopProbeFails | src-tauri/src/commands/achievement.rs:150-156 | a failing probe ends the loop with its error |
| AchievementCommands.CheckLoopInserts | src-tauri/src/commands/achievement.rs:150-156 | a rule that holds for a locked kind inserts it and lists it |
| AchievementCommands.RunChecks | src-tauri/src/commands/achievement.rs:150-156 | the loop over the rules leaves the table and result the loop function gives |
| AchievementCommands.CheckLoopGrows | src-tauri/src/commands/achievement.rs:150-156 | rows are only ever added |
| AchievementCommands.CheckLoopPicks | src-tauri/src/commands/achievement.rs:150-156 | every listed achievement was inserted by a rule that held for a kind not yet unlocked, in rule order |
| AchievementCommands.CheckLoopUnlocksAll | src-tauri/src/commands/achievement.rs:150-156 | without failures, afterwards every kind whose rule holds is unlocked |
| AchievementCommands.CheckLoopNothingNew | src-tauri/src/commands/achievement.rs:150-156 | when every such kind is already unlocked, the loop lists nothing and writes nothing |
| AchievementCommands.CheckLoopError | src-tauri/src/commands/achievement.rs:151 | an error is the error of a probe; without probe failures the loop succeeds |
| AchievementCommands.ReadStats | src-tauri/src/commands/achievement.rs:110-136 | the statistics read from the store are the gathered statistics |
| AchievementCommands.CheckAndUnlockAchievements | src-tauri/src/commands/achievement.rs:102-159 | the table and result follow the check specification |
| AchievementCommands.CheckTwice | src-tauri/src/commands/achievement.rs:102-159 | running the check again at once lists nothing and writes nothing |
| AchievementCommands.CheckAndUnlockPromises | src-tauri/src/commands/achievement.rs:102-159 | the check only adds rows, lists what it added, and leaves every qualifying kind unlocked |
| Streak.DayOf | src-tauri/src/commands/session.rs:248-251 | a stored date gives its day number, or chrono's parse error |
| Streak.CalculateCurrentStreak | src-tauri/src/commands/session.rs:215-261 | the loop computes the current-streak function |
| Streak.CurrentRun | src-tauri/src/commands/session.rs:246-258 | the loop from the newest date computes the streak loop function |
| Streak.CurrentLoop | src-tauri/src/commands/session.rs:246-258 | the loop only adds to the streak, at most one per remaining date; an error comes from one of the dates it reads |
| Streak.CalculateLongestStreak | src-tauri/src/commands/session.rs:264-305 | the loop computes the longest-streak function |
| Streak.LongestLoop | src-tauri/src/commands/session.rs:287-302 | the result is at least the running maximum and at most it plus the remaining dates; an error comes from one of the dates it reads |
| Streak.DaysOf | src-tauri/src/commands/session.rs:248-251 | each date parsed, position by position |
| Streak.RunEndingAt | src-tauri/src/commands/session.rs:285-302 | a run of consecutive days ends there |
| Streak.RunEndingAtIsLongest | src-tauri/src/commands/session.rs:285-302 | no run ending at that position is longer |
| Streak.MaxRun | src-tauri/src/commands/session.rs:281-304 | the longest run is at least 1 and at most the number of dates |
| Streak.CurrentStreakValue | src-tauri/src/commands/session.rs:232-258 | over parseable distinct dates: 0 unless the newest is today or yesterday, otherwise the length of the run of consecutive days from the newest; the copy in the achievement check (achievement.rs lines 219-246) computes the same |
| Streak.CurrentStreak | src-tauri/src/commands/session.rs:232-261 | the streak is 0 to the number of dates; an error only arises when the newest date is today or yesterday, and it is the parse error of one of the dates |
| Streak.LongestStreakValue | src-tauri/src/commands/session.rs:281-304 | over parseable increasing dates: a run of that length occurs and none is longer |
| Streak.LongestStreak | src-tauri/src/commands/session.rs:280-305 | 0 for no dates, otherwise 1 to the number of dates; an error is the parse error of one of the dates |
| Streak.CurrentAtMostLongest | src-tauri/src/commands/session.rs:215-305 | the current streak never exceeds the longest |
| Streak.MaxRunIsMaximum | src-tauri/src/commands/session.rs:285-302 | the running maximum is attained by some run and bounds every run |
| Session.AggregateKey | src-tauri/src/commands/session.rs:35 | a session is aggregated under its user and the first ten bytes of its start time, the same as ten characters for ASCII timestamps |
| Session.Upsert | src-tauri/src/commands/session.rs:62-69 | a new key gets a row with one session; an existing key adds the duration and one to its row |
| Session.CreatePreservesAggregated | src-tauri/src/commands/session.rs:18-36 | recording a fresh session keeps every daily row equal to the sum and count of its sessions |
| Session.CreatePreservesUserAggregated | src-tauri/src/commands/session.rs:18-36 | recording a fresh session keeps every user's daily totals equal to their session totals |
| Session.RecordAllAggregated | src-tauri/src/commands/session.rs:18-36 | any sequence of creates keeps the aggregates exact |
| Session.FromEmptyAggregated | src-tauri/src/commands/session.rs:18-36 | from an empty store, any sequence of creates leaves the aggregates exact |
| Session.CreateFocusSession | src-tauri/src/commands/session.rs:9-50 | a fresh id inserts the session and upserts its daily row; a failure at any statement stops there |
| Session.GetFocusSessions | src-tauri/src/commands/session.rs:77-113 | the newest sessions of the user, at most the limit (100 by default, none when negative), newest first, each once, none left out started later, and all of them when the limit covers them |
| Session.Newest | src-tauri/src/commands/session.rs:89-91 | the last k sessions of the ascending list, newest first |
| Session.NewestFromList | src-tauri/src/commands/session.rs:89-91 | every kept session comes from the user's sessions |
| Session.KeptInNewest | src-tauri/src/commands/session.rs:90-91 | the latest k sessions of the ascending list are all kept |
| Session.NewestDescending | src-tauri/src/commands/session.rs:90 | the kept sessions go from the latest start time down |
| Session.NewestAreLatest | src-tauri/src/commands/session.rs:90-91 | no session left out started after a kept one |
| Session.GetDailyStats | src-tauri/src/commands/session.rs:117-147 | exactly the user's rows dated from start to end, ascending by date |
| Session.RangeDates | src-tauri/src/commands/session.rs:129 | exactly the user's dates from start to end |
| Session.StatsRows | src-tauri/src/commands/session.rs:134-144 | one row per date, with that day's totals |
| Session.SqliteDate | src-tauri/src/commands/session.rs:159 | SQLite's date text exists for years 0 to 9999 and then is the zero-padded date |
| Session.Minutes | src-tauri/src/commands/session.rs:157 | SQLite's integer division by 60 truncates toward zero |
| Session.HeatmapCutoff | src-tauri/src/commands/session.rs:159 | the date whose day number is 365 below today's, in chrono's `%Y-%m-%d` form; SQL NULL exactly when its year has no four-digit form |
| Session.HeatmapFrom | src-tauri/src/commands/session.rs:155-175 | exactly the user's dates on or after the cutoff, ascending without repeats, each with its total in whole minutes |
| Session.GetHeatmapData | src-tauri/src/commands/session.rs:151-176 | the user's rows on or after the cutoff, ascending, each in whole minutes |
| Session.HeatmapDates | src-tauri/src/commands/session.rs:159 | exactly the user's dates on or after the cutoff |
| Session.MinuteRows | src-tauri/src/commands/session.rs:157-172 | one entry per date, with that day's total in whole minutes |
| Session.ActiveDates | src-tauri/src/commands/session.rs:219-221 | exactly the user's dates with a positive total |
| Session.GetUserStats | src-tauri/src/commands/session.rs:180-212 | the user's total focus time, session count and both streaks |
| Session.UserStatsStreaks | src-tauri/src/commands/session.rs:201-203 | the reported streaks are the calculators over the active dates |
| Session.UserStatsMatchDaily | src-tauri/src/commands/session.rs:184-190 | with exact aggregates, the total is also the sum of the daily totals |
| DataExport.AchievementOf | src-tauri/src/commands/data_export.rs:120-131 | a known token reads as its kind; an unknown token reads as first-session |
| DataExport.ExportSessions | src-tauri/src/commands/data_export.rs:61-83 | exactly the user's sessions, each once, ascending by start time |
| DataExport.ExportTasks | src-tauri/src/commands/data_export.rs:86-110 | exactly the user's tasks, by date and then start time |
| DataExport.ExportAchievements | src-tauri/src/commands/data_export.rs:113-134 | exactly the user's achievements |
| DataExport.RowsOf | src-tauri/src/commands/data_export.rs:61-134 | one exported record per id, in order, read from its row |
| DataExport.Permuted | src-tauri/src/commands/data_export.rs:64-89 | a reordering keeps the same rows |
| DataExport.ExportOrdersTotal | src-tauri/src/commands/data_export.rs:64-89 | both export orderings are total, so the sorted lists are well defined |
| DataExport.ExportedRowsPresent | src-tauri/src/commands/data_export.rs:61-134 | every exported record's id is a row of the store |
| DataExport.ExportAllData | src-tauri/src/commands/data_export.rs:35-158 | a failing user query is "User not found: " and its error, for an unknown user the no-rows text; then the first failing query's error; the export succeeds exactly for a stored user when no query fails |
| DataExport.ExportContents | src-tauri/src/commands/data_export.rs:149-157 | version 1.0, the profile, and all of that user's rows and no others |
| DataExport.InsertedKeeps | src-tauri/src/commands/data_export.rs:201-219 | insert-or-ignore keeps every existing row as it is |
| DataExport.InsertedOrigin | src-tauri/src/commands/data_export.rs:201-219 | every new row is a snapshot record whose statement succeeded, stored for the importing user |
| DataExport.InsertedCovers | src-tauri/src/commands/data_export.rs:201-219 | without failures every record's id is present afterwards |
| DataExport.InsertedStable | src-tauri/src/commands/data_export.rs:201-219 | when every id is present already, the loop changes nothing |
| DataExport.OkCount | src-tauri/src/commands/data_export.rs:216-218 | the count is the number of statements that returned Ok and never exceeds the number run |
| DataExport.SettingKeys | src-tauri/src/commands/data_export.rs:262 | the loop visits exactly the snapshot's keys |
| DataExport.SettingKeysDistinct | src-tauri/src/commands/data_export.rs:262 | each key is visited once |
| DataExport.UpsertedAll | src-tauri/src/commands/data_export.rs:262-272 | without failures and with fresh UUIDs, every snapshot key holds its value afterwards |
| DataExport.UpsertedStable | src-tauri/src/commands/data_export.rs:262-272 | when every key holds its value already, the loop changes nothing and counts every upsert |
| DataExport.UpsertedIds | src-tauri/src/commands/data_export.rs:262-272 | every settings row id after the loop was there before or is one of the UUIDs handed out |
| DataExport.ImportDataCommand | src-tauri/src/commands/data_export.rs:162-285 | the store and result follow the import specification |
| DataExport.ImportRowsCommand | src-tauri/src/commands/data_export.rs:200-272 | the four loops leave the store the loop functions give |
| DataExport.ImportSessions | src-tauri/src/commands/data_export.rs:201-219 | the sessions loop inserts-or-ignores each record and counts the successes |
| DataExport.ImportTasks | src-tauri/src/commands/data_export.rs:222-241 | the tasks loop inserts-or-ignores each record and counts the successes |
| DataExport.ImportAchievements | src-tauri/src/commands/data_export.rs:244-259 | the achievements loop inserts-or-ignores each record and counts the successes |
| DataExport.ImportSettings | src-tauri/src/commands/data_export.rs:262-272 | the settings loop upserts each key with its own UUID and counts the successes |
| DataExport.ImportTwice | src-tauri/src/commands/data_export.rs:162-285 | importing the same snapshot again without failures changes nothing |
| DataExport.ReimportOwnExport | src-tauri/src/commands/data_export.rs:162-285 | importing a user's own export leaves the store as it was |
| DataExport.ExportedPresent | src-tauri/src/commands/data_export.rs:35-158 | everything an export holds is in the store under the same ids and values |
| DataExport.ImportData | src-tauri/src/commands/data_export.rs:162-285 | fails exactly when the existence probe or the profile insert fails, and then writes nothing; otherwise the profile exists (an existing one unchanged) and the result reports each loop's Ok count in its message |
| DataExport.ImportRows | src-tauri/src/commands/data_export.rs:200-284 | the four loops always succeed, leave the users alone, keep every existing row, and report the four counts in the message |
| TaskStore.RequestFor | stores/taskStore.ts:78-81 | the request is the draft with the signed-in user's id |
| TaskStore.TaskState.constructor | stores/taskStore.ts:22-25 | the store starts empty, not loading, without error |
| TaskStore.WithoutDate | stores/taskStore.ts:38 | exactly the cached tasks on other dates, in order |
| TaskStore.OnDate | stores/taskStore.ts:143 | exactly the cached tasks on the date, in order |
| TaskStore.ReplaceById | stores/taskStore.ts:101 | same length; every task with the id becomes the new one, the others stay |
| TaskStore.RemoveById | stores/taskStore.ts:118 | exactly the tasks with other ids remain, in order |
| TaskStore.TaskState.FetchTasks | stores/taskStore.ts:27-52 | a fetch for a date replaces only that date's tasks; without a date it replaces all; a failure records the error |
| TaskStore.TaskState.FetchAllTasks | stores/taskStore.ts:54-68 | the fetched list replaces the cache; a failure records the error |
| TaskStore.TaskState.CreateTask | stores/taskStore.ts:70-94 | the created task is appended; no user or a failure leaves the cache |
| TaskStore.TaskState.UpdateTask | stores/taskStore.ts:96-111 | every cached task with the id becomes the returned task |
| TaskStore.TaskState.DeleteTask | stores/taskStore.ts:113-128 | once the service succeeds, the tasks with the id leave the cache |
| TaskStore.TaskState.ToggleTask | stores/taskStore.ts:130-140 | like an update, but the loading flag is untouched and a success keeps the last error |
| TaskStore.TaskState.TasksForDate | stores/taskStore.ts:142-144 | the cached tasks on the date |
| TaskStore.TaskState.ClearError | stores/taskStore.ts:146 | only the error is cleared |
| TaskStore.OnDateOfAll | stores/taskStore.ts:142-144 | a list whose tasks are all on the date is its own selection |
| TaskStore.OnDateAppend | stores/taskStore.ts:143 | selecting by date distributes over concatenation |
| TaskStore.OnDateWithoutDate | stores/taskStore.ts:38-143 | after dropping a date, that date selects nothing and other dates select as before |
| TaskStore.OnDateNone | stores/taskStore.ts:143 | a list with no task on the date selects nothing |
| TaskStore.FetchThenRead | stores/taskStore.ts:34-41 | after a date fetch, that date reads as the fetched tasks on it, and other dates read as before |
| TaskStore.Truthy | stores/taskStore.ts:34 | an absent date and the empty string are both false, and only a non-empty date is true |
| TaskStore.RemoveAfterReplace | stores/taskStore.ts:101-118 | removing an id undoes any replacement under it |
| TaskStore.UnknownIdIsNoOp | stores/taskStore.ts:101-118 | replacing or removing an id no cached task has leaves the cache |
| SessionStore.SessionRequestFor | stores/sessionStore.ts:48-51 | the request is the draft with the signed-in user's id |
| SessionStore.SessionState.constructor | stores/sessionStore.ts:32-38 | the store starts with no sessions, aggregates, statistics or heatmap |
| SessionStore.FindOnDate | stores/sessionStore.ts:130 | none exactly when no aggregate is dated that day; otherwise the aggregate at the first position dated that day |
| SessionStore.RoundDiv | stores/sessionStore.ts:153 | the nearest integer to the quotient, halves rounded up |
| SessionStore.StartOfWeek | stores/sessionStore.ts:144-146 | the Sunday on or before today |
| SessionStore.SessionState.CreateSession | stores/sessionStore.ts:40-73 | the new session goes to the front of the cache; a failure records the error |
| SessionStore.SessionState.FetchSessions | stores/sessionStore.ts:75-89 | the fetched list replaces the cache |
| SessionStore.SessionState.FetchDailyStats | stores/sessionStore.ts:91-101 | the fetched aggregates replace the cached ones; the loading flag is untouched |
| SessionStore.SessionState.FetchUserStats | stores/sessionStore.ts:103-113 | the fetched statistics replace the cached ones |
| SessionStore.SessionState.FetchHeatmapData | stores/sessionStore.ts:115-125 | the fetched heatmap replaces the cached one |
| SessionStore.SessionState.TodayFocusSeconds | stores/sessionStore.ts:127-132 | 0 when no aggregate is dated today; otherwise the seconds of the aggregate at the first position dated today |
| SessionStore.SessionState.TodaySessionCount | stores/sessionStore.ts:134-139 | 0 when no aggregate is dated today; otherwise the session count of the aggregate at the first position dated today |
| SessionStore.SessionState.WeekData | stores/sessionStore.ts:141-157 | seven bars from Sunday on, each the rounded minutes of that day's first aggregate |
| SessionStore.SessionState.ClearError | stores/sessionStore.ts:159 | only the error is cleared |
| SessionStore.WeekStartsOnSunday | stores/sessionStore.ts:144-150 | the chart starts on a Sunday at most six days back and covers seven consecutive days |
| SessionStore.KeyMinutesOf | stores/sessionStore.ts:152-153 | a day without an aggregate shows 0; a day with one shows its seconds rounded to minutes |
| SessionStore.LocalDateShape | stores/sessionStore.ts:163-168 | the local date key of a 4-digit year is the zero-padded `YYYY-MM-DD` |
| SessionStore.LocalDateRoundTrip | stores/sessionStore.ts:163-168 | the backend parses the key back to the same date, so distinct dates give distinct keys |
| SettingsStore.SettingsState.FetchSettings | stores/settingsStore.ts:23-37 | the fetched map replaces the cache |
| SettingsStore.SettingsState.constructor | stores/settingsStore.ts:18-21 | the store starts with no settings, not loading, without error |
| SettingsStore.SettingsState.GetSetting | stores/settingsStore.ts:39-41 | the cached value for the key, or undefined |
| SettingsStore.SettingsState.SetSetting | stores/settingsStore.ts:43-58 | once the service succeeds, the key holds the value in the cache |
| SettingsStore.SettingsState.DeleteSetting | stores/settingsStore.ts:60-76 | once the service succeeds, the key leaves the cache |
| SettingsStore.SettingsState.ClearError | stores/settingsStore.ts:78 | only the error is cleared |
| SettingsStore.CoherentIsGetAll | stores/settingsStore.ts:29-30 | a cache agrees with the table exactly when it equals the backend's full read |
| SettingsStore.SetKeepsCoherent | stores/settingsStore.ts:51-53 | a successful set on both sides keeps cache and table in agreement |
| SettingsStore.DeleteKeepsCoherent | stores/settingsStore.ts:68-71 | a successful delete on both sides keeps cache and table in agreement |
| UserStore.UserState.Initialize | stores/userStore.ts:26-40 | the loaded profile becomes the user; initialised is set whatever the outcome |
| UserStore.UserState.constructor | stores/userStore.ts:20-24 | the store starts signed out and not initialised |
| UserStore.UserState.FetchUser | stores/userStore.ts:42-53 | the profile is reloaded; the initialised flag is untouched |
| UserStore.UserState.CreateUser | stores/userStore.ts:55-67 | the created profile becomes the user; a failure is recorded and returned |
| UserStore.UserState.UpdateUser | stores/userStore.ts:69-87 | without a user nothing happens; otherwise the returned profile replaces it |
| UserStore.UserState.Logout | stores/userStore.ts:89-104 | a user is deleted on the backend and then cleared; a failure keeps the user |
| UserStore.UserState.ClearError | stores/userStore.ts:106 | only the error is cleared |
| FocusTimer.Delay | components/FocusTimer.tsx:73-128 | forming waits 500 ms; every dissolving callback waits 400 ms |
| FocusTimer.Timer.constructor | components/FocusTimer.tsx:18-22 | the timer starts idle at zero with no task |
| FocusTimer.Completion | components/FocusTimer.tsx:108-116 | a session is reported exactly when time has elapsed, and an empty task id is not passed on |
| FocusTimer.Timer.OrbClick | components/FocusTimer.tsx:69-86 | idle starts forming, running starts dissolving, and clicks during an animation are ignored |
| FocusTimer.Timer.Resume | components/FocusTimer.tsx:123-130 | only an idle timer with time on it starts forming |
| FocusTimer.Timer.Press | components/FocusTimer.tsx:183 | the orb resumes when idle with time on it, and otherwise acts as a click |
| FocusTimer.Timer.Reset | components/FocusTimer.tsx:88-101 | a running timer dissolves and then clears; an idle one clears at once |
| FocusTimer.Timer.Complete | components/FocusTimer.tsx:103-121 | a running timer hands the session over when the animation ends; an idle one at once; empty sessions are not reported |
| FocusTimer.Timer.FireTimeout | components/FocusTimer.tsx:73-113 | the pending callback runs; entering running restarts the clock reference so the elapsed time carries on |
| FocusTimer.Timer.Tick | components/FocusTimer.tsx:29-35 | while running, the elapsed time is the whole seconds since the reference; otherwise unchanged |
| FocusTimer.Timer.PickTask | components/FocusTimer.tsx:309-311 | a task becomes selected, or is deselected if it already was |
| FocusTimer.Incomplete | components/FocusTimer.tsx:133 | exactly the tasks that are not completed |
| FocusTimer.PickerTasks | components/FocusTimer.tsx:306 | the first five incomplete tasks, or all of them when there are fewer |
| FocusTimer.ShortTitle | components/FocusTimer.tsx:321 | titles up to 20 characters are kept; longer ones are cut to 20 and end in "..." |
| FocusTimer.FormatTime | components/FocusTimer.tsx:49-58 | below 100 hours the text reads back as hours, minutes and seconds that add up to the input |
| FocusTimer.FormatMinutes | components/FocusTimer.tsx:60-67 | the whole hours before "h " (left out when zero) and the remaining whole minutes before "m", which together are the seconds rounded down to a minute |
| FocusTimer.ResumeKeepsElapsed | components/FocusTimer.tsx:123-130 | resuming, finishing the forming step and ticking at once leaves the timer running with the same elapsed time and task |
| FocusTimer.TicksNeverLower | components/FocusTimer.tsx:29-35 | two ticks keep the state and the start; the second reading is not lower than the first, and while running each is the whole seconds since the start |
| Calendar.PrevMonth | components/Calendar.tsx:101-103 | the month before, with January carrying into December of the year before |
| Calendar.NextMonth | components/Calendar.tsx:105-107 | the month after, with December carrying into January of the year after |
| Calendar.FirstOf | components/Calendar.tsx:44 | the first day of the month |
| Calendar.LastDay | components/Calendar.tsx:45-47 | the number of days in the month, 28 to 31 |
| Calendar.Leading | components/Calendar.tsx:46 | the weekday of the first, 0 to 6 |
| Calendar.GridLength | components/Calendar.tsx:71-72 | the cells needed, rounded up to whole weeks |
| Calendar.EventFor | components/Calendar.tsx:93-99 | the first event whose date is the cell's `YYYY-MM-DD`, or none when no event has it |
| Calendar.FirstEvent | components/Calendar.tsx:98 | `find` from a position on: none exactly when no later event has the key |
| Calendar.Clicked | components/Calendar.tsx:160 | only a day of the month on view is reported |
| Calendar.IsSelected | components/Calendar.tsx:88-90 | with a selected date exactly that date is highlighted, so today is not when another day is; without one, today is |
| Calendar.CalendarView.constructor | components/Calendar.tsx:25 | the view opens on today |
| Calendar.CalendarView.GoToPrevMonth | components/Calendar.tsx:101-103 | the view moves to the first of the previous month |
| Calendar.CalendarView.GoToNextMonth | components/Calendar.tsx:105-107 | the view moves to the first of the next month |
| Calendar.CalendarView.CalendarDays | components/Calendar.tsx:40-82 | the three loops build cell k of the month's grid for every k |
| Calendar.NavigationRoundTrip | components/Calendar.tsx:101-107 | forward then back, or back then forward, returns to the same month |
| Calendar.MonthsAdjoin | components/Calendar.tsx:52-79 | the first of the next month is the day after the last of this month |
| Calendar.GridCell | components/Calendar.tsx:52-79 | every cell is a real date showing its day, cell k is k days after the grid's first cell, and a cell is marked current exactly when its date lies in the month on view; earlier cells lie in the previous month and later ones in the next |
| Calendar.GridColumns | components/Calendar.tsx:46-59 | the columns are the weekdays Sunday to Saturday |
| Calendar.GridRows | components/Calendar.tsx:70-79 | four to six whole weeks, six exactly when the month spills past 35 cells |
| Calendar.SixRowMonth | components/Calendar.tsx:70-72 | some months need six rows although the comment says five at most |
| Toasts.Lifetime | components/ToastNotification.tsx:103 | a missing or zero duration means 4000 ms |
| Toasts.ToastId | components/ToastNotification.tsx:39 | ids start with "toast-" and end with the random suffix |
| Toasts.WithId | components/ToastNotification.tsx:40 | the stored toast is the request with its id |
| Toasts.Without | components/ToastNotification.tsx:45 | exactly the toasts with other ids remain |
| Toasts.ContainerShown | components/ToastNotification.tsx:221 | the container renders exactly when a toast is queued |
| Toasts.UseToast | components/ToastNotification.tsx:26-31 | outside a provider the hook fails with its message; inside it returns the context |
| Toasts.ToastQueue.constructor | components/ToastNotification.tsx:36 | the queue starts empty |
| Toasts.ToastQueue.ShowToast | components/ToastNotification.tsx:38-42 | the toast is appended under its generated id |
| Toasts.ToastQueue.DismissToast | components/ToastNotification.tsx:44-46 | the toasts with the id leave the queue |
| Toasts.DismissUnknown | components/ToastNotification.tsx:44-46 | dismissing an id nobody has changes nothing |
| Toasts.WithoutAppend | components/ToastNotification.tsx:45 | dismissal distributes over concatenation |
| Toasts.DismissUndoesShow | components/ToastNotification.tsx:38-46 | dismissing a freshly shown toast restores the queue |
| Toasts.DismissIdempotent | components/ToastNotification.tsx:44-46 | dismissing twice is dismissing once |
| Toasts.DismissCommutes | components/ToastNotification.tsx:44-46 | the order of two dismissals does not matter |
| AddTask.CreatedToast | components/AddTaskModal.tsx:82-86 | a success toast titled "Task Created" that quotes the trimmed title |
| AddTask.TaskForm.constructor | components/AddTaskModal.tsx:49-52 | the form opens blank, To Do, 09:00 to 10:00 |
| AddTask.TaskForm.Edit | components/AddTaskModal.tsx:49-52 | the fields take the entered values |
| AddTask.TaskForm.Save | components/AddTaskModal.tsx:57-87 | a blank title does nothing; otherwise the trimmed draft is saved on the local date, the form resets and closes, and the toast is shown |
| AddTask.SavedTitleIsTrimmed | components/AddTaskModal.tsx:58-67 | a saved title is non-empty and has no whitespace at either end |
| AddTask.TrimOfTrimmed | components/AddTaskModal.tsx:67 | trimming a trimmed title changes nothing |
| AddTask.BlankCannotSave | components/AddTaskModal.tsx:58 | an all-whitespace title cannot be saved, matching the disabled button |
| AppShell.DotColor | App.tsx:16-20 | each category has its dot colour |
| AppShell.Merge | App.tsx:84-86 | each profile field comes from the update when given, else stays |
| AppShell.ToggleById | App.tsx:78-82 | same length; the tasks with the id flip their flag and the others stay |
| AppShell.DatedOn | App.tsx:51-55 | exactly the tasks on the date key |
| AppShell.TasksInMonth | App.tsx:58-63 | exactly the tasks in the selected month |
| AppShell.InMonthOf | App.tsx:58-63 | a task matches only when its date parses; a task dated with the written form of a day matches exactly when that day is in the selected month and year |
| AppShell.CalendarEventsAsWritten | App.tsx:58-67 | as written, each event carries the day of the month as a number |
| AppShell.FindAsWritten | components/Calendar.tsx:93-98 | as written, `find` compares the event's value with the date string |
| AppShell.CalendarEvents | App.tsx:58-67 | one event per task of the month, carrying its task's date and its dot colour |
| AppShell.Shell.constructor | App.tsx:43-48 | the shell opens with no tasks, the default user and today selected |
| AppShell.Shell.AddTask | App.tsx:69-76 | the new task is appended with the clock as its id and not completed |
| AppShell.Shell.ToggleTask | App.tsx:78-82 | the tasks with the id flip their flag |
| AppShell.Shell.UpdateUser | App.tsx:84-86 | the profile is merged with the update |
| AppShell.Shell.Upgrade | App.tsx:145-148 | the user becomes premium and the sub-page closes |
| AppShell.Shell.SelectDate | App.tsx:167 | the clicked date becomes the selection |
| AppShell.Shell.TasksForSelectedDate | App.tsx:51-55 | exactly the tasks whose date is the selected local date |
| AppShell.ToggleTwice | App.tsx:78-82 | toggling twice restores the list |
| AppShell.MergeIdempotent | App.tsx:84-86 | merging an update twice is merging once, and an empty update changes nothing |
| AppShell.TasksForDateAsWritten | App.tsx:51-55 | as written, the key is the UTC date of local midnight |
| AppShell.AddedTaskIsListed | App.tsx:51-55 | a task saved on the selected date is listed for it |
| AppShell.AddedTaskHiddenEastAsWritten | App.tsx:51-55 | as written, east of UTC a task saved on the selected date is not listed |
| AppShell.NoDotAsWritten | App.tsx:64-66 | as written, no calendar cell ever finds an event |
| AppShell.NoDotCounterexample | App.tsx:64-66 | a task today gives no dot, as written |
| AppShell.DotShown | App.tsx:58-67 | with the date carried, a task's cell shows a dot of its category's colour |
| StatsPage.HeatKey | components/StatsPage.tsx:71 | the corrected key: for four-digit years, chrono's rendering of the square's own date |
| StatsPage.HeatKeyParses | components/StatsPage.tsx:71 | the corrected key parses back to the square's date |
| StatsPage.ValueOnIsLatest | components/StatsPage.tsx:67 | a square shows the value of the last entry for its day |
| StatsPage.ValueOn | components/StatsPage.tsx:67-72 | by the corrected key: a day without entries shows 0, and otherwise the value of one of its entries |
| StatsPage.HeatKeyAsWritten | components/StatsPage.tsx:71 | as written, the key is the UTC date of local midnight |
| StatsPage.HeatKeyShiftedEast | components/StatsPage.tsx:71 | as written, east of UTC each square reads the previous day's entry |
| StatsPage.HeatmapStart | components/StatsPage.tsx:56-61 | the Sunday on or before the 1st of January |
| StatsPage.YearEndAdjoins | components/StatsPage.tsx:57 | the 1st of January follows the 31st of December |
| StatsPage.MaxAfterPush | components/StatsPage.tsx:73-75 | the running maximum after a push is the maximum with the new value |
| StatsPage.FlatClose | components/StatsPage.tsx:77-80 | closing a week appends its squares to the flattened grid |
| StatsPage.NextSquareDate | components/StatsPage.tsx:82 | `setDate(getDate() + 1)` moves to the next day |
| StatsPage.PushSquare | components/StatsPage.tsx:72-80 | a square joins the open week, and a full week is closed; squares stay consecutive days (values read by the corrected key) |
| StatsPage.CollectWeeks | components/StatsPage.tsx:69-85 | the loop builds whole weeks of consecutive days reaching past the year end, and the maximum of their values (values read by the corrected key) |
| StatsPage.BuildHeatmap | components/StatsPage.tsx:55-89 | the grid starts on the Sunday before the year and ends in the week of the 31st, with the largest value (values read by the corrected key) |
| StatsPage.GridSquare | components/StatsPage.tsx:69-85 | square i of week w is that many days after the start and shows that day's value (values read by the corrected key) |
| StatsPage.StartIsSunday | components/StatsPage.tsx:60-61 | the grid's first day is a Sunday within the six days before the year |
| StatsPage.HeatmapWeekdays | components/StatsPage.tsx:69-80 | row i of every column is weekday i |
| StatsPage.GridCoversYear | components/StatsPage.tsx:69-85 | every day of the year has its square |
| StatsPage.FlatMembers | components/StatsPage.tsx:75-80 | the flattened grid holds exactly the squares of the weeks |
| StatsPage.MaxOfIsMax | components/StatsPage.tsx:73 | the running maximum is non-negative, bounds every square, and is 0 or attained |
| StatsPage.HeatmapMax | components/StatsPage.tsx:73 | the maximum is attained and bounds every square, or is 0 |
| StatsPage.ShortMonthName | components/StatsPage.tsx:100 | a month's three-letter English name |
| StatsPage.LabelFor | components/StatsPage.tsx:99-102 | the label names the week's first month and its column |
| StatsPage.WeekMonthsInOrder | components/StatsPage.tsx:94-104 | weeks starting in the year start in months that never go back |
| StatsPage.LatestInYearWeek | components/StatsPage.tsx:93-103 | the month last labelled is that of an earlier week in the year |
| StatsPage.MonthLabels | components/StatsPage.tsx:92-106 | a label for each week that starts a new month of the year, in column order |
| StatsPage.LabelsOncePerMonth | components/StatsPage.tsx:92-106 | labels go forward month by month, so no month is named twice |
| StatsPage.ShadeLevel | components/StatsPage.tsx:111-118 | one of five shades, the empty shade exactly for 0, the lightest for a negative quotient |
| StatsPage.ShadeIsQuarters | components/StatsPage.tsx:111-118 | a positive value's shade is its quarter of the maximum |
| StatsPage.ShadeMonotone | components/StatsPage.tsx:111-118 | more minutes never give a lighter shade, and the maximum gets the darkest |
| StatsPage.SquareShown | components/StatsPage.tsx:295-304 | a square is coloured exactly when its day is in the selected year and not after today |
| StatsPage.FormatDuration | components/StatsPage.tsx:120-127 | the text ends in "m"; under an hour it is the minutes, otherwise whole hours before "h " and the remaining minutes, which add up to the input |
| StatsPage.SummaryOf | components/StatsPage.tsx:46-52 | zeros without statistics; otherwise minutes rounded from seconds, and an average only over a positive session count |
| StatsPage.AverageWithinTotal | components/StatsPage.tsx:50-52 | the average session is never more than the total |
| StatsPage.EntryDate | components/StatsPage.tsx:139 | an entry's date, when its key is a date |
| StatsPage.ChronoEntry | components/StatsPage.tsx:139 | an entry keyed by the backend's date text reads as that date |
| StatsPage.AverageOfEqual | components/StatsPage.tsx:325-327 | the average of equal values is that value |
| StatsPage.OnWeekdayAsWritten | components/StatsPage.tsx:324 | as written, the weekday of UTC midnight seen in local time |
| StatsPage.OnWeekday | components/StatsPage.tsx:324 | corrected: an entry is in a weekday's row exactly when its own date falls on that weekday |
| StatsPage.WeekdayAverage | components/StatsPage.tsx:324-327 | a weekday without entries averages 0; otherwise the sum of its entries divided by their number, rounded to the nearest integer with halves up |
| StatsPage.WeekdayBefore | components/StatsPage.tsx:324 | the day before falls on the previous weekday, never the same one |
| StatsPage.WeekdayAverageOfEqual | components/StatsPage.tsx:324-327 | a weekday whose entries are all equal shows that value |
| StatsPage.WeekdayShiftedWest | components/StatsPage.tsx:324 | as written, west of UTC an entry counts for the day before its own |
| StatsPage.SumBetweenSplits | components/StatsPage.tsx:137-142 | splitting the range of days splits the total |
| StatsPage.SumBetweenOutside | components/StatsPage.tsx:137-142 | entries outside the range add nothing |
| StatsPage.SingleWithin | components/StatsPage.tsx:139-140 | as written, an entry counts exactly when its UTC midnight lies in the range |
| StatsPage.ThisWeekTimeAdds | components/StatsPage.tsx:132-143 | an entry adds to this week exactly when its day runs from Sunday through today |
| StatsPage.ThisMonthTimeAdds | components/StatsPage.tsx:145-155 | an entry adds to this month exactly when its day runs from the 1st through today |
| StatsPage.ThisWeekTime | components/StatsPage.tsx:132-143 | corrected: the week's total is between 0 and the sum of all entries; on a Sunday it is today's entries alone |
| StatsPage.ThisMonthTime | components/StatsPage.tsx:145-155 | corrected: the month's total is between 0 and the sum of all entries; on the 1st it is today's entries alone |
| StatsPage.ThisWeekTimeAsWritten | components/StatsPage.tsx:132-143 | as written, the week's total is still between 0 and the sum of all entries |
| StatsPage.ThisMonthTimeAsWritten | components/StatsPage.tsx:145-155 | as written, the month's total is still between 0 and the sum of all entries |
| StatsPage.WeekSundayDroppedAsWritten | components/StatsPage.tsx:132-143 | as written, this week's Sunday is left out once the local time passes the offset |
| StatsPage.MonthFirstDroppedAsWritten | components/StatsPage.tsx:145-155 | as written, west of UTC the 1st of the month is left out |
| StatsPage.StatsView.constructor | components/StatsPage.tsx:27 | the page opens on the current year |
| StatsPage.StatsView.PreviousYear | components/StatsPage.tsx:199 | one year back |
| StatsPage.StatsView.NextYear | components/StatsPage.tsx:206-208 | one year on, never past the current year |
| AchievementsPage.OrDefault | components/AchievementsPage.tsx:26-30 | a given figure is used; a missing one takes its default |
| AchievementsPage.FiguresOf | components/AchievementsPage.tsx:26-30 | the defaults are 7, 23, 1250, 48 and 156 |
| AchievementsPage.UnlockedCount | components/AchievementsPage.tsx:105 | the number of unlocked goals, 0 exactly when none is |
| AchievementsPage.ConditionsMet | components/AchievementsPage.tsx:39-101 | one for first-focus plus one per threshold reached |
| AchievementsPage.GoalsShape | components/AchievementsPage.tsx:32-103 | seven goals with distinct ids; the first is always unlocked |
| AchievementsPage.UnlockRules | components/AchievementsPage.tsx:51-101 | each goal is unlocked exactly when its figure reaches its threshold |
| AchievementsPage.HourProgress | components/AchievementsPage.tsx:69-79 | both hour goals show the whole hours of focus time |
| AchievementsPage.CenturyImpliesTimeKeeper | components/AchievementsPage.tsx:71-81 | 100 hours unlocks 10 hours too |
| AchievementsPage.UnlockedCountIsConditionsMet | components/AchievementsPage.tsx:105 | the header's count is the number of conditions met, from 1 to 7 |
| AchievementsPage.AllUnlocked | components/AchievementsPage.tsx:32-105 | all seven are unlocked exactly when every threshold is reached |
| HomePage.Greeting | components/HomePage.tsx:17-22 | morning before 12, afternoon before 18, evening after |
| HomePage.FormatTime | components/HomePage.tsx:34-38 | whole hours and JavaScript's remainder, which for non-negative minutes add up to the input |
| HomePage.MaxValue | components/HomePage.tsx:45 | at least 1, bounds every day, and is 1 or one of the days |
| HomePage.MinutesText | components/HomePage.tsx:173 | the minutes show as at least two characters, and within the hour as two digits that read back as the minutes |
| HomePage.MaxValueIsLargest | components/HomePage.tsx:45 | the maximum is the largest day when a day reaches 1, and 1 otherwise |
| HomePage.WeeklyTotal | components/HomePage.tsx:161 | for non-negative days, the weekly total shows hours and minutes under 60 that add up to the sum |
| HomePage.WeekSum | components/HomePage.tsx:161 | the sum of no days is 0; for non-negative days the sum is at least every day |
| I18n.NormalizeLanguage | i18n/index.ts:11-13 | Chinese exactly for "zh"; English for anything else, including none |
| I18n.LanguageToLocale | i18n/index.ts:15-17 | zh-CN for Chinese, en-US for English |
| I18n.NormalizeIdempotent | i18n/index.ts:6-13 | a supported language is its own normal form |
| I18n.LocalesDistinct | i18n/index.ts:15-17 | the two languages have different locales |
| Dates.ParseDate | src-tauri/src/commands/session.rs:248-251 | chrono's `%Y-%m-%d` parser: success gives a valid date in chrono's range |
| Dates.ParseFormatRoundTrip | src-tauri/src/commands/session.rs:236-251 | a date written by chrono's `%Y-%m-%d` parses back to itself |
| Dates.RenderingsAgree | stores/sessionStore.ts:163-168 | for 4-digit years the chrono, local and ISO renderings agree |
| Dates.ChronoYear | src-tauri/src/commands/session.rs:236-239 | chrono's `%Y`: four digits for 0 to 9999, otherwise a sign and at least three digits |
| Dates.ChronoFormat | src-tauri/src/commands/session.rs:236-239 | chrono's `%Y-%m-%d`: the year text, then the month and the day in two digits each after a dash, reading back as the date; ten characters with a four-digit year for years 0 to 9999 |
| Dates.LocalDateFields | stores/sessionStore.ts:163-168 | the local rendering is the year's decimal text, then the month and day in two digits after dashes that read back as the date |
| Dates.IsoDateString | App.tsx:53 | years 0 to 9999 give ten characters: four digits reading back as the year, then the dashed month and day; other years begin with their sign |
| Dates.DayNumberInYear | src-tauri/src/commands/session.rs:254 | a day's number lies in its year's block of consecutive numbers, is not negative from year 1 on, and 0001-01-01 is day 0 |
| Dates.UtcDateOfLocalMidnight | App.tsx:53 | the UTC date that contains local midnight of the day, which `toISOString()` prints |
| Dates.LocalDateOfUtcMidnight | components/StatsPage.tsx:324 | the local date that contains UTC midnight of the day, which `getDay()` reads |
| Dates.DaysInMonth | components/Calendar.tsx:45-47 | 28 to 31 days, 29 exactly for February of a leap year |
| Dates.NextDay | components/StatsPage.tsx:82 | the next day's day number is one more |
| Dates.PrevDay | components/Calendar.tsx:52-57 | the previous day's day number is one less |
| Dates.Weekday | stores/sessionStore.ts:146 | `getDay()`: a weekday from 0 for Sunday to 6 |
| Dates.WeekdayAnchors | stores/sessionStore.ts:146 | the numbering agrees with the calendar: 1970-01-01 is 4 (Thursday), 2024-01-01 is 1 (Monday), 2024-12-29 is 0 (Sunday) |
| Dates.AddDays | components/Calendar.tsx:53-78 | a move by any number of days is a valid date |
| Text.Trim | components/AddTaskModal.tsx:58 | `TrimmedOf`: a slice of the input from which only whitespace was dropped at either end, leaving none at either end; empty exactly for all-whitespace input |
| Text.MinutesPart | components/HomePage.tsx:36 | JavaScript's `% 60`: the sign of the dividend, and the usual remainder for non-negative input |

## Left out

- The connection mutex and lock poisoning: each command runs alone against the tables.
- The migration SQL itself is not visible. The initial batch is one opaque step that succeeds or fails.
- Session.GetUserStats: a failing SUM, COUNT or tasks query (src-tauri/src/commands/session.rs:184-199) is not modelled. Only the streaks' date-parse errors are.
- TaskCommands.GetTasks: a failing query or a row that cannot be decoded is not modelled. The command always returns the rows.
- Session.GetFocusSessions, Session.GetDailyStats, Session.GetHeatmapData: a failing `query_map` or `collect` is not modelled. The commands always return the rows.
- The streak queries' own `query_map` and `collect` errors are not modelled. Their date-parse errors are.
- TaskCommands.ToggleSpec: the flag's SELECT can fail with another error than no rows. Only no rows and a failing UPDATE are modelled.
- `export_all_data`'s query failures are modelled (the `ExportFaults` parameter): the user query's, the four listing queries' and unreadable settings rows. So are the import's statement failures (`ImportFaults`) and the migrations' (`MigrationFaults`, `InitFaults`).
- chrono's parser also skips whitespace around literals. The model accepts exactly the digits-and-dashes form.
- JavaScript `Date` parsing of `YYYY-MM-DD` text is modelled by the same date parser as the backend's.
- The local time zone is one fixed offset. Daylight-saving changes are not modelled.
- Floating-point arithmetic is not modelled. `getColor`'s quotient is compared exactly as a rational. The curve coordinates, the progress percentages and the SVG paths are left out.
- Text that depends on the locale is left out: `toLocaleDateString` titles, the weekday and month headers, `Intl` formatting.
- UserCommands.GetUser: the query has no ORDER BY, so SQLite may return any user. The model picks the least id.
- AchievementCommands.UnlockedAt: when several rows exist the model takes the least id's time, where SQLite may take any.
- DataExport.ExportAchievements: the query has no ORDER BY. The model lists the user's achievements in id order.
- Session.GetFocusSessions: sessions with equal start times come in reverse id order in the model. SQLite leaves ties unordered, and the contract says nothing about them.
- TaskCommands.GetTasks: tasks the ORDER BY ties come in whatever order the model's sort leaves them. SQLite leaves ties unordered, and the contract says nothing about them.
- DataExport.SettingKeys: the model visits the snapshot's settings keys in ascending order. The source walks a HashMap, whose order is unspecified. That order decides which UUID each new settings row gets and which `ImportFaults` position hits which key.
- Integers are unbounded; i64 overflow of the totals is not modelled.
- UUID and timestamp freshness are inputs: the model takes the ids and times as parameters.
- The frontend services are not modelled. Store methods take the service call's outcome as a parameter.
- The sound and vibration feedback of `triggerFeedback` is left out.
- `createSession` also starts refreshes without waiting for them. Their effect is the separate fetch methods.
- Timers and intervals are explicit steps, `FireTimeout` and `Tick`.
- Two asynchronous store actions that interleave are not modelled; each action runs to completion.
- FocusTimer.Timer.Tick: assumes the clock does not run backwards past the start reference.
- String lengths are counted in characters, not in UTF-16 code units as JavaScript does.
- AppShell.Merge: a `Partial<User>` key present with the value `undefined` overwrites the field in JavaScript. The model treats it as absent.
- App's local `Task` carries no `userId` or `createdAt`. The model's scheduled task has only the fields the shell uses.
- Toast auto-dismissal after the lifetime, and its progress bar, are left out.
- AppShell.Shell.constructor: App's initial `selectedDate` is `new Date()`, a moment during today. The model takes the start of today. The as-written start-up selection is not modelled: its `toISOString()` key (App.tsx:53) depends on the time of day, and east of UTC it is today's date once the local time passes the offset. AddedTaskHiddenEastAsWritten covers only local midnights picked on the calendar.
- AppShell.InMonthOf compares a task's date fields without a time zone.
- StatsPage.PushSquare: the squares' values are read by the corrected key `HeatKey`, the local date. The source reads them by `toISOString()`, which differs east of UTC (`HeatKeyShiftedEast`, `HeatKeyAsWritten`). The grid built with the source's key is not modelled.
- StatsPage.CollectWeeks: builds the weeks with the corrected key, as for `PushSquare`. The as-written key is not modelled here.
- StatsPage.BuildHeatmap: builds the grid, and so `maxValue`, with the corrected key, as for `PushSquare`. The as-written key is not modelled here.
- StatsPage.GridSquare: gives each square's value by the corrected key, as for `PushSquare`. The as-written key is not modelled here.
- The heatmap loop's trailing partial-week push cannot run, because the loop only ends on a closed week. The model has no such branch.
- The current weekday (`getDay()`), the hour, today and now are parameters.
- Session.AggregateKey: Rust slices `started_at` at byte 10. That is the same as ten characters for ASCII timestamps, which is what the model counts. A `started_at` shorter than ten bytes, or with a non-ASCII character across byte 10, makes the source panic. The model requires at least ten characters.
- UserCommands.DeleteUser: the source clears `user_achievements` (src-tauri/src/commands/user.rs:152), a table no other command uses, so the user's `achievements` rows and `daily_stats` rows are not deleted. The model keeps them too. After a delete, other commands may still see those rows, and the exact daily aggregates no longer hold for that user. The schema is not part of this model, so this is not claimed as a finding.

## Findings

| source | as written | input that shows it | evidently intended | confidence | as-written member | corrected member |
|---|---|---|---|---|---|---|
| src-tauri/src/commands/user.rs:86-88 | the `is_premium` clause does not advance `param_idx`, so the WHERE reuses its index and one value too many is bound | `update_user` with `is_premium: Some(true)` (the premium upgrade) | the premium flag is written like the other fields | not executed | UserCommands.UpgradeCounterexample | UserCommands.UpdateUserSpec |
| App.tsx:64-66 | calendar events carry `getDate()`, a number, compared with `===` to a `YYYY-MM-DD` string | any task in the selected month | the cell of each task's date shows a dot | not executed | AppShell.NoDotAsWritten | AppShell.DotShown |
| components/StatsPage.tsx:71 | the square's key is `toISOString()` of local midnight, which is the previous UTC date east of UTC | zone UTC+8: the square for 14 Oct 2026 reads the entry of 13 Oct | each square shows its own day | not executed | StatsPage.HeatKeyShiftedEast | StatsPage.ValueOnIsLatest |
| components/StatsPage.tsx:132-143 | `startOfWeek` keeps the current time of day while the entry is at midnight, so Sunday's entry is before the start | any time after midnight in UTC, an entry dated this Sunday | Sunday counts towards this week | not executed | StatsPage.WeekSundayDroppedAsWritten | StatsPage.ThisWeekTimeAdds |
| components/StatsPage.tsx:145-155 | the 1st's UTC midnight is before local midnight of the 1st west of UTC | zone UTC-5, an entry dated the 1st of this month | the 1st counts towards this month | not executed | StatsPage.MonthFirstDroppedAsWritten | StatsPage.ThisMonthTimeAdds |
| components/StatsPage.tsx:324 | `getDay()` of the entry's UTC midnight is the previous local day west of UTC | zone UTC-5, an entry dated a Monday is averaged under Sunday | each entry is averaged under its own weekday | not executed | StatsPage.WeekdayShiftedWest | StatsPage.OnWeekday |
| App.tsx:51-55 | the selected date's key is `toISOString()` of local midnight, the previous UTC date east of UTC, while saved tasks carry the local date (the comment at components/AddTaskModal.tsx:60 shows that intent) | zone UTC+8, save a task on the selected day: it is not listed | a task saved on the selected date is listed | not executed | AppShell.AddedTaskHiddenEastAsWritten | AppShell.AddedTaskIsListed |
