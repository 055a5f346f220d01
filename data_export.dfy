/**
 * Whole-account export and import. The export reads one user's profile, focus
 * sessions, tasks, achievements and settings into a snapshot; the import
 * reconciles a snapshot into the store: the profile is created only if absent,
 * sessions, tasks and achievements are inserted only if their id is absent
 * (`INSERT OR IGNORE`), settings are upserted, and four counters count the
 * statements that returned Ok. The clock, the UUIDs and the statements that
 * fail are parameters.
 */
module DataExport {
  import opened Wrappers
  import opened Text
  import opened Collections
  import opened Db
  import opened SessionModel
  import opened UserModel
  import TaskModel
  import AchievementModel
  import TaskCommands
  import UserCommands
  import opened SettingsCommands

  /** `ExportData`: the snapshot format. */
  datatype ExportData = ExportData(
    version: string, exportedAt: string, user: User, focusSessions: seq<FocusSession>,
    tasks: seq<TaskModel.Task>, achievements: seq<AchievementModel.Achievement>, settings: map<string, string>)

  /** `ImportResult`. */
  datatype ImportResult = ImportResult(
    success: bool, sessionsImported: nat, tasksImported: nat, achievementsImported: nat,
    settingsImported: nat, message: string)

  const Version: string := "1.0"

  // ---------------------------------------------------------------------------
  // export_all_data
  // ---------------------------------------------------------------------------

  /** Which export queries fail (the user query with an error other than no rows), and which settings rows cannot be
    * read as text. */
  datatype ExportFaults = ExportFaults(
    user: Option<string>, sessions: Option<string>, tasks: Option<string>, achievements: Option<string>,
    settings: Option<string>, unreadable: set<string>)

  const NoExportFaults: ExportFaults := ExportFaults(None, None, None, None, None, {})

  function SessionOf(id: string, row: SessionRow): FocusSession
  {
    FocusSession(id, row.userId, row.durationSeconds, row.startedAt, row.endedAt, row.category, row.notes, row.createdAt)
  }

  /** An achievement row read back: an unknown token reads as `FirstSession`. */
  function AchievementOf(id: string, row: AchievementRow): (a: AchievementModel.Achievement)
    ensures a.achievementType == (if AchievementModel.FromStr(row.achievementType).Some?
      then AchievementModel.FromStr(row.achievementType).value else AchievementModel.FirstSession)
    ensures row.achievementType !in AchievementModel.Tokens ==> a.achievementType == AchievementModel.FirstSession
  {
    var t := match AchievementModel.FromStr(row.achievementType)
      case Some(t) => t
      case None => AchievementModel.FirstSession;
    AchievementModel.Achievement(id, row.userId, t, row.unlockedAt, row.metadata)
  }

  /** `ORDER BY started_at`. */
  predicate ByStartedAt(a: FocusSession, b: FocusSession)
  {
    StrLe(a.startedAt, b.startedAt)
  }

  /** `ORDER BY date, start_time`. */
  predicate ByDateThenStartTime(a: TaskModel.Task, b: TaskModel.Task)
  {
    StrLt(a.date, b.date) || (a.date == b.date && StrLe(a.startTime, b.startTime))
  }

  lemma ExportOrdersTotal()
    ensures Total(ByStartedAt) && Total(ByDateThenStartTime)
  {
    forall a: FocusSession, b: FocusSession ensures ByStartedAt(a, b) || ByStartedAt(b, a) {
      StrLeTotal(a.startedAt, b.startedAt);
    }
    forall a: TaskModel.Task, b: TaskModel.Task ensures ByDateThenStartTime(a, b) || ByDateThenStartTime(b, a) {
      StrLeTotal(a.startTime, b.startTime);
      StrLeTotal(a.date, b.date);
    }
  }

  /** The rows with the given ids, read through `of`, in the order of the ids. */
  function RowsOf<R, T>(table: map<string, R>, ids: seq<string>, of: (string, R) -> T): (r: seq<T>)
    requires forall i | 0 <= i < |ids| :: ids[i] in table
    ensures |r| == |ids|
    ensures forall i | 0 <= i < |ids| :: r[i] == of(ids[i], table[ids[i]])
  {
    seq(|ids|, i requires 0 <= i < |ids| => of(ids[i], table[ids[i]]))
  }

  /** The selected rows in id order, read through `of`. */
  function SelectedRows<R, T(!new)>(table: map<string, R>, selected: set<string>, of: (string, R) -> T): (r: seq<T>)
    requires selected <= table.Keys
    ensures |r| == |selected|
    ensures forall t :: t in r <==> exists id | id in selected :: t == of(id, table[id])
    ensures (forall a, b | a in selected && b in selected && a != b :: of(a, table[a]) != of(b, table[b])) ==> Distinct(r)
  {
    var ids := Ascending(selected);
    assert forall i | 0 <= i < |ids| :: ids[i] in ids;
    var r := RowsOf(table, ids, of);
    forall i, j | 0 <= i < j < |ids| ensures ids[i] != ids[j] {
      assert StrLt(ids[i], ids[j]);
    }
    forall t ensures t in r <==> exists id | id in selected :: t == of(id, table[id]) {
      if t in r {
        var i :| 0 <= i < |r| && r[i] == t;
        assert ids[i] in selected;
      }
      if exists id | id in selected :: t == of(id, table[id]) {
        var id :| id in selected && t == of(id, table[id]);
        var i :| 0 <= i < |ids| && ids[i] == id;
        assert r[i] == t;
      }
    }
    r
  }

  /** A reordering holds the same elements, as many. */
  lemma Permuted<T>(rows: seq<T>, r: seq<T>)
    requires multiset(r) == multiset(rows)
    ensures |r| == |rows|
    ensures forall t :: t in r <==> t in rows
  {
    forall t ensures t in r <==> t in rows {
      assert t in r <==> t in multiset(r);
      assert t in rows <==> t in multiset(rows);
    }
    assert |r| == |multiset(r)| == |multiset(rows)| == |rows|;
  }

  function UserSessionIds(sessions: map<string, SessionRow>, u: string): (ids: set<string>)
    ensures ids <= sessions.Keys
  {
    set id | id in sessions && sessions[id].userId == u
  }

  /** The user's sessions by start time; sessions the ordering ties come in id order. */
  function ExportSessions(sessions: map<string, SessionRow>, u: string): (r: seq<FocusSession>)
    ensures |r| == |UserSessionIds(sessions, u)|
    ensures forall x | x in r :: x.id in sessions && sessions[x.id].userId == u && x == SessionOf(x.id, sessions[x.id])
    ensures forall id | id in sessions && sessions[id].userId == u :: SessionOf(id, sessions[id]) in r
    ensures SortedBy(r, ByStartedAt)
    ensures forall i, j | 0 <= i < j < |r| :: r[i].id != r[j].id
  {
    ExportOrdersTotal();
    SortedSessionsRows(sessions, u);
    SortedSessionsDistinct(sessions, u);
    SortBy(SelectedRows(sessions, UserSessionIds(sessions, u), SessionOf), ByStartedAt)
  }

  /** The sorted export holds exactly the user's rows, one per id. */
  lemma SortedSessionsRows(sessions: map<string, SessionRow>, u: string)
    ensures var r := SortBy(SelectedRows(sessions, UserSessionIds(sessions, u), SessionOf), ByStartedAt);
      |r| == |UserSessionIds(sessions, u)| &&
      (forall x | x in r :: x.id in sessions && sessions[x.id].userId == u && x == SessionOf(x.id, sessions[x.id])) &&
      (forall id | id in sessions && sessions[id].userId == u :: SessionOf(id, sessions[id]) in r)
  {
    var selected := UserSessionIds(sessions, u);
    var rows := SelectedRows(sessions, selected, SessionOf);
    Permuted(rows, SortBy(rows, ByStartedAt));
    assert forall id | id in selected :: SessionOf(id, sessions[id]).id == id;
  }

  /** No two sessions of the sorted export share an id. */
  lemma SortedSessionsDistinct(sessions: map<string, SessionRow>, u: string)
    ensures var r := SortBy(SelectedRows(sessions, UserSessionIds(sessions, u), SessionOf), ByStartedAt);
      forall i, j | 0 <= i < j < |r| :: r[i].id != r[j].id
  {
    var selected := UserSessionIds(sessions, u);
    var rows := SelectedRows(sessions, selected, SessionOf);
    var r := SortBy(rows, ByStartedAt);
    Permuted(rows, r);
    assert forall id | id in selected :: SessionOf(id, sessions[id]).id == id;
    SessionsDiffer(sessions, selected);
    DistinctPermuted(rows, r);
    SessionIdsDiffer(sessions, r);
  }

  /** Rows read from two different ids are two different sessions. */
  lemma SessionsDiffer(sessions: map<string, SessionRow>, selected: set<string>)
    requires selected <= sessions.Keys
    ensures forall a, b | a in selected && b in selected && a != b :: SessionOf(a, sessions[a]) != SessionOf(b, sessions[b])
  {
    forall a, b | a in selected && b in selected && a != b
      ensures SessionOf(a, sessions[a]) != SessionOf(b, sessions[b])
    {
      assert SessionOf(a, sessions[a]).id == a && SessionOf(b, sessions[b]).id == b;
    }
  }

  /** Sessions without repeats, each read from its own row, have distinct ids. */
  lemma SessionIdsDiffer(sessions: map<string, SessionRow>, r: seq<FocusSession>)
    requires Distinct(r)
    requires forall x | x in r :: x.id in sessions && x == SessionOf(x.id, sessions[x.id])
    ensures forall i, j | 0 <= i < j < |r| :: r[i].id != r[j].id
  {
    forall i, j | 0 <= i < j < |r| ensures r[i].id != r[j].id {
      assert r[i] in r && r[j] in r;
    }
  }

  /** The user's tasks by date, then start time; an unknown category token reads as To Do. */
  function ExportTasks(tasks: map<string, TaskRow>, u: string): (r: seq<TaskModel.Task>)
    ensures |r| == |TaskCommands.Selected(tasks, u, None)|
    ensures forall t | t in r :: t.id in tasks && tasks[t.id].userId == u && t == TaskCommands.TaskOf(t.id, tasks[t.id])
    ensures forall id | id in tasks && tasks[id].userId == u :: TaskCommands.TaskOf(id, tasks[id]) in r
    ensures SortedBy(r, ByDateThenStartTime)
  {
    ExportOrdersTotal();
    SortedTasksRows(tasks, u);
    SortBy(SelectedRows(tasks, TaskCommands.Selected(tasks, u, None), TaskCommands.TaskOf), ByDateThenStartTime)
  }

  /** The sorted export holds exactly the user's tasks, one per id. */
  lemma SortedTasksRows(tasks: map<string, TaskRow>, u: string)
    ensures var r := SortBy(SelectedRows(tasks, TaskCommands.Selected(tasks, u, None), TaskCommands.TaskOf), ByDateThenStartTime);
      |r| == |TaskCommands.Selected(tasks, u, None)| &&
      (forall t | t in r :: t.id in tasks && tasks[t.id].userId == u && t == TaskCommands.TaskOf(t.id, tasks[t.id])) &&
      (forall id | id in tasks && tasks[id].userId == u :: TaskCommands.TaskOf(id, tasks[id]) in r)
  {
    var selected := TaskCommands.Selected(tasks, u, None);
    var rows := SelectedRows(tasks, selected, TaskCommands.TaskOf);
    Permuted(rows, SortBy(rows, ByDateThenStartTime));
    assert forall id | id in selected :: TaskCommands.TaskOf(id, tasks[id]).id == id;
  }

  function UserAchievementIds(achievements: map<string, AchievementRow>, u: string): (ids: set<string>)
    ensures ids <= achievements.Keys
  {
    set id | id in achievements && achievements[id].userId == u
  }

  /** The user's achievements (the query has no ORDER BY; here in id order). */
  function ExportAchievements(achievements: map<string, AchievementRow>, u: string): (r: seq<AchievementModel.Achievement>)
    ensures |r| == |UserAchievementIds(achievements, u)|
    ensures forall a | a in r :: a.id in achievements && achievements[a.id].userId == u && a == AchievementOf(a.id, achievements[a.id])
    ensures forall id | id in achievements && achievements[id].userId == u :: AchievementOf(id, achievements[id]) in r
  {
    var selected := UserAchievementIds(achievements, u);
    assert forall id | id in selected :: AchievementOf(id, achievements[id]).id == id;
    SelectedRows(achievements, selected, AchievementOf)
  }

  /** The tables an export reads and an import writes. */
  datatype Store = Store(
    users: map<string, UserRow>, sessions: map<string, SessionRow>, tasks: map<string, TaskRow>,
    achievements: map<string, AchievementRow>, settings: Settings)

  /**
   * `export_all_data`: the first failing query ends it; a failing user query
   * is "User not found: " followed by its error, which for an unknown user is
   * rusqlite's no-rows text, and a failing query is the only other way an
   * export fails.
   */
  function ExportAllData(s: Store, u: string, now: string, f: ExportFaults): (r: Result<ExportData>)
    ensures f.user.Some? ==> r == Err("User not found: " + f.user.value)
    ensures u !in s.users && f.user.None? ==> r == Err("User not found: " + NoRows)
    ensures u in s.users && f.user.None? && f.sessions.Some? ==> r == Err(f.sessions.value)
    ensures r.Ok? <==> u in s.users && f.user.None? && f.sessions.None? && f.tasks.None? && f.achievements.None? && f.settings.None?
  {
    if f.user.Some? then Err("User not found: " + f.user.value) else
    match UserCommands.GetUserById(s.users, u)
    case Err(e) => Err("User not found: " + e)
    case Ok(user) =>
      if f.sessions.Some? then Err(f.sessions.value)
      else if f.tasks.Some? then Err(f.tasks.value)
      else if f.achievements.Some? then Err(f.achievements.value)
      else
        match GetAllSettings(s.settings, u, f.unreadable, f.settings)
        case Err(e) => Err(e)
        case Ok(settings) =>
          Ok(ExportData(Version, now, user, ExportSessions(s.sessions, u), ExportTasks(s.tasks, u),
                        ExportAchievements(s.achievements, u), settings))
  }

  /** What a successful export holds: version 1.0, the profile, and only (and all of) that user's rows. */
  lemma ExportContents(s: Store, u: string, now: string, f: ExportFaults)
    requires ExportAllData(s, u, now, f).Ok?
    ensures var d := ExportAllData(s, u, now, f).value;
      u in s.users && d.version == "1.0" && d.exportedAt == now && d.user == UserCommands.UserOf(u, s.users[u]) &&
      (forall x | x in d.focusSessions :: x.userId == u && x.id in s.sessions) &&
      (forall id | id in s.sessions && s.sessions[id].userId == u :: SessionOf(id, s.sessions[id]) in d.focusSessions) &&
      SortedBy(d.focusSessions, ByStartedAt) &&
      (forall t | t in d.tasks :: t.userId == u && t.id in s.tasks) &&
      (forall id | id in s.tasks && s.tasks[id].userId == u :: TaskCommands.TaskOf(id, s.tasks[id]) in d.tasks) &&
      SortedBy(d.tasks, ByDateThenStartTime) &&
      (forall a | a in d.achievements :: a.userId == u && a.id in s.achievements) &&
      (forall k :: k in d.settings <==> (u, k) in s.settings && k !in f.unreadable) &&
      (forall k | k in d.settings :: d.settings[k] == s.settings[(u, k)].value)
  {
  }

  // ---------------------------------------------------------------------------
  // import_data: the reconciliation of each table
  // ---------------------------------------------------------------------------

  /** Insert-if-absent of a stored record: an existing row with the same id is kept as it is. */
  function InsertOrIgnore<R>(table: map<string, R>, id: string, row: R): map<string, R>
  {
    if id in table then table else table[id := row]
  }

  /**
   * The first `i` statements of an `INSERT OR IGNORE` loop over `xs`: each
   * record is stored under `key(x)` as `row(x, u)`, unless its statement fails
   * (a position in `faults`) or the id is taken.
   */
  function InsertedUpTo<T, R>(
    table: map<string, R>, xs: seq<T>, u: string, key: T -> string, row: (T, string) -> R, faults: map<nat, string>, i: nat)
    : map<string, R>
    requires i <= |xs|
    decreases i
  {
    if i == 0 then table
    else
      var prev := InsertedUpTo(table, xs, u, key, row, faults, i - 1);
      if i - 1 in faults then prev else InsertOrIgnore(prev, key(xs[i - 1]), row(xs[i - 1], u))
  }

  /** Existing rows keep all their fields. */
  lemma {:induction false} InsertedKeeps<T, R>(
    table: map<string, R>, xs: seq<T>, u: string, key: T -> string, row: (T, string) -> R, faults: map<nat, string>, i: nat)
    requires i <= |xs|
    ensures var r := InsertedUpTo(table, xs, u, key, row, faults, i);
      forall k | k in table :: k in r && r[k] == table[k]
    decreases i
  {
    if i > 0 { InsertedKeeps(table, xs, u, key, row, faults, i - 1); }
  }

  /** Every new row is a record of the snapshot whose statement succeeded, stored for the importing user. */
  lemma {:induction false} InsertedOrigin<T, R>(
    table: map<string, R>, xs: seq<T>, u: string, key: T -> string, row: (T, string) -> R, faults: map<nat, string>, i: nat)
    requires i <= |xs|
    ensures var r := InsertedUpTo(table, xs, u, key, row, faults, i);
      forall k | k in r && k !in table :: exists j | 0 <= j < i :: j !in faults && key(xs[j]) == k && r[k] == row(xs[j], u)
    decreases i
  {
    if i > 0 {
      InsertedOrigin(table, xs, u, key, row, faults, i - 1);
      var prev := InsertedUpTo(table, xs, u, key, row, faults, i - 1);
      var r := InsertedUpTo(table, xs, u, key, row, faults, i);
      forall k | k in r && k !in table
        ensures exists j | 0 <= j < i :: j !in faults && key(xs[j]) == k && r[k] == row(xs[j], u)
      {
        if k in prev {
          var j :| 0 <= j < i - 1 && j !in faults && key(xs[j]) == k && prev[k] == row(xs[j], u);
          assert r[k] == prev[k];
        } else {
          assert key(xs[i - 1]) == k && r[k] == row(xs[i - 1], u);
        }
      }
    }
  }

  /** Without faults, every record's id is present afterwards. */
  lemma {:induction false} InsertedCovers<T, R>(
    table: map<string, R>, xs: seq<T>, u: string, key: T -> string, row: (T, string) -> R, i: nat)
    requires i <= |xs|
    ensures var r := InsertedUpTo(table, xs, u, key, row, map[], i);
      forall j | 0 <= j < i :: key(xs[j]) in r
    decreases i
  {
    if i > 0 {
      InsertedCovers(table, xs, u, key, row, i - 1);
      var prev := InsertedUpTo(table, xs, u, key, row, map[], i - 1);
      assert forall k | k in prev :: k in InsertedUpTo(table, xs, u, key, row, map[], i);
    }
  }

  /** When every record's id is present already, the loop changes nothing. */
  lemma {:induction false} InsertedStable<T, R>(
    table: map<string, R>, xs: seq<T>, u: string, key: T -> string, row: (T, string) -> R, faults: map<nat, string>, i: nat)
    requires i <= |xs|
    requires forall j | 0 <= j < i :: key(xs[j]) in table
    ensures InsertedUpTo(table, xs, u, key, row, faults, i) == table
    decreases i
  {
    if i > 0 { InsertedStable(table, xs, u, key, row, faults, i - 1); }
  }

  /** The number of the first `i` statements that return Ok. */
  function OkCount(faults: map<nat, string>, i: nat): (n: nat)
    ensures n <= i
    ensures faults == map[] ==> n == i
    decreases i
  {
    if i == 0 then 0 else OkCount(faults, i - 1) + (if i - 1 in faults then 0 else 1)
  }

  function SessionKey(x: FocusSession): string { x.id }
  function TaskKey(x: TaskModel.Task): string { x.id }
  function AchievementKey(x: AchievementModel.Achievement): string { x.id }

  /** A snapshot session as inserted: it belongs to the importing user. */
  function SessionRowFrom(x: FocusSession, u: string): SessionRow
  {
    SessionRow(u, x.durationSeconds, x.startedAt, x.endedAt, x.category, x.notes, x.createdAt)
  }

  /** A snapshot task as inserted: the category as its token, completion as 0 or 1. */
  function TaskRowFrom(x: TaskModel.Task, u: string): TaskRow
  {
    TaskRow(u, x.title, TaskModel.AsStr(x.category), x.date, x.startTime, x.endTime, if x.completed then 1 else 0, x.createdAt)
  }

  function AchievementRowFrom(x: AchievementModel.Achievement, u: string): AchievementRow
  {
    AchievementRow(u, AchievementModel.AsStr(x.achievementType), x.unlockedAt, x.metadata)
  }

  /** The settings table and the number of upserts that returned Ok. */
  datatype Upserted = Upserted(settings: Settings, count: nat)

  /** The first `i` upserts of the settings loop, which visits `keys` in order and gives upsert `j` the UUID `ids[j]`. */
  function UpsertedUpTo(
    settings: Settings, u: string, keys: seq<string>, values: map<string, string>, ids: seq<string>,
    faults: map<nat, string>, i: nat)
    : (r: Upserted)
    requires i <= |keys| <= |ids|
    requires forall j | 0 <= j < |keys| :: keys[j] in values
    ensures r.count <= i
    decreases i
  {
    if i == 0 then Upserted(settings, 0)
    else
      var prev := UpsertedUpTo(settings, u, keys, values, ids, faults, i - 1);
      var w := UpsertSetting(prev.settings, u, keys[i - 1], values[keys[i - 1]], ids[i - 1], FaultAt(faults, i - 1));
      Upserted(w.settings, prev.count + if w.result.Ok? then 1 else 0)
  }

  /** The profile an import creates: the snapshot's fields, the premium flag as 0 or 1, created and updated now. */
  function ImportedUserRow(user: User, now: string): UserRow
  {
    UserRow(user.name, user.email, user.avatarPath, user.joinDate, if user.isPremium then 1 else 0, now, now)
  }

  function ImportMessage(s: nat, t: nat, a: nat, n: nat): string
  {
    "Imported " + NatToString(s) + " sessions, " + NatToString(t) + " tasks, " +
    NatToString(a) + " achievements, " + NatToString(n) + " settings"
  }

  /** The order the settings loop visits the snapshot's keys in. */
  function SettingKeys(data: ExportData): (keys: seq<string>)
    ensures |keys| == |data.settings|
    ensures forall j | 0 <= j < |keys| :: keys[j] in data.settings
    ensures forall k :: k in keys <==> k in data.settings
  {
    var keys := Ascending(data.settings.Keys);
    assert |data.settings.Keys| == |data.settings|;
    keys
  }

  /** The loop visits each key once. */
  lemma SettingKeysDistinct(data: ExportData)
    ensures var keys := SettingKeys(data);
      forall i, j | 0 <= i < j < |keys| :: keys[i] != keys[j]
  {
  }

  /** Which import statements fail: the existence probe, the profile insert, and per loop the positions whose statement fails. */
  datatype ImportFaults = ImportFaults(
    probe: Option<string>, createUser: Option<string>, sessions: map<nat, string>, tasks: map<nat, string>,
    achievements: map<nat, string>, settings: map<nat, string>)

  const NoImportFaults: ImportFaults := ImportFaults(None, None, map[], map[], map[], map[])

  datatype Imported = Imported(result: Result<ImportResult>, store: Store)

  /**
   * `import_data`: it fails exactly when the existence probe or the profile
   * insert fails, and then writes nothing; otherwise the profile exists
   * afterwards (an existing one is kept as it is) and the result reports the
   * four loops' counts.
   */
  function ImportData(s: Store, data: ExportData, now: string, ids: seq<string>, f: ImportFaults): (w: Imported)
    requires |ids| >= |data.settings|
    ensures w.result.Err? <==> (f.probe.Some? || (data.user.id !in s.users && f.createUser.Some?))
    ensures w.result.Err? ==> w.store == s
    ensures w.result.Ok? ==>
      data.user.id in w.store.users &&
      (data.user.id in s.users ==> w.store.users == s.users) &&
      (data.user.id !in s.users ==> w.store.users == s.users[data.user.id := ImportedUserRow(data.user, now)])
    ensures w.result.Ok? ==> ImportReport(w.result.value, data, f)
  {
    var u := data.user.id;
    if f.probe.Some? then Imported(Err(f.probe.value), s)
    else if u !in s.users && f.createUser.Some? then Imported(Err(f.createUser.value), s)
    else
      var users := if u in s.users then s.users else s.users[u := ImportedUserRow(data.user, now)];
      ImportRows(s.(users := users), data, ids, f)
  }

  /** What a successful import reports: success, each loop's Ok count, and the message built from them. */
  predicate ImportReport(r: ImportResult, data: ExportData, f: ImportFaults)
  {
    r.success &&
    r.sessionsImported == OkCount(f.sessions, |data.focusSessions|) &&
    r.tasksImported == OkCount(f.tasks, |data.tasks|) &&
    r.achievementsImported == OkCount(f.achievements, |data.achievements|) &&
    r.settingsImported <= |data.settings| &&
    r.message == ImportMessage(r.sessionsImported, r.tasksImported, r.achievementsImported, r.settingsImported)
  }

  /**
   * The four insert loops of `import_data`, once the user row exists: they
   * always succeed, leave the users table alone and keep every existing row.
   */
  function ImportRows(s: Store, data: ExportData, ids: seq<string>, f: ImportFaults): (w: Imported)
    requires |ids| >= |data.settings|
    ensures w.result.Ok? && ImportReport(w.result.value, data, f)
    ensures w.store.users == s.users
    ensures forall k | k in s.sessions :: k in w.store.sessions && w.store.sessions[k] == s.sessions[k]
    ensures forall k | k in s.tasks :: k in w.store.tasks && w.store.tasks[k] == s.tasks[k]
    ensures forall k | k in s.achievements :: k in w.store.achievements && w.store.achievements[k] == s.achievements[k]
  {
    var u := data.user.id;
    var xs := data.focusSessions;
    var ts := data.tasks;
    var achs := data.achievements;
    var keys := SettingKeys(data);
    var sessions := InsertedUpTo(s.sessions, xs, u, SessionKey, SessionRowFrom, f.sessions, |xs|);
    var tasks := InsertedUpTo(s.tasks, ts, u, TaskKey, TaskRowFrom, f.tasks, |ts|);
    var achievements := InsertedUpTo(s.achievements, achs, u, AchievementKey, AchievementRowFrom, f.achievements, |achs|);
    var settings := UpsertedUpTo(s.settings, u, keys, data.settings, ids, f.settings, |keys|);
    var sc := OkCount(f.sessions, |xs|);
    var tc := OkCount(f.tasks, |ts|);
    var ac := OkCount(f.achievements, |achs|);
    InsertedKeeps(s.sessions, xs, u, SessionKey, SessionRowFrom, f.sessions, |xs|);
    InsertedKeeps(s.tasks, ts, u, TaskKey, TaskRowFrom, f.tasks, |ts|);
    InsertedKeeps(s.achievements, achs, u, AchievementKey, AchievementRowFrom, f.achievements, |achs|);
    Imported(Ok(ImportResult(true, sc, tc, ac, settings.count, ImportMessage(sc, tc, ac, settings.count))),
             Store(s.users, sessions, tasks, achievements, settings.settings))
  }

  // ---------------------------------------------------------------------------
  // import_data: the statement-by-statement method
  // ---------------------------------------------------------------------------

  method ImportDataCommand(db: Database, data: ExportData, now: string, ids: seq<string>, f: ImportFaults)
    returns (r: Result<ImportResult>)
    requires |ids| >= |data.settings|
    modifies db`users, db`sessions, db`tasks, db`achievements, db`settings
    ensures Imported(r, Store(db.users, db.sessions, db.tasks, db.achievements, db.settings)) ==
      ImportData(Store(old(db.users), old(db.sessions), old(db.tasks), old(db.achievements), old(db.settings)), data, now, ids, f)
  {
    var u := data.user.id;
    if f.probe.Some? {
      return Err(f.probe.value);
    }
    if u !in db.users {
      if f.createUser.Some? {
        return Err(f.createUser.value);
      }
      db.users := db.users[u := ImportedUserRow(data.user, now)];
    }
    r := ImportRowsCommand(db, data, ids, f);
  }

  /** The four insert loops, run one after the other against the same connection. */
  method ImportRowsCommand(db: Database, data: ExportData, ids: seq<string>, f: ImportFaults)
    returns (r: Result<ImportResult>)
    requires |ids| >= |data.settings|
    modifies db`sessions, db`tasks, db`achievements, db`settings
    ensures db.users == old(db.users)
    ensures Imported(r, Store(db.users, db.sessions, db.tasks, db.achievements, db.settings)) ==
      ImportRows(Store(db.users, old(db.sessions), old(db.tasks), old(db.achievements), old(db.settings)), data, ids, f)
  {
    var u := data.user.id;
    ghost var before := Store(db.users, db.sessions, db.tasks, db.achievements, db.settings);
    var sessionsImported := ImportSessions(db, data.focusSessions, u, f.sessions);
    ghost var sessions := db.sessions;
    assert db.users == before.users && db.tasks == before.tasks &&
      db.achievements == before.achievements && db.settings == before.settings;
    var tasksImported := ImportTasks(db, data.tasks, u, f.tasks);
    ghost var tasks := db.tasks;
    assert db.users == before.users && db.sessions == sessions &&
      db.achievements == before.achievements && db.settings == before.settings;
    var achievementsImported := ImportAchievements(db, data.achievements, u, f.achievements);
    assert db.users == before.users && db.sessions == sessions && db.tasks == tasks && db.settings == before.settings;
    var settingsImported := ImportSettings(db, u, SettingKeys(data), data.settings, ids, f.settings);
    r := Ok(ImportResult(true, sessionsImported, tasksImported, achievementsImported, settingsImported,
                         ImportMessage(sessionsImported, tasksImported, achievementsImported, settingsImported)));
  }

  /** The sessions loop. */
  method ImportSessions(db: Database, xs: seq<FocusSession>, u: string, faults: map<nat, string>) returns (count: nat)
    modifies db`sessions
    ensures db.sessions == InsertedUpTo(old(db.sessions), xs, u, SessionKey, SessionRowFrom, faults, |xs|)
    ensures count == OkCount(faults, |xs|)
  {
    count := 0;
    for i := 0 to |xs|
      invariant db.sessions == InsertedUpTo(old(db.sessions), xs, u, SessionKey, SessionRowFrom, faults, i)
      invariant count == OkCount(faults, i)
    {
      if i !in faults {
        if xs[i].id !in db.sessions {
          db.sessions := db.sessions[xs[i].id := SessionRowFrom(xs[i], u)];
        }
        count := count + 1;
      }
    }
  }

  /** The tasks loop. */
  method ImportTasks(db: Database, ts: seq<TaskModel.Task>, u: string, faults: map<nat, string>) returns (count: nat)
    modifies db`tasks
    ensures db.tasks == InsertedUpTo(old(db.tasks), ts, u, TaskKey, TaskRowFrom, faults, |ts|)
    ensures count == OkCount(faults, |ts|)
  {
    count := 0;
    for i := 0 to |ts|
      invariant db.tasks == InsertedUpTo(old(db.tasks), ts, u, TaskKey, TaskRowFrom, faults, i)
      invariant count == OkCount(faults, i)
    {
      if i !in faults {
        if ts[i].id !in db.tasks {
          db.tasks := db.tasks[ts[i].id := TaskRowFrom(ts[i], u)];
        }
        count := count + 1;
      }
    }
  }

  /** The achievements loop. */
  method ImportAchievements(db: Database, achs: seq<AchievementModel.Achievement>, u: string, faults: map<nat, string>)
    returns (count: nat)
    modifies db`achievements
    ensures db.achievements == InsertedUpTo(old(db.achievements), achs, u, AchievementKey, AchievementRowFrom, faults, |achs|)
    ensures count == OkCount(faults, |achs|)
  {
    count := 0;
    for i := 0 to |achs|
      invariant db.achievements == InsertedUpTo(old(db.achievements), achs, u, AchievementKey, AchievementRowFrom, faults, i)
      invariant count == OkCount(faults, i)
    {
      if i !in faults {
        if achs[i].id !in db.achievements {
          db.achievements := db.achievements[achs[i].id := AchievementRowFrom(achs[i], u)];
        }
        count := count + 1;
      }
    }
  }

  /** The settings loop: one UUID per key, an upsert per key, counting the upserts that return Ok. */
  method ImportSettings(
    db: Database, u: string, keys: seq<string>, values: map<string, string>, ids: seq<string>, faults: map<nat, string>)
    returns (count: nat)
    requires |keys| <= |ids|
    requires forall j | 0 <= j < |keys| :: keys[j] in values
    modifies db`settings
    ensures Upserted(db.settings, count) == UpsertedUpTo(old(db.settings), u, keys, values, ids, faults, |keys|)
  {
    count := 0;
    for i := 0 to |keys|
      invariant Upserted(db.settings, count) == UpsertedUpTo(old(db.settings), u, keys, values, ids, faults, i)
    {
      var key := keys[i];
      var result := SetSetting(db, u, key, values[key], ids[i], FaultAt(faults, i));
      if result.Ok? {
        count := count + 1;
      }
    }
  }

  // ---------------------------------------------------------------------------
  // import_data: what it promises
  // ---------------------------------------------------------------------------

  /** Writing a row adds at most its own id to the ids in use. */
  lemma SettingIdsWrite(settings: Settings, k: (string, string), row: SettingRow)
    ensures forall x | x in SettingIds(settings[k := row]) :: x in SettingIds(settings) || x == row.id
  {
    forall x | x in SettingIds(settings[k := row]) ensures x in SettingIds(settings) || x == row.id {
      var k' :| k' in settings[k := row] && settings[k := row][k'].id == x;
      if k' != k { assert settings[k'].id == x; }
    }
  }

  /** The UUIDs of a settings loop are distinct and none is in use in `settings`. */
  predicate FreshSettingIds(ids: seq<string>, settings: Settings)
  {
    (forall i, j | 0 <= i < j < |ids| :: ids[i] != ids[j]) && forall i | 0 <= i < |ids| :: ids[i] !in SettingIds(settings)
  }

  /** A successful upsert uses at most its own UUID. */
  lemma UpsertIds(settings: Settings, u: string, key: string, value: string, id: string)
    ensures var w := UpsertSetting(settings, u, key, value, id, None);
      forall x | x in SettingIds(w.settings) :: x in SettingIds(settings) || x == id
  {
    if (u, key) in settings {
      SettingIdsWrite(settings, (u, key), settings[(u, key)].(value := value));
      assert settings[(u, key)].id in SettingIds(settings);
    } else if id !in SettingIds(settings) {
      SettingIdsWrite(settings, (u, key), SettingRow(id, value));
    }
  }

  /** Without faults and with fresh UUIDs, the ids in use after `i` upserts come from the table or the first `i` UUIDs. */
  lemma {:induction false} UpsertedIds(
    settings: Settings, u: string, keys: seq<string>, values: map<string, string>, ids: seq<string>, i: nat)
    requires i <= |keys| <= |ids|
    requires forall j | 0 <= j < |keys| :: keys[j] in values
    ensures var r := UpsertedUpTo(settings, u, keys, values, ids, map[], i);
      forall x | x in SettingIds(r.settings) :: x in SettingIds(settings) || x in ids[..i]
    decreases i
  {
    if i > 0 {
      UpsertedIds(settings, u, keys, values, ids, i - 1);
      var prev := UpsertedUpTo(settings, u, keys, values, ids, map[], i - 1);
      UpsertIds(prev.settings, u, keys[i - 1], values[keys[i - 1]], ids[i - 1]);
      assert ids[..i] == ids[..i - 1] + [ids[i - 1]];
    }
  }

  /**
   * Without faults and with fresh UUIDs every upsert returns Ok, and each key's
   * row holds the snapshot's value (keys are distinct, so no later write undoes it).
   */
  lemma {:induction false} UpsertedAll(
    settings: Settings, u: string, keys: seq<string>, values: map<string, string>, ids: seq<string>, i: nat)
    requires i <= |keys| <= |ids|
    requires forall j | 0 <= j < |keys| :: keys[j] in values
    requires forall a, b | 0 <= a < b < |keys| :: keys[a] != keys[b]
    requires FreshSettingIds(ids, settings)
    ensures var r := UpsertedUpTo(settings, u, keys, values, ids, map[], i);
      r.count == i &&
      forall j | 0 <= j < i :: (u, keys[j]) in r.settings && r.settings[(u, keys[j])].value == values[keys[j]]
    decreases i
  {
    if i > 0 {
      UpsertedAll(settings, u, keys, values, ids, i - 1);
      NextIdUnused(settings, u, keys, values, ids, i);
      var prev := UpsertedUpTo(settings, u, keys, values, ids, map[], i - 1);
      UpsertKeepsEarlier(prev.settings, u, keys, values, ids[i - 1], i);
    }
  }

  /** The UUID the `i`-th upsert draws is not yet in use. */
  lemma NextIdUnused(
    settings: Settings, u: string, keys: seq<string>, values: map<string, string>, ids: seq<string>, i: nat)
    requires 0 < i <= |keys| <= |ids|
    requires forall j | 0 <= j < |keys| :: keys[j] in values
    requires FreshSettingIds(ids, settings)
    ensures ids[i - 1] !in SettingIds(UpsertedUpTo(settings, u, keys, values, ids, map[], i - 1).settings)
  {
    UpsertedIds(settings, u, keys, values, ids, i - 1);
    var id := ids[i - 1];
    var earlier := ids[..i - 1];
    assert id !in earlier by {
      forall j | 0 <= j < |earlier| ensures earlier[j] != id { assert ids[j] != ids[i - 1]; }
    }
  }

  /** One more upsert with an unused UUID succeeds and keeps the values the earlier, distinct keys hold. */
  lemma UpsertKeepsEarlier(settings: Settings, u: string, keys: seq<string>, values: map<string, string>, id: string, i: nat)
    requires 0 < i <= |keys|
    requires forall j | 0 <= j < |keys| :: keys[j] in values
    requires forall a, b | 0 <= a < b < |keys| :: keys[a] != keys[b]
    requires id !in SettingIds(settings)
    requires forall j | 0 <= j < i - 1 :: (u, keys[j]) in settings && settings[(u, keys[j])].value == values[keys[j]]
    ensures var w := UpsertSetting(settings, u, keys[i - 1], values[keys[i - 1]], id, None);
      w.result.Ok? && forall j | 0 <= j < i :: (u, keys[j]) in w.settings && w.settings[(u, keys[j])].value == values[keys[j]]
  {
    var w := UpsertSetting(settings, u, keys[i - 1], values[keys[i - 1]], id, None);
    UpsertIsLocal(settings, u, keys[i - 1], values[keys[i - 1]], id, None);
    forall j | 0 <= j < i - 1 ensures (u, keys[j]) in w.settings && w.settings[(u, keys[j])].value == values[keys[j]] {
      assert keys[j] != keys[i - 1];
    }
  }

  /** When every key already holds the snapshot's value, the settings loop changes nothing and every upsert returns Ok. */
  lemma {:induction false} UpsertedStable(
    settings: Settings, u: string, keys: seq<string>, values: map<string, string>, ids: seq<string>, i: nat)
    requires i <= |keys| <= |ids|
    requires forall j | 0 <= j < |keys| :: keys[j] in values
    requires forall j | 0 <= j < i :: (u, keys[j]) in settings && settings[(u, keys[j])].value == values[keys[j]]
    ensures UpsertedUpTo(settings, u, keys, values, ids, map[], i) == Upserted(settings, i)
    decreases i
  {
    if i > 0 {
      UpsertedStable(settings, u, keys, values, ids, i - 1);
      var k := (u, keys[i - 1]);
      assert settings[k := settings[k].(value := values[keys[i - 1]])] == settings;
    }
  }

  /**
   * Importing a snapshot twice, without faults and with fresh UUIDs the first
   * time, leaves the store as importing it once, and reports the same counts.
   */
  lemma ImportTwice(s: Store, data: ExportData, now1: string, ids1: seq<string>, now2: string, ids2: seq<string>)
    requires |ids1| >= |data.settings| && |ids2| >= |data.settings|
    requires FreshSettingIds(ids1, s.settings)
    ensures var once := ImportData(s, data, now1, ids1, NoImportFaults);
      once.result.Ok? && ImportData(once.store, data, now2, ids2, NoImportFaults) == once
  {
    var u := data.user.id;
    var keys := SettingKeys(data);
    SettingKeysDistinct(data);
    var once := ImportData(s, data, now1, ids1, NoImportFaults);
    InsertedCovers(s.sessions, data.focusSessions, u, SessionKey, SessionRowFrom, |data.focusSessions|);
    InsertedStable(once.store.sessions, data.focusSessions, u, SessionKey, SessionRowFrom, map[], |data.focusSessions|);
    InsertedCovers(s.tasks, data.tasks, u, TaskKey, TaskRowFrom, |data.tasks|);
    InsertedStable(once.store.tasks, data.tasks, u, TaskKey, TaskRowFrom, map[], |data.tasks|);
    InsertedCovers(s.achievements, data.achievements, u, AchievementKey, AchievementRowFrom, |data.achievements|);
    InsertedStable(once.store.achievements, data.achievements, u, AchievementKey, AchievementRowFrom, map[], |data.achievements|);
    UpsertedAll(s.settings, u, keys, data.settings, ids1, |keys|);
    UpsertedStable(once.store.settings, u, keys, data.settings, ids2, |keys|);
  }

  /**
   * Re-importing a user's own export, without faults, changes nothing: every
   * profile, session, task and achievement id is present already and every
   * (readable) setting already holds its value.
   */
  lemma ReimportOwnExport(s: Store, u: string, now: string, ids: seq<string>, now2: string)
    requires ExportAllData(s, u, now, NoExportFaults).Ok?
    requires |ids| >= |ExportAllData(s, u, now, NoExportFaults).value.settings|
    ensures var data := ExportAllData(s, u, now, NoExportFaults).value;
      ImportData(s, data, now2, ids, NoImportFaults).store == s
  {
    var data := ExportAllData(s, u, now, NoExportFaults).value;
    ExportedPresent(s, u, now);
    InsertedStable(s.sessions, data.focusSessions, u, SessionKey, SessionRowFrom, map[], |data.focusSessions|);
    InsertedStable(s.tasks, data.tasks, u, TaskKey, TaskRowFrom, map[], |data.tasks|);
    InsertedStable(s.achievements, data.achievements, u, AchievementKey, AchievementRowFrom, map[], |data.achievements|);
    var keys := SettingKeys(data);
    UpsertedStable(s.settings, u, keys, data.settings, ids, |keys|);
  }

  /** Everything an export holds is in the store already, under the same ids and values. */
  lemma ExportedPresent(s: Store, u: string, now: string)
    requires ExportAllData(s, u, now, NoExportFaults).Ok?
    ensures var data := ExportAllData(s, u, now, NoExportFaults).value;
      data.user.id == u && u in s.users &&
      (forall j | 0 <= j < |data.focusSessions| :: SessionKey(data.focusSessions[j]) in s.sessions) &&
      (forall j | 0 <= j < |data.tasks| :: TaskKey(data.tasks[j]) in s.tasks) &&
      (forall j | 0 <= j < |data.achievements| :: AchievementKey(data.achievements[j]) in s.achievements) &&
      (forall k | k in data.settings :: (u, k) in s.settings && s.settings[(u, k)].value == data.settings[k])
  {
    ExportedRowsPresent(s, u);
  }

  lemma ExportedRowsPresent(s: Store, u: string)
    ensures var xs := ExportSessions(s.sessions, u); forall j | 0 <= j < |xs| :: SessionKey(xs[j]) in s.sessions
    ensures var ts := ExportTasks(s.tasks, u); forall j | 0 <= j < |ts| :: TaskKey(ts[j]) in s.tasks
    ensures var achs := ExportAchievements(s.achievements, u);
      forall j | 0 <= j < |achs| :: AchievementKey(achs[j]) in s.achievements
  {
    SessionRowsPresent(s.sessions, u);
    TaskRowsPresent(s.tasks, u);
    AchievementRowsPresent(s.achievements, u);
  }

  lemma SessionRowsPresent(sessions: map<string, SessionRow>, u: string)
    ensures var xs := ExportSessions(sessions, u); forall j | 0 <= j < |xs| :: SessionKey(xs[j]) in sessions
  {
    var xs := ExportSessions(sessions, u);
    assert forall j | 0 <= j < |xs| :: xs[j] in xs;
  }

  lemma TaskRowsPresent(tasks: map<string, TaskRow>, u: string)
    ensures var ts := ExportTasks(tasks, u); forall j | 0 <= j < |ts| :: TaskKey(ts[j]) in tasks
  {
    var ts := ExportTasks(tasks, u);
    assert forall j | 0 <= j < |ts| :: ts[j] in ts;
  }

  lemma AchievementRowsPresent(achievements: map<string, AchievementRow>, u: string)
    ensures var achs := ExportAchievements(achievements, u);
      forall j | 0 <= j < |achs| :: AchievementKey(achs[j]) in achievements
  {
    var achs := ExportAchievements(achievements, u);
    assert forall j | 0 <= j < |achs| :: achs[j] in achs;
  }

}
