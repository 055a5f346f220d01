/**
 * The SQLite store behind the commands. Each table is a map keyed the way the
 * statements address its rows: `focus_sessions`, `tasks`, `achievements`, `users`
 * and `user_achievements` by id, `daily_stats` by (user_id, date) and
 * `user_settings` by (user_id, key). A statement either succeeds as a whole or
 * returns an error and changes nothing; which statements fail is a parameter of
 * each command (an `Option<string>` holding the error text, or, for a statement
 * run in a loop, a map from loop position to error text). The migration ledger
 * and the opaque schema batch live in `Schema`.
 */
module Db {
  import opened Wrappers
  import opened Text

  // ---------------------------------------------------------------------------
  // Rows
  // ---------------------------------------------------------------------------

  datatype UserRow = UserRow(
    name: string, email: Option<string>, avatarPath: Option<string>,
    joinDate: string, isPremium: int, createdAt: string, updatedAt: string)

  datatype SessionRow = SessionRow(
    userId: string, durationSeconds: int, startedAt: string, endedAt: string,
    category: Option<string>, notes: Option<string>, createdAt: string)

  /** A `daily_stats` row; its (user_id, date) is the map key. */
  datatype StatRow = StatRow(id: string, totalFocusSeconds: int, sessionCount: int, createdAt: string)

  /** A `tasks` row: the category is stored as its token and `completed` as an integer. */
  datatype TaskRow = TaskRow(
    userId: string, title: string, category: string, date: string,
    startTime: string, endTime: string, completed: int, createdAt: string)

  datatype AchievementRow = AchievementRow(
    userId: string, achievementType: string, unlockedAt: string, metadata: Option<string>)

  /** A `user_settings` row; its (user_id, key) is the map key. */
  datatype SettingRow = SettingRow(id: string, value: string)

  /** A value bound to a statement parameter. */
  datatype SqlValue = SqlText(text: string) | SqlInt(number: int)

  // ---------------------------------------------------------------------------
  // Error texts (rusqlite's `Display` of the errors the commands can meet)
  // ---------------------------------------------------------------------------

  /** `QueryReturnedNoRows`, what `query_row` reports when no row matches. */
  const NoRows: string := "Query returned no rows"

  /** A primary-key clash on insert. */
  function UniqueViolation(table: string, column: string): string
  {
    "UNIQUE constraint failed: " + table + "." + column
  }

  /** `InvalidParameterCount(given, needed)`. */
  function WrongParameterCount(given: nat, needed: nat): string
  {
    "Wrong number of parameters passed to query. Got " + NatToString(given) + ", needed " + NatToString(needed)
  }

  /** The fault of the statement a loop runs at position `i`, if it fails. */
  function FaultAt(faults: map<nat, string>, i: nat): (r: Option<string>)
    ensures r.Some? <==> i in faults
    ensures r.Some? ==> r.value == faults[i]
  {
    if i in faults then Some(faults[i]) else None
  }

  // ---------------------------------------------------------------------------
  // Dynamic UPDATE statements: `col = ?N` assignments and parameter binding
  // ---------------------------------------------------------------------------

  /** One `column = ?index` clause of a SET list. */
  datatype Assignment = Assignment(column: string, index: nat)

  function ClauseText(a: Assignment): string
  {
    a.column + " = ?" + NatToString(a.index)
  }

  function ClauseTexts(assignments: seq<Assignment>): (r: seq<string>)
    ensures |r| == |assignments|
    ensures forall i | 0 <= i < |r| :: r[i] == ClauseText(assignments[i])
  {
    if assignments == [] then [] else [ClauseText(assignments[0])] + ClauseTexts(assignments[1..])
  }

  /** `UPDATE <table> SET <clauses> WHERE id = ?<where>`. */
  datatype UpdateStatement = UpdateStatement(table: string, assignments: seq<Assignment>, whereIndex: nat)

  /** The SQL text the builder formats: the table and SET list first, the id filter at the WHERE placeholder last. */
  function QueryText(u: UpdateStatement): (q: string)
    ensures var head := "UPDATE " + u.table + " SET ";
      var tail := " WHERE id = ?" + NatToString(u.whereIndex);
      |q| >= |head| + |tail| && q[..|head|] == head && q[|q| - |tail|..] == tail
  {
    var head := "UPDATE " + u.table + " SET ";
    var tail := " WHERE id = ?" + NatToString(u.whereIndex);
    var q := head + Join(ClauseTexts(u.assignments), ", ") + tail;
    assert q[..|head|] == head;
    assert q[|q| - |tail|..] == tail;
    q
  }

  function MaxIndex(assignments: seq<Assignment>): (m: nat)
    ensures forall i | 0 <= i < |assignments| :: assignments[i].index <= m
    ensures assignments == [] ==> m == 0
    ensures assignments != [] ==> exists i | 0 <= i < |assignments| :: assignments[i].index == m
  {
    if assignments == [] then 0
    else
      var rest := MaxIndex(assignments[1..]);
      if assignments[0].index >= rest then assignments[0].index else rest
  }

  /**
   * SQLite's `sqlite3_bind_parameter_count`: for `?NNN` placeholders, the largest
   * index used; a repeated index is one parameter.
   */
  function ParameterCount(u: UpdateStatement): (n: nat)
    ensures u.whereIndex <= n
    ensures forall i | 0 <= i < |u.assignments| :: u.assignments[i].index <= n
    ensures n == u.whereIndex || exists i | 0 <= i < |u.assignments| :: u.assignments[i].index == n
  {
    var m := MaxIndex(u.assignments);
    if u.whereIndex >= m then u.whereIndex else m
  }

  /**
   * rusqlite's `bind_parameters`: values are bound to 1, 2, ... in order and the
   * call fails unless exactly as many values are given as the statement has
   * parameters.
   */
  function Bind(u: UpdateStatement, values: seq<SqlValue>): (r: Result<Unit>)
    ensures r.Ok? <==> |values| == ParameterCount(u)
    ensures r.Err? ==> r.error == WrongParameterCount(|values|, ParameterCount(u))
  {
    if |values| == ParameterCount(u) then Ok(Unit) else Err(WrongParameterCount(|values|, ParameterCount(u)))
  }

  /** The value bound to placeholder `?index` (indices start at 1). */
  function BoundValue(values: seq<SqlValue>, index: nat): SqlValue
    requires 1 <= index <= |values|
  {
    values[index - 1]
  }

  /** A present field of a change-set: the column it sets and the value bound for it. */
  datatype Change = Change(column: string, value: SqlValue)

  /** The SET clauses for `changes`, their placeholders numbered consecutively from `from`. */
  function Numbered(changes: seq<Change>, from: nat): (r: seq<Assignment>)
    ensures |r| == |changes|
    ensures forall i | 0 <= i < |r| :: r[i] == Assignment(changes[i].column, from + i)
  {
    seq(|changes|, i requires 0 <= i < |changes| => Assignment(changes[i].column, from + i))
  }

  /** The values of `changes`, in order. */
  function Values(changes: seq<Change>): (r: seq<SqlValue>)
    ensures |r| == |changes|
    ensures forall i | 0 <= i < |r| :: r[i] == changes[i].value
  {
    seq(|changes|, i requires 0 <= i < |changes| => changes[i].value)
  }

  lemma NumberedSnoc(changes: seq<Change>, c: Change, from: nat)
    ensures Numbered(changes + [c], from) == Numbered(changes, from) + [Assignment(c.column, from + |changes|)]
  {
  }

  lemma ValuesSnoc(changes: seq<Change>, c: Change)
    ensures Values(changes + [c]) == Values(changes) + [c.value]
  {
  }

  /** Consecutive placeholders from `from` reach `from + |changes| - 1`. */
  lemma {:induction false} MaxIndexNumbered(changes: seq<Change>, from: nat)
    requires from >= 1
    ensures MaxIndex(Numbered(changes, from)) == if changes == [] then 0 else from + |changes| - 1
    decreases |changes|
  {
    if changes != [] {
      assert Numbered(changes, from)[1..] == Numbered(changes[1..], from + 1);
      MaxIndexNumbered(changes[1..], from + 1);
    }
  }

  /** A field of a change-set as the changes it contributes: one when present, none when absent. */
  function Opt(f: Option<Change>): (r: seq<Change>)
    ensures |r| == if f.Some? then 1 else 0
  {
    if f.Some? then [f.value] else []
  }

  /** One step of a SET-list builder: a present field appends its clause at the running index and advances it. */
  lemma NumberedStep(prefix: seq<Change>, f: Option<Change>, from: nat, before: seq<Assignment>, index: nat)
    requires before == Numbered(prefix, from) && index == from + |prefix|
    ensures var after := if f.Some? then before + [Assignment(f.value.column, index)] else before;
      after == Numbered(prefix + Opt(f), from) && (if f.Some? then index + 1 else index) == from + |prefix + Opt(f)|
  {
    if f.Some? {
      NumberedSnoc(prefix, f.value, from);
    } else {
      assert prefix + Opt(f) == prefix;
    }
  }

  /** One step of a parameter builder: a present field appends its value. */
  lemma ValuesStep(prefix: seq<Change>, f: Option<Change>, before: seq<SqlValue>)
    requires before == Values(prefix)
    ensures (if f.Some? then before + [f.value.value] else before) == Values(prefix + Opt(f))
  {
    if f.Some? {
      ValuesSnoc(prefix, f.value);
    } else {
      assert prefix + Opt(f) == prefix;
    }
  }

  /**
   * `UPDATE ... SET`: each assignment writes the value bound to its placeholder
   * into its column through `write`; a placeholder outside the bound values is skipped.
   */
  function ApplyAssignments<R>(row: R, write: (R, string, SqlValue) -> R, assignments: seq<Assignment>, values: seq<SqlValue>): R
    decreases |assignments|
  {
    if assignments == [] then row
    else
      var a := assignments[0];
      var row' := if 1 <= a.index <= |values| then write(row, a.column, BoundValue(values, a.index)) else row;
      ApplyAssignments(row', write, assignments[1..], values)
  }

  /** The change-set written field by field, in order. */
  function ApplyChanges<R>(row: R, write: (R, string, SqlValue) -> R, changes: seq<Change>): R
    decreases |changes|
  {
    if changes == [] then row else ApplyChanges(write(row, changes[0].column, changes[0].value), write, changes[1..])
  }

  lemma {:induction false} ApplyChangesAppend<R>(row: R, write: (R, string, SqlValue) -> R, a: seq<Change>, b: seq<Change>)
    ensures ApplyChanges(row, write, a + b) == ApplyChanges(ApplyChanges(row, write, a), write, b)
    decreases |a|
  {
    if a == [] {
      assert a + b == b;
    } else {
      assert (a + b)[1..] == a[1..] + b;
      ApplyChangesAppend(write(row, a[0].column, a[0].value), write, a[1..], b);
    }
  }

  /** Writing a change-set and then one more field, if present. */
  lemma ApplyStep<R>(row: R, write: (R, string, SqlValue) -> R, prefix: seq<Change>, f: Option<Change>)
    ensures var before := ApplyChanges(row, write, prefix);
      ApplyChanges(row, write, prefix + Opt(f)) == if f.Some? then write(before, f.value.column, f.value.value) else before
  {
    ApplyChangesAppend(row, write, prefix, Opt(f));
  }

  /**
   * When the values bound from placeholder `from` on are the change-set's own,
   * executing the numbered clauses writes exactly the change-set.
   */
  lemma {:induction false} ApplyNumbered<R>(
    row: R, write: (R, string, SqlValue) -> R, changes: seq<Change>, from: nat, values: seq<SqlValue>)
    requires from >= 1 && from - 1 + |changes| <= |values|
    requires forall i | 0 <= i < |changes| :: values[from - 1 + i] == changes[i].value
    ensures ApplyAssignments(row, write, Numbered(changes, from), values) == ApplyChanges(row, write, changes)
    decreases |changes|
  {
    if changes != [] {
      assert Numbered(changes, from)[1..] == Numbered(changes[1..], from + 1);
      ApplyNumbered(write(row, changes[0].column, changes[0].value), write, changes[1..], from + 1, values);
    }
  }

  /** The usual binding: the change-set's own values from placeholder 1 on, then whatever the WHERE clause needs. */
  lemma ApplyNumberedValues<R>(row: R, write: (R, string, SqlValue) -> R, changes: seq<Change>, tail: seq<SqlValue>)
    ensures ApplyAssignments(row, write, Numbered(changes, 1), Values(changes) + tail) == ApplyChanges(row, write, changes)
  {
    var values := Values(changes) + tail;
    assert forall i | 0 <= i < |changes| :: values[i] == changes[i].value;
    ApplyNumbered(row, write, changes, 1, values);
  }

  // ---------------------------------------------------------------------------
  // The migration ledger
  // ---------------------------------------------------------------------------

  const InitialMigration: string := "001_initial"

  /**
   * What `init_database` and `run_migrations` touch: the foreign-key switch, the
   * `_migrations` ledger (its existence and its names in insertion order) and how
   * many times the opaque initial batch has run.
   */
  datatype Schema = Schema(foreignKeys: bool, ledgerCreated: bool, ledger: seq<string>, batchRuns: nat)

  /** The store as a new database file starts out. */
  const EmptySchema: Schema := Schema(false, false, [], 0)

  /** Which statements of one `run_migrations` call fail, and with which message. */
  datatype MigrationFaults = MigrationFaults(
    create: Option<string>, probe: Option<string>, batch: Option<string>, record: Option<string>)

  const NoMigrationFaults: MigrationFaults := MigrationFaults(None, None, None, None)

  datatype Migrated = Migrated(result: Result<Unit>, schema: Schema)

  /**
   * The effect of one `run_migrations` call, statement by statement. The ledger
   * only grows, by appending, and the foreign-key switch is untouched; creating
   * the ledger cannot clash with an existing one, so only a failing statement
   * stops a call. The batch runs exactly when no ledger row names it and the
   * ledger statements before it succeed, and it is recorded only after it
   * succeeded, once.
   */
  function Migrate(s: Schema, f: MigrationFaults): (m: Migrated)
    ensures |s.ledger| <= |m.schema.ledger| && m.schema.ledger[..|s.ledger|] == s.ledger
    ensures m.schema.foreignKeys == s.foreignKeys
    ensures m.result.Ok? <==>
      f.create.None? && f.probe.None? && (InitialMigration in s.ledger || (f.batch.None? && f.record.None?))
    ensures m.result.Ok? ==> m.schema.ledgerCreated && InitialMigration in m.schema.ledger
    ensures m.schema.batchRuns == s.batchRuns + 1 <==>
      InitialMigration !in s.ledger && f.create.None? && f.probe.None? && f.batch.None?
    ensures m.schema.batchRuns != s.batchRuns + 1 ==> m.schema.batchRuns == s.batchRuns
    ensures InitialMigration !in s.ledger && InitialMigration in m.schema.ledger ==>
      m.schema.batchRuns == s.batchRuns + 1 && m.schema.ledger == s.ledger + [InitialMigration]
  {
    if f.create.Some? then Migrated(Err(f.create.value), s)
    else
      var created := s.(ledgerCreated := true);
      if f.probe.Some? then Migrated(Err(f.probe.value), created)
      else if InitialMigration in s.ledger then Migrated(Ok(Unit), created)
      else if f.batch.Some? then Migrated(Err(f.batch.value), created)
      else
        var applied := created.(batchRuns := s.batchRuns + 1);
        if f.record.Some? then Migrated(Err(f.record.value), applied)
        else Migrated(Ok(Unit), applied.(ledger := s.ledger + [InitialMigration]))
  }

  /** After a successful call, a second call applies nothing and leaves the ledger as it is. */
  lemma SecondRunAppliesNothing(s: Schema, f1: MigrationFaults, f2: MigrationFaults)
    requires Migrate(s, f1).result.Ok?
    ensures var t := Migrate(s, f1).schema;
      Migrate(t, f2).schema.batchRuns == t.batchRuns && Migrate(t, f2).schema.ledger == t.ledger
  {
  }

  /** Which statements of one `init_database` call fail. */
  datatype InitFaults = InitFaults(open: Option<string>, pragma: Option<string>, migrations: MigrationFaults)

  /**
   * The effect of `init_database` (and of `Database::new`, which only wraps
   * it): foreign keys are on whenever the migrations ran, and every failure is
   * handed to the caller.
   */
  function Init(s: Schema, f: InitFaults): (m: Migrated)
    ensures m.schema.batchRuns != s.batchRuns ==> m.schema.foreignKeys
    ensures f.open.Some? ==> m == Migrated(Err(f.open.value), s)
    ensures f.open.None? && f.pragma.Some? ==> m == Migrated(Err(f.pragma.value), s)
    ensures m.result.Ok? <==> f.open.None? && f.pragma.None? && Migrate(s, f.migrations).result.Ok?
    ensures m.result.Ok? ==> m.schema.foreignKeys && InitialMigration in m.schema.ledger
  {
    if f.open.Some? then Migrated(Err(f.open.value), s)
    else if f.pragma.Some? then Migrated(Err(f.pragma.value), s)
    else Migrate(s.(foreignKeys := true), f.migrations)
  }

  // ---------------------------------------------------------------------------
  // The store
  // ---------------------------------------------------------------------------

  class Database {
    var users: map<string, UserRow>
    var sessions: map<string, SessionRow>
    var dailyStats: map<(string, string), StatRow>
    var tasks: map<string, TaskRow>
    var achievements: map<string, AchievementRow>
    /** The `user_achievements` table `delete_user` clears: id to user_id. */
    var userAchievements: map<string, string>
    var settings: map<(string, string), SettingRow>
    var schema: Schema

    /** A new, empty database file. */
    constructor ()
      ensures users == map[] && sessions == map[] && dailyStats == map[] && tasks == map[]
      ensures achievements == map[] && userAchievements == map[] && settings == map[]
      ensures schema == EmptySchema
    {
      users := map[];
      sessions := map[];
      dailyStats := map[];
      tasks := map[];
      achievements := map[];
      userAchievements := map[];
      settings := map[];
      schema := EmptySchema;
    }

    /** `run_migrations`: create the ledger, probe it, run and record the initial batch if absent. */
    method RunMigrations(f: MigrationFaults) returns (r: Result<Unit>)
      modifies this`schema
      ensures Migrated(r, schema) == Migrate(old(schema), f)
    {
      if f.create.Some? {
        return Err(f.create.value);
      }
      schema := schema.(ledgerCreated := true);
      if f.probe.Some? {
        return Err(f.probe.value);
      }
      var migrationExists := InitialMigration in schema.ledger;
      if !migrationExists {
        if f.batch.Some? {
          return Err(f.batch.value);
        }
        schema := schema.(batchRuns := schema.batchRuns + 1);
        if f.record.Some? {
          return Err(f.record.value);
        }
        schema := schema.(ledger := schema.ledger + [InitialMigration]);
      }
      r := Ok(Unit);
    }

    /** `init_database`: open the file, enable foreign keys, then run the migrations. */
    method InitDatabase(f: InitFaults) returns (r: Result<Unit>)
      modifies this`schema
      ensures Migrated(r, schema) == Init(old(schema), f)
    {
      if f.open.Some? {
        return Err(f.open.value);
      }
      if f.pragma.Some? {
        return Err(f.pragma.value);
      }
      schema := schema.(foreignKeys := true);
      r := RunMigrations(f.migrations);
    }
  }
}
