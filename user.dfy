/**
 * The user commands over the `users` table: read the (single) profile, create
 * it, update it with a dynamically built `UPDATE` statement, and delete a user
 * with everything that belongs to them. The UUID and the clock readings are
 * parameters; a failing write statement is given by a fault parameter holding
 * its error text.
 *
 * The update is modelled twice: as written, where the `is_premium` clause does
 * not advance the placeholder index, so a request that sets the flag binds one
 * value more than the statement has placeholders and always fails; and as
 * evidently intended, with the index advanced.
 */
module UserCommands {
  import opened Wrappers
  import opened Text
  import opened Collections
  import opened Db
  import opened UserModel

  /** A command's result and the `users` table it leaves. */
  datatype Written<T> = Written(result: Result<T>, users: map<string, UserRow>)

  /** A stored row read back as a `User`: only 1 is premium. */
  function UserOf(id: string, row: UserRow): User
  {
    User(id, row.name, row.email, row.avatarPath, row.joinDate, row.isPremium == 1, row.createdAt, row.updatedAt)
  }

  /** `get_user_by_id`: the row with that id, or rusqlite's no-rows error. */
  function GetUserById(users: map<string, UserRow>, id: string): (r: Result<User>)
    ensures r.Ok? <==> id in users
    ensures r.Err? ==> r.error == NoRows
    ensures r.Ok? ==> r.value.id == id && r.value.createdAt == users[id].createdAt && r.value.joinDate == users[id].joinDate
  {
    if id in users then Ok(UserOf(id, users[id])) else Err(NoRows)
  }

  // ---------------------------------------------------------------------------
  // get_user and create_user
  // ---------------------------------------------------------------------------

  /**
   * `get_user`: `SELECT ... FROM users LIMIT 1` with `optional()`: none on an
   * empty table, otherwise some stored user (here the one with the least id).
   */
  function GetUser(users: map<string, UserRow>): (r: Option<User>)
    ensures r.None? <==> users == map[]
    ensures r.Some? ==> r.value.id in users && r.value == UserOf(r.value.id, users[r.value.id])
  {
    if users == map[] then None
    else
      var id := Minimum(users.Keys);
      Some(UserOf(id, users[id]))
  }

  /**
   * `create_user`: a new profile, not premium, without avatar, created and
   * updated now, joined today. It reads back as returned, the profile read then
   * finds a user, and other rows are kept; a taken id or a failing insert
   * writes nothing.
   */
  function CreateUserSpec(
    users: map<string, UserRow>, request: CreateUserRequest, id: string, now: string, joinDate: string, fault: Option<string>)
    : (w: Written<User>)
    ensures w.result.Ok? <==> id !in users && fault.None?
    ensures w.result.Err? ==> w.users == users
    ensures w.result.Ok? ==>
      w.result.value.id == id && w.result.value.name == request.name && w.result.value.email == request.email &&
      !w.result.value.isPremium && w.result.value.avatarPath.None? &&
      w.result.value.createdAt == now && w.result.value.updatedAt == now && w.result.value.joinDate == joinDate &&
      GetUserById(w.users, id) == w.result && GetUser(w.users).Some? &&
      forall other | other in users :: other in w.users && w.users[other] == users[other]
  {
    if id in users then Written(Err(UniqueViolation("users", "id")), users)
    else if fault.Some? then Written(Err(fault.value), users)
    else
      Written(Ok(User(id, request.name, request.email, None, joinDate, false, now, now)),
              users[id := UserRow(request.name, request.email, None, joinDate, 0, now, now)])
  }

  method CreateUser(db: Database, request: CreateUserRequest, id: string, now: string, joinDate: string, fault: Option<string>)
    returns (r: Result<User>)
    modifies db`users
    ensures Written(r, db.users) == CreateUserSpec(old(db.users), request, id, now, joinDate, fault)
  {
    if id in db.users {
      return Err(UniqueViolation("users", "id"));
    }
    if fault.Some? {
      return Err(fault.value);
    }
    db.users := db.users[id := UserRow(request.name, request.email, None, joinDate, 0, now, now)];
    r := Ok(User(id, request.name, request.email, None, joinDate, false, now, now));
  }

  // ---------------------------------------------------------------------------
  // update_user: the change-set
  // ---------------------------------------------------------------------------

  /**
   * Field `j` of an update in builder order, as the change it makes when
   * present: `updated_at` always, then name, email, avatar path and the premium
   * flag (bound as 0 or 1).
   */
  function UserField(request: UpdateUserRequest, now: string, j: nat): Option<Change>
  {
    match j
    case 0 => Some(Change("updated_at", SqlText(now)))
    case 1 => if request.name.Some? then Some(Change("name", SqlText(request.name.value))) else None
    case 2 => if request.email.Some? then Some(Change("email", SqlText(request.email.value))) else None
    case 3 => if request.avatarPath.Some? then Some(Change("avatar_path", SqlText(request.avatarPath.value))) else None
    case _ => if request.isPremium.Some? then Some(Change("is_premium", SqlInt(if request.isPremium.value then 1 else 0))) else None
  }

  /** The present fields among the first `j`, in builder order. */
  function UserChangesUpTo(request: UpdateUserRequest, now: string, j: nat): (c: seq<Change>)
    ensures |c| <= j
    ensures j >= 1 ==> |c| >= 1 && c[0] == Change("updated_at", SqlText(now))
    decreases j
  {
    if j == 0 then [] else UserChangesUpTo(request, now, j - 1) + Opt(UserField(request, now, j - 1))
  }

  /** `updated_at` and the present text fields: what the builder has numbered when it reaches `is_premium`. */
  function LeadingChanges(request: UpdateUserRequest, now: string): (c: seq<Change>)
    ensures 1 <= |c| <= 4
  {
    UserChangesUpTo(request, now, 4)
  }

  /** Every change an update makes: `updated_at` first, then the present fields. */
  function UserChanges(request: UpdateUserRequest, now: string): (c: seq<Change>)
    ensures 1 <= |c| <= 5 && c[0] == Change("updated_at", SqlText(now))
  {
    UserChangesUpTo(request, now, 5)
  }

  /** The values both versions bind: now, the present fields, then the user id. */
  function UserValues(now: string, userId: string, request: UpdateUserRequest): seq<SqlValue>
  {
    Values(UserChanges(request, now)) + [SqlText(userId)]
  }

  /** The parameter vector, pushed field by field. */
  method BuildUserParams(now: string, userId: string, request: UpdateUserRequest) returns (params: seq<SqlValue>)
    ensures params == UserValues(now, userId, request)
  {
    ValuesStep(UserChangesUpTo(request, now, 0), UserField(request, now, 0), []);
    params := [SqlText(now)];
    ValuesStep(UserChangesUpTo(request, now, 1), UserField(request, now, 1), params);
    if request.name.Some? {
      params := params + [SqlText(request.name.value)];
    }
    ValuesStep(UserChangesUpTo(request, now, 2), UserField(request, now, 2), params);
    if request.email.Some? {
      params := params + [SqlText(request.email.value)];
    }
    ValuesStep(UserChangesUpTo(request, now, 3), UserField(request, now, 3), params);
    if request.avatarPath.Some? {
      params := params + [SqlText(request.avatarPath.value)];
    }
    ValuesStep(UserChangesUpTo(request, now, 4), UserField(request, now, 4), params);
    if request.isPremium.Some? {
      params := params + [SqlInt(if request.isPremium.value then 1 else 0)];
    }
    params := params + [SqlText(userId)];
  }

  // ---------------------------------------------------------------------------
  // update_user: the SET list as written and as intended
  // ---------------------------------------------------------------------------

  /**
   * The statement as written: `updated_at = ?1`, the text fields numbered from
   * 2, then `is_premium` at the index the text fields left, which WHERE uses too.
   */
  function WrittenUserStatement(request: UpdateUserRequest, now: string): UpdateStatement
  {
    var index := |LeadingChanges(request, now)| + 1;
    UpdateStatement("users", Numbered(LeadingChanges(request, now), 1) + PremiumClause(request, index), index)
  }

  /** The `is_premium` clause as written: numbered with the index the text fields left. */
  function PremiumClause(request: UpdateUserRequest, index: nat): seq<Assignment>
  {
    if request.isPremium.Some? then [Assignment("is_premium", index)] else []
  }

  /** The statement as intended: every change numbered consecutively from 1, WHERE after them. */
  function UserStatement(request: UpdateUserRequest, now: string): UpdateStatement
  {
    var changes := UserChanges(request, now);
    UpdateStatement("users", Numbered(changes, 1), |changes| + 1)
  }

  /** The SET list as the source builds it: the `is_premium` branch does not advance the index. */
  method BuildUserClausesAsWritten(request: UpdateUserRequest, now: string) returns (updates: seq<Assignment>, paramIdx: nat)
    ensures paramIdx == |LeadingChanges(request, now)| + 1
    ensures updates == Numbered(LeadingChanges(request, now), 1) + PremiumClause(request, paramIdx)
  {
    NumberedStep(UserChangesUpTo(request, now, 0), UserField(request, now, 0), 1, [], 1);
    updates := [Assignment("updated_at", 1)];
    paramIdx := 2;
    NumberedStep(UserChangesUpTo(request, now, 1), UserField(request, now, 1), 1, updates, paramIdx);
    if request.name.Some? {
      updates := updates + [Assignment("name", paramIdx)];
      paramIdx := paramIdx + 1;
    }
    NumberedStep(UserChangesUpTo(request, now, 2), UserField(request, now, 2), 1, updates, paramIdx);
    if request.email.Some? {
      updates := updates + [Assignment("email", paramIdx)];
      paramIdx := paramIdx + 1;
    }
    NumberedStep(UserChangesUpTo(request, now, 3), UserField(request, now, 3), 1, updates, paramIdx);
    if request.avatarPath.Some? {
      updates := updates + [Assignment("avatar_path", paramIdx)];
      paramIdx := paramIdx + 1;
    }
    assert updates == Numbered(LeadingChanges(request, now), 1) && paramIdx == |LeadingChanges(request, now)| + 1;
    if request.isPremium.Some? {
      updates := updates + [Assignment("is_premium", paramIdx)];
    }
    assert updates == Numbered(LeadingChanges(request, now), 1) + PremiumClause(request, paramIdx);
  }

  /** The SET list with the index advanced after `is_premium` as after every other field. */
  method BuildUserClauses(request: UpdateUserRequest, now: string) returns (updates: seq<Assignment>, paramIdx: nat)
    ensures updates == UserStatement(request, now).assignments
    ensures paramIdx == UserStatement(request, now).whereIndex
  {
    NumberedStep(UserChangesUpTo(request, now, 0), UserField(request, now, 0), 1, [], 1);
    updates := [Assignment("updated_at", 1)];
    paramIdx := 2;
    NumberedStep(UserChangesUpTo(request, now, 1), UserField(request, now, 1), 1, updates, paramIdx);
    if request.name.Some? {
      updates := updates + [Assignment("name", paramIdx)];
      paramIdx := paramIdx + 1;
    }
    NumberedStep(UserChangesUpTo(request, now, 2), UserField(request, now, 2), 1, updates, paramIdx);
    if request.email.Some? {
      updates := updates + [Assignment("email", paramIdx)];
      paramIdx := paramIdx + 1;
    }
    NumberedStep(UserChangesUpTo(request, now, 3), UserField(request, now, 3), 1, updates, paramIdx);
    if request.avatarPath.Some? {
      updates := updates + [Assignment("avatar_path", paramIdx)];
      paramIdx := paramIdx + 1;
    }
    NumberedStep(UserChangesUpTo(request, now, 4), UserField(request, now, 4), 1, updates, paramIdx);
    if request.isPremium.Some? {
      updates := updates + [Assignment("is_premium", paramIdx)];
      paramIdx := paramIdx + 1;
    }
  }

  // ---------------------------------------------------------------------------
  // update_user: running the statement
  // ---------------------------------------------------------------------------

  /** How SQLite writes one bound value into a `users` column. */
  function SetUserColumn(row: UserRow, column: string, v: SqlValue): UserRow
  {
    match column
    case "updated_at" => if v.SqlText? then row.(updatedAt := v.text) else row
    case "name" => if v.SqlText? then row.(name := v.text) else row
    case "email" => if v.SqlText? then row.(email := Some(v.text)) else row
    case "avatar_path" => if v.SqlText? then row.(avatarPath := Some(v.text)) else row
    case "is_premium" => if v.SqlInt? then row.(isPremium := v.number) else row
    case _ => row
  }

  /** Running an UPDATE on `users`: the row whose id is bound to the WHERE placeholder, if any, is rewritten. */
  function ExecuteUserUpdate(users: map<string, UserRow>, st: UpdateStatement, values: seq<SqlValue>)
    : map<string, UserRow>
  {
    if 1 <= st.whereIndex <= |values| && BoundValue(values, st.whereIndex).SqlText? then
      var id := BoundValue(values, st.whereIndex).text;
      if id in users then users[id := ApplyAssignments(users[id], SetUserColumn, st.assignments, values)] else users
    else users
  }

  /** Bind, execute (unless the statement fails), then read the row back. */
  function RunUserUpdate(
    users: map<string, UserRow>, userId: string, st: UpdateStatement, values: seq<SqlValue>, fault: Option<string>)
    : Written<User>
  {
    match Bind(st, values)
    case Err(e) => Written(Err(e), users)
    case Ok(_) =>
      if fault.Some? then Written(Err(fault.value), users)
      else
        var users' := ExecuteUserUpdate(users, st, values);
        Written(GetUserById(users', userId), users')
  }

  /**
   * `update_user` as written: with the premium flag in the request it binds
   * one value more than the statement has placeholders and fails, writing
   * nothing; without it, it is the intended update.
   */
  function UpdateUserAsWritten(
    users: map<string, UserRow>, userId: string, request: UpdateUserRequest, now: string, fault: Option<string>)
    : (w: Written<User>)
    ensures request.isPremium.Some? ==>
      var n := |LeadingChanges(request, now)|;
      w == Written(Err(WrongParameterCount(n + 2, n + 1)), users)
    ensures request.isPremium.None? ==> w == UpdateUserSpec(users, userId, request, now, fault)
  {
    if request.isPremium.Some? then PremiumStatementMiscounts(request, now, userId); RunUserUpdate(users, userId, WrittenUserStatement(request, now), UserValues(now, userId, request), fault)
    else WithoutPremiumBothAgree(request, now, userId); RunUserUpdate(users, userId, WrittenUserStatement(request, now), UserValues(now, userId, request), fault)
  }

  /**
   * `update_user` with the index advanced after `is_premium`: an unknown id
   * ends in an error and writes nothing; otherwise the row is rewritten as it
   * should be and returned, and no other row changes.
   */
  function UpdateUserSpec(
    users: map<string, UserRow>, userId: string, request: UpdateUserRequest, now: string, fault: Option<string>)
    : (w: Written<User>)
    ensures userId !in users ==> w.result.Err? && w.users == users
    ensures w.result.Err? ==> w.users == users
    ensures w.result.Ok? <==> userId in users && fault.None?
    ensures w.result.Ok? ==>
      w.users == users[userId := UpdatedUserRow(users[userId], request, now)] &&
      w.result.value == UserOf(userId, UpdatedUserRow(users[userId], request, now))
  {
    UserStatementBinds(request, now, userId);
    if userId in users then UserUpdateExecutes(users, userId, request, now); RunUserUpdate(users, userId, UserStatement(request, now), UserValues(now, userId, request), fault)
    else RunUserUpdate(users, userId, UserStatement(request, now), UserValues(now, userId, request), fault)
  }

  /** The command as the source runs it, statement by statement. */
  method UpdateUserCommandAsWritten(db: Database, userId: string, request: UpdateUserRequest, now: string, fault: Option<string>)
    returns (r: Result<User>)
    modifies db`users
    ensures Written(r, db.users) == UpdateUserAsWritten(old(db.users), userId, request, now, fault)
  {
    var updates, paramIdx := BuildUserClausesAsWritten(request, now);
    var query := UpdateStatement("users", updates, paramIdx);
    var params := BuildUserParams(now, userId, request);
    var bound := Bind(query, params);
    match bound {
      case Err(e) => return Err(e);
      case Ok(_) =>
    }
    if fault.Some? {
      return Err(fault.value);
    }
    db.users := ExecuteUserUpdate(db.users, query, params);
    r := GetUserById(db.users, userId);
  }

  /** The command with the corrected builder. */
  method UpdateUser(db: Database, userId: string, request: UpdateUserRequest, now: string, fault: Option<string>)
    returns (r: Result<User>)
    modifies db`users
    ensures Written(r, db.users) == UpdateUserSpec(old(db.users), userId, request, now, fault)
  {
    var updates, paramIdx := BuildUserClauses(request, now);
    var query := UpdateStatement("users", updates, paramIdx);
    var params := BuildUserParams(now, userId, request);
    var bound := Bind(query, params);
    match bound {
      case Err(e) => return Err(e);
      case Ok(_) =>
    }
    if fault.Some? {
      return Err(fault.value);
    }
    db.users := ExecuteUserUpdate(db.users, query, params);
    r := GetUserById(db.users, userId);
  }

  // ---------------------------------------------------------------------------
  // update_user: what the two builders do
  // ---------------------------------------------------------------------------

  /** Both versions always write `updated_at = ?1` bound to now, even for an empty change-set. */
  lemma UpdatedAtAlwaysWritten(request: UpdateUserRequest, now: string, userId: string)
    ensures WrittenUserStatement(request, now).assignments[0] == Assignment("updated_at", 1)
    ensures UserStatement(request, now).assignments[0] == Assignment("updated_at", 1)
    ensures UserValues(now, userId, request)[0] == SqlText(now)
  {
  }

  /**
   * Without `is_premium` the two versions are the same statement: `updated_at`
   * and the present text fields at placeholders 1, 2, ..., each bound to its own
   * value, WHERE at the next placeholder bound to the id, as many values as
   * placeholders.
   */
  lemma WithoutPremiumBothAgree(request: UpdateUserRequest, now: string, userId: string)
    requires request.isPremium.None?
    ensures WrittenUserStatement(request, now) == UserStatement(request, now)
    ensures var st := UserStatement(request, now);
      var values := UserValues(now, userId, request);
      var leading := LeadingChanges(request, now);
      st.whereIndex == |leading| + 1 && ParameterCount(st) == |values| == |leading| + 1 && Bind(st, values) == Ok(Unit) &&
      (forall i | 0 <= i < |leading| ::
        st.assignments[i] == Assignment(leading[i].column, i + 1) && BoundValue(values, i + 1) == leading[i].value) &&
      BoundValue(values, st.whereIndex) == SqlText(userId)
  {
    assert UserChanges(request, now) == LeadingChanges(request, now) + Opt(UserField(request, now, 4));
    assert UserChanges(request, now) == LeadingChanges(request, now);
    assert Numbered(LeadingChanges(request, now), 1) + [] == Numbered(LeadingChanges(request, now), 1);
    MaxIndexNumbered(UserChanges(request, now), 1);
  }

  /**
   * As written, setting the premium flag numbers `is_premium` with the WHERE
   * placeholder, so the statement has one placeholder fewer than the values
   * bound to it.
   */
  lemma PremiumStatementMiscounts(request: UpdateUserRequest, now: string, userId: string)
    requires request.isPremium.Some?
    ensures var n := |LeadingChanges(request, now)|;
      var st := WrittenUserStatement(request, now);
      ParameterCount(st) == n + 1 && |UserValues(now, userId, request)| == n + 2 &&
      st.assignments[|st.assignments| - 1] == Assignment("is_premium", st.whereIndex)
  {
    var leading := LeadingChanges(request, now);
    MaxIndexNumbered(leading, 1);
    assert UserChanges(request, now) == leading + Opt(UserField(request, now, 4));
    PremiumMaxIndex(Numbered(leading, 1), |leading| + 1);
  }

  lemma PremiumMaxIndex(assignments: seq<Assignment>, index: nat)
    requires MaxIndex(assignments) == index - 1
    ensures MaxIndex(assignments + [Assignment("is_premium", index)]) == index
  {
    var all := assignments + [Assignment("is_premium", index)];
    assert all[|all| - 1].index == index;
    forall i | 0 <= i < |all| ensures all[i].index <= index {
      if i < |assignments| { assert all[i] == assignments[i]; }
    }
    MaxIndexIsMax(all, index);
  }

  lemma MaxIndexIsMax(assignments: seq<Assignment>, m: nat)
    requires forall i | 0 <= i < |assignments| :: assignments[i].index <= m
    requires exists i | 0 <= i < |assignments| :: assignments[i].index == m
    ensures MaxIndex(assignments) == m
  {
    var i :| 0 <= i < |assignments| && assignments[i].index == m;
    var j :| 0 <= j < |assignments| && assignments[j].index == MaxIndex(assignments);
  }

  /** Upgrading to premium with nothing else changed fails with "Got 3, needed 2". */
  lemma UpgradeCounterexample(users: map<string, UserRow>, userId: string, now: string)
    ensures UpdateUserAsWritten(users, userId, UpdateUserRequest(None, None, None, Some(true)), now, None).result ==
      Err("Wrong number of parameters passed to query. Got 3, needed 2")
  {
    var request := UpdateUserRequest(None, None, None, Some(true));
    assert |LeadingChanges(request, now)| == 1 by {
      assert UserChangesUpTo(request, now, 1) == [Change("updated_at", SqlText(now))];
      assert UserChangesUpTo(request, now, 2) == UserChangesUpTo(request, now, 1);
      assert UserChangesUpTo(request, now, 3) == UserChangesUpTo(request, now, 2);
      assert UserChangesUpTo(request, now, 4) == UserChangesUpTo(request, now, 3);
    }
    assert UpdateUserAsWritten(users, userId, request, now, None).result == Err(WrongParameterCount(3, 2));
    ThreeForTwo();
  }

  lemma ThreeForTwo()
    ensures WrongParameterCount(3, 2) == "Wrong number of parameters passed to query. Got 3, needed 2"
  {
    assert NatToString(3) == "3" && NatToString(2) == "2";
  }

  /** The intended statement: every placeholder bound to its own change's value, WHERE to the id. */
  lemma UserStatementBinds(request: UpdateUserRequest, now: string, userId: string)
    ensures var st := UserStatement(request, now);
      var values := UserValues(now, userId, request);
      var changes := UserChanges(request, now);
      st.whereIndex == |changes| + 1 && ParameterCount(st) == |values| == |changes| + 1 && Bind(st, values) == Ok(Unit) &&
      (forall i | 0 <= i < |changes| :: BoundValue(values, st.assignments[i].index) == changes[i].value) &&
      BoundValue(values, st.whereIndex) == SqlText(userId)
  {
    MaxIndexNumbered(UserChanges(request, now), 1);
  }

  /** The row an update should leave: updated now, present fields set, the premium flag as 0 or 1. */
  function UpdatedUserRow(row: UserRow, request: UpdateUserRequest, now: string): UserRow
  {
    UserRow(
      if request.name.Some? then request.name.value else row.name,
      if request.email.Some? then request.email else row.email,
      if request.avatarPath.Some? then request.avatarPath else row.avatarPath,
      row.joinDate,
      if request.isPremium.Some? then (if request.isPremium.value then 1 else 0) else row.isPremium,
      row.createdAt,
      now)
  }

  lemma UserChangesWrite(row: UserRow, request: UpdateUserRequest, now: string)
    ensures ApplyChanges(row, SetUserColumn, UserChanges(request, now)) == UpdatedUserRow(row, request, now)
  {
    var r := request;
    var w := SetUserColumn;
    var r0 := row.(updatedAt := now);
    assert ApplyChanges(row, w, UserChangesUpTo(r, now, 1)) == r0 by {
      ApplyStep(row, w, UserChangesUpTo(r, now, 0), UserField(r, now, 0));
    }
    var r1 := if r.name.Some? then r0.(name := r.name.value) else r0;
    assert ApplyChanges(row, w, UserChangesUpTo(r, now, 2)) == r1 by {
      ApplyStep(row, w, UserChangesUpTo(r, now, 1), UserField(r, now, 1));
    }
    var r2 := if r.email.Some? then r1.(email := r.email) else r1;
    assert ApplyChanges(row, w, UserChangesUpTo(r, now, 3)) == r2 by {
      ApplyStep(row, w, UserChangesUpTo(r, now, 2), UserField(r, now, 2));
    }
    var r3 := if r.avatarPath.Some? then r2.(avatarPath := r.avatarPath) else r2;
    assert ApplyChanges(row, w, UserChangesUpTo(r, now, 4)) == r3 by {
      ApplyStep(row, w, UserChangesUpTo(r, now, 3), UserField(r, now, 3));
    }
    ApplyStep(row, w, UserChangesUpTo(r, now, 4), UserField(r, now, 4));
  }

  /** Executing the intended statement rewrites the user's row as it should be, and nothing else. */
  lemma UserUpdateExecutes(users: map<string, UserRow>, userId: string, request: UpdateUserRequest, now: string)
    requires userId in users
    ensures ExecuteUserUpdate(users, UserStatement(request, now), UserValues(now, userId, request)) ==
      users[userId := UpdatedUserRow(users[userId], request, now)]
  {
    var st := UserStatement(request, now);
    var changes := UserChanges(request, now);
    var values := UserValues(now, userId, request);
    assert st.whereIndex == |values| && values[|values| - 1] == SqlText(userId);
    var row := users[userId];
    assert ExecuteUserUpdate(users, st, values) == users[userId := ApplyAssignments(row, SetUserColumn, st.assignments, values)];
    ApplyNumberedValues(row, SetUserColumn, changes, [SqlText(userId)]);
    UserChangesWrite(row, request, now);
  }

  /** The returned profile shows each present field's new value, the old value of each absent one, and `updated_at` now. */
  lemma UpdatedUserFields(row: UserRow, userId: string, request: UpdateUserRequest, now: string)
    ensures var u := UserOf(userId, UpdatedUserRow(row, request, now));
      var before := UserOf(userId, row);
      u.id == userId && u.joinDate == row.joinDate && u.createdAt == row.createdAt && u.updatedAt == now &&
      u.name == (if request.name.Some? then request.name.value else before.name) &&
      u.email == (if request.email.Some? then request.email else before.email) &&
      u.avatarPath == (if request.avatarPath.Some? then request.avatarPath else before.avatarPath) &&
      u.isPremium == (if request.isPremium.Some? then request.isPremium.value else before.isPremium)
  {
  }

  // ---------------------------------------------------------------------------
  // delete_user
  // ---------------------------------------------------------------------------

  /** Which of the five deletes fail, in statement order. */
  datatype DeleteFaults = DeleteFaults(
    sessions: Option<string>, tasks: Option<string>, userAchievements: Option<string>,
    settings: Option<string>, user: Option<string>)

  function SessionsWithout(sessions: map<string, SessionRow>, u: string): (r: map<string, SessionRow>)
    ensures forall id :: id in r <==> id in sessions && sessions[id].userId != u
    ensures forall id | id in r :: r[id] == sessions[id]
  {
    map id | id in sessions && sessions[id].userId != u :: sessions[id]
  }

  function TasksWithout(tasks: map<string, TaskRow>, u: string): (r: map<string, TaskRow>)
    ensures forall id :: id in r <==> id in tasks && tasks[id].userId != u
    ensures forall id | id in r :: r[id] == tasks[id]
  {
    map id | id in tasks && tasks[id].userId != u :: tasks[id]
  }

  function UserAchievementsWithout(rows: map<string, string>, u: string): (r: map<string, string>)
    ensures forall id :: id in r <==> id in rows && rows[id] != u
    ensures forall id | id in r :: r[id] == rows[id]
  {
    map id | id in rows && rows[id] != u :: rows[id]
  }

  function SettingsWithout(settings: map<(string, string), SettingRow>, u: string): (r: map<(string, string), SettingRow>)
    ensures forall k :: k in r <==> k in settings && k.0 != u
    ensures forall k | k in r :: r[k] == settings[k]
  {
    map k | k in settings && k.0 != u :: settings[k]
  }

  /**
   * `delete_user`: the user's sessions, tasks, `user_achievements` rows and
   * settings, then the user, each its own statement; the first failure is
   * returned and the deletes before it stay done. `daily_stats` and
   * `achievements` are not touched.
   */
  method DeleteUser(db: Database, u: string, f: DeleteFaults) returns (r: Result<Unit>)
    modifies db`sessions, db`tasks, db`userAchievements, db`settings, db`users
    ensures db.dailyStats == old(db.dailyStats) && db.achievements == old(db.achievements)
    ensures f.sessions.Some? ==>
      (r == Err(f.sessions.value) &&
       db.sessions == old(db.sessions) && db.tasks == old(db.tasks) && db.userAchievements == old(db.userAchievements) &&
       db.settings == old(db.settings) && db.users == old(db.users))
    ensures f.sessions.None? ==> db.sessions == SessionsWithout(old(db.sessions), u)
    ensures f.sessions.None? && f.tasks.Some? ==>
      (r == Err(f.tasks.value) &&
       db.tasks == old(db.tasks) && db.userAchievements == old(db.userAchievements) &&
       db.settings == old(db.settings) && db.users == old(db.users))
    ensures f.sessions.None? && f.tasks.None? ==> db.tasks == TasksWithout(old(db.tasks), u)
    ensures f.sessions.None? && f.tasks.None? && f.userAchievements.Some? ==>
      (r == Err(f.userAchievements.value) &&
       db.userAchievements == old(db.userAchievements) && db.settings == old(db.settings) && db.users == old(db.users))
    ensures f.sessions.None? && f.tasks.None? && f.userAchievements.None? ==>
      db.userAchievements == UserAchievementsWithout(old(db.userAchievements), u)
    ensures f.sessions.None? && f.tasks.None? && f.userAchievements.None? && f.settings.Some? ==>
      (r == Err(f.settings.value) && db.settings == old(db.settings) && db.users == old(db.users))
    ensures f.sessions.None? && f.tasks.None? && f.userAchievements.None? && f.settings.None? ==>
      db.settings == SettingsWithout(old(db.settings), u)
    ensures f.sessions.None? && f.tasks.None? && f.userAchievements.None? && f.settings.None? && f.user.Some? ==>
      (r == Err(f.user.value) && db.users == old(db.users))
    ensures f.sessions.None? && f.tasks.None? && f.userAchievements.None? && f.settings.None? && f.user.None? ==>
      (r == Ok(Unit) && db.users == old(db.users) - {u})
  {
    if f.sessions.Some? {
      return Err(f.sessions.value);
    }
    db.sessions := SessionsWithout(db.sessions, u);
    if f.tasks.Some? {
      return Err(f.tasks.value);
    }
    db.tasks := TasksWithout(db.tasks, u);
    if f.userAchievements.Some? {
      return Err(f.userAchievements.value);
    }
    db.userAchievements := UserAchievementsWithout(db.userAchievements, u);
    if f.settings.Some? {
      return Err(f.settings.value);
    }
    db.settings := SettingsWithout(db.settings, u);
    if f.user.Some? {
      return Err(f.user.value);
    }
    db.users := db.users - {u};
    r := Ok(Unit);
  }
}
