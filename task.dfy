/**
 * The commands over the `tasks` table: create, list (for one day or all),
 * the sparse update with its dynamically built `UPDATE` statement, delete,
 * toggle, and the by-id read every write ends with. The UUID and clock reading
 * of a create are parameters; a failing write statement is given by a fault
 * parameter holding its error text.
 */
module TaskCommands {
  import opened Wrappers
  import opened Text
  import opened Collections
  import opened Db
  import opened TaskModel

  /** A command's result and the `tasks` table it leaves. */
  datatype Written<T> = Written(result: Result<T>, tasks: map<string, TaskRow>)

  /** A stored row read back as a `Task`: an unknown category token reads as To Do, and only 1 is completed. */
  function TaskOf(id: string, row: TaskRow): Task
  {
    Task(id, row.userId, row.title, DecodeCategory(row.category), row.date, row.startTime, row.endTime,
         row.completed == 1, row.createdAt)
  }

  /** `get_task_by_id`: the row with that id, or rusqlite's no-rows error. */
  function GetTaskById(tasks: map<string, TaskRow>, id: string): (r: Result<Task>)
    ensures r.Ok? <==> id in tasks
    ensures r.Err? ==> r.error == NoRows
    ensures r.Ok? ==> r.value.id == id && r.value.userId == tasks[id].userId && r.value.createdAt == tasks[id].createdAt
  {
    if id in tasks then Ok(TaskOf(id, tasks[id])) else Err(NoRows)
  }

  // ---------------------------------------------------------------------------
  // create_task
  // ---------------------------------------------------------------------------

  /**
   * `create_task`: insert the request as an incomplete task stored with its
   * category's token. It succeeds exactly when the id is fresh and the insert
   * does not fail; then no other row changes and reading the task back gives
   * exactly the returned task.
   */
  function CreateTaskSpec(tasks: map<string, TaskRow>, request: CreateTaskRequest, id: string, now: string, fault: Option<string>)
    : (w: Written<Task>)
    ensures w.result.Ok? <==> id !in tasks && fault.None?
    ensures w.result.Err? ==> w.tasks == tasks
    ensures w.result.Ok? ==>
      id in w.tasks && w.tasks[id].completed == 0 && w.tasks[id].category == AsStr(request.category) &&
      !w.result.value.completed && w.result.value.title == request.title && w.result.value.category == request.category &&
      GetTaskById(w.tasks, id) == w.result &&
      w.tasks.Keys == tasks.Keys + {id} && forall other | other in tasks :: w.tasks[other] == tasks[other]
  {
    if id in tasks then Written(Err(UniqueViolation("tasks", "id")), tasks)
    else if fault.Some? then Written(Err(fault.value), tasks)
    else
      FromStrAsStr(request.category);
      var row := TaskRow(request.userId, request.title, AsStr(request.category), request.date,
                         request.startTime, request.endTime, 0, now);
      Written(Ok(Task(id, request.userId, request.title, request.category, request.date,
                      request.startTime, request.endTime, false, now)),
              tasks[id := row])
  }

  method CreateTask(db: Database, request: CreateTaskRequest, id: string, now: string, fault: Option<string>)
    returns (r: Result<Task>)
    modifies db`tasks
    ensures Written(r, db.tasks) == CreateTaskSpec(old(db.tasks), request, id, now, fault)
  {
    if id in db.tasks {
      return Err(UniqueViolation("tasks", "id"));
    }
    if fault.Some? {
      return Err(fault.value);
    }
    db.tasks := db.tasks[id := TaskRow(request.userId, request.title, AsStr(request.category), request.date,
                                       request.startTime, request.endTime, 0, now)];
    r := Ok(Task(id, request.userId, request.title, request.category, request.date,
                 request.startTime, request.endTime, false, now));
  }

  // ---------------------------------------------------------------------------
  // get_tasks
  // ---------------------------------------------------------------------------

  /** `ORDER BY start_time ASC`. */
  predicate ByStartTime(a: Task, b: Task)
  {
    StrLe(a.startTime, b.startTime)
  }

  /** `ORDER BY date DESC, start_time ASC`. */
  predicate ByDateDescThenStartTime(a: Task, b: Task)
  {
    StrLt(b.date, a.date) || (a.date == b.date && StrLe(a.startTime, b.startTime))
  }

  lemma OrdersTotal()
    ensures Total(ByStartTime) && Total(ByDateDescThenStartTime)
  {
    forall a: Task, b: Task ensures ByStartTime(a, b) || ByStartTime(b, a) {
      StrLeTotal(a.startTime, b.startTime);
    }
    forall a: Task, b: Task ensures ByDateDescThenStartTime(a, b) || ByDateDescThenStartTime(b, a) {
      StrLeTotal(a.startTime, b.startTime);
      StrLeTotal(a.date, b.date);
    }
  }

  /** The ids of the user's tasks, on the given date when there is one. */
  function Selected(tasks: map<string, TaskRow>, u: string, date: Option<string>): (ids: set<string>)
    ensures forall id :: id in ids <==> id in tasks && tasks[id].userId == u && (date.Some? ==> tasks[id].date == date.value)
  {
    set id | id in tasks && tasks[id].userId == u && (date.None? || tasks[id].date == date.value)
  }

  /** The rows with the given ids, read as tasks, in the order of the ids. */
  function TasksOf(tasks: map<string, TaskRow>, ids: seq<string>): (r: seq<Task>)
    requires forall i | 0 <= i < |ids| :: ids[i] in tasks
    ensures |r| == |ids|
    ensures forall i | 0 <= i < |ids| :: r[i] == TaskOf(ids[i], tasks[ids[i]])
  {
    seq(|ids|, i requires 0 <= i < |ids| => TaskOf(ids[i], tasks[ids[i]]))
  }

  /**
   * `get_tasks`: the user's tasks on `date` by start time, or all of them by date
   * descending, then start time.
   */
  function GetTasks(tasks: map<string, TaskRow>, u: string, date: Option<string>): (r: seq<Task>)
    ensures |r| == |Selected(tasks, u, date)|
    ensures forall t :: t in r <==> exists id | id in Selected(tasks, u, date) :: t == TaskOf(id, tasks[id])
    ensures forall t | t in r :: t.userId == u && (date.Some? ==> t.date == date.value)
    ensures date.Some? ==> SortedBy(r, ByStartTime)
    ensures date.None? ==> SortedBy(r, ByDateDescThenStartTime)
  {
    var selected := Selected(tasks, u, date);
    var ids := Ascending(selected);
    var rows := TasksOf(tasks, ids);
    OrdersTotal();
    var r := if date.Some? then SortBy(rows, ByStartTime) else SortBy(rows, ByDateDescThenStartTime);
    PermutedRows(tasks, selected, ids, r);
    forall t | t in r ensures t.userId == u && (date.Some? ==> t.date == date.value) {
      var id :| id in selected && t == TaskOf(id, tasks[id]);
    }
    r
  }

  /** Any reordering of the rows with the ids of `selected` holds exactly those rows, as many as there are ids. */
  lemma PermutedRows(tasks: map<string, TaskRow>, selected: set<string>, ids: seq<string>, r: seq<Task>)
    requires |ids| == |selected| && forall x :: x in ids <==> x in selected
    requires forall x | x in selected :: x in tasks
    requires multiset(r) == multiset(TasksOf(tasks, ids))
    ensures |r| == |selected|
    ensures forall t :: t in r <==> exists id | id in selected :: t == TaskOf(id, tasks[id])
  {
    var rows := TasksOf(tasks, ids);
    forall t ensures t in r <==> exists id | id in selected :: t == TaskOf(id, tasks[id]) {
      assert t in r <==> t in multiset(r);
      assert t in rows <==> t in multiset(rows);
      if t in rows {
        var i :| 0 <= i < |rows| && rows[i] == t;
        assert ids[i] in selected;
      }
      if exists id | id in selected :: t == TaskOf(id, tasks[id]) {
        var id :| id in selected && t == TaskOf(id, tasks[id]);
        var i :| 0 <= i < |ids| && ids[i] == id;
        assert rows[i] == t;
      }
    }
    assert |r| == |multiset(r)| == |multiset(rows)| == |rows|;
  }

  // ---------------------------------------------------------------------------
  // update_task
  // ---------------------------------------------------------------------------

  /** Field `j` of a change-set, in builder order, as the change it makes when present. */
  function TaskField(request: UpdateTaskRequest, j: nat): Option<Change>
  {
    match j
    case 0 => if request.title.Some? then Some(Change("title", SqlText(request.title.value))) else None
    case 1 => if request.category.Some? then Some(Change("category", SqlText(AsStr(request.category.value)))) else None
    case 2 => if request.date.Some? then Some(Change("date", SqlText(request.date.value))) else None
    case 3 => if request.startTime.Some? then Some(Change("start_time", SqlText(request.startTime.value))) else None
    case 4 => if request.endTime.Some? then Some(Change("end_time", SqlText(request.endTime.value))) else None
    case _ => if request.completed.Some? then Some(Change("completed", SqlInt(if request.completed.value then 1 else 0))) else None
  }

  /** The present fields among the first `j`, in builder order. */
  function TaskChangesUpTo(request: UpdateTaskRequest, j: nat): (c: seq<Change>)
    ensures |c| <= j
    decreases j
  {
    if j == 0 then [] else TaskChangesUpTo(request, j - 1) + Opt(TaskField(request, j - 1))
  }

  /** The present fields of a change-set, in builder order. */
  function TaskChanges(request: UpdateTaskRequest): (c: seq<Change>)
    ensures |c| <= 6
  {
    TaskChangesUpTo(request, 6)
  }

  /** A change-set with no field present makes no change. */
  lemma TaskChangesEmpty(request: UpdateTaskRequest)
    ensures TaskChanges(request) == [] <==> request == UpdateTaskRequest(None, None, None, None, None, None)
  {
  }

  /** The statement `update_task` runs, for a non-empty change-set. */
  function TaskStatement(request: UpdateTaskRequest): UpdateStatement
  {
    var changes := TaskChanges(request);
    UpdateStatement("tasks", Numbered(changes, 1), |changes| + 1)
  }

  /** The values `update_task` binds: the present fields, then the id. */
  function TaskValues(taskId: string, request: UpdateTaskRequest): seq<SqlValue>
  {
    Values(TaskChanges(request)) + [SqlText(taskId)]
  }

  /** The SET list, built field by field with a running placeholder index. */
  method BuildTaskClauses(request: UpdateTaskRequest) returns (updates: seq<Assignment>, paramIdx: nat)
    ensures updates == Numbered(TaskChanges(request), 1)
    ensures paramIdx == |TaskChanges(request)| + 1
  {
    updates := [];
    paramIdx := 1;
    NumberedStep(TaskChangesUpTo(request, 0), TaskField(request, 0), 1, updates, paramIdx);
    if request.title.Some? {
      updates := updates + [Assignment("title", paramIdx)];
      paramIdx := paramIdx + 1;
    }
    NumberedStep(TaskChangesUpTo(request, 1), TaskField(request, 1), 1, updates, paramIdx);
    if request.category.Some? {
      updates := updates + [Assignment("category", paramIdx)];
      paramIdx := paramIdx + 1;
    }
    NumberedStep(TaskChangesUpTo(request, 2), TaskField(request, 2), 1, updates, paramIdx);
    if request.date.Some? {
      updates := updates + [Assignment("date", paramIdx)];
      paramIdx := paramIdx + 1;
    }
    NumberedStep(TaskChangesUpTo(request, 3), TaskField(request, 3), 1, updates, paramIdx);
    if request.startTime.Some? {
      updates := updates + [Assignment("start_time", paramIdx)];
      paramIdx := paramIdx + 1;
    }
    NumberedStep(TaskChangesUpTo(request, 4), TaskField(request, 4), 1, updates, paramIdx);
    if request.endTime.Some? {
      updates := updates + [Assignment("end_time", paramIdx)];
      paramIdx := paramIdx + 1;
    }
    NumberedStep(TaskChangesUpTo(request, 5), TaskField(request, 5), 1, updates, paramIdx);
    if request.completed.Some? {
      updates := updates + [Assignment("completed", paramIdx)];
      paramIdx := paramIdx + 1;
    }
  }

  /** The bound values, pushed field by field, then the id. */
  method BuildTaskParams(taskId: string, request: UpdateTaskRequest) returns (params: seq<SqlValue>)
    ensures params == TaskValues(taskId, request)
  {
    params := [];
    ValuesStep(TaskChangesUpTo(request, 0), TaskField(request, 0), params);
    if request.title.Some? {
      params := params + [SqlText(request.title.value)];
    }
    ValuesStep(TaskChangesUpTo(request, 1), TaskField(request, 1), params);
    if request.category.Some? {
      params := params + [SqlText(AsStr(request.category.value))];
    }
    ValuesStep(TaskChangesUpTo(request, 2), TaskField(request, 2), params);
    if request.date.Some? {
      params := params + [SqlText(request.date.value)];
    }
    ValuesStep(TaskChangesUpTo(request, 3), TaskField(request, 3), params);
    if request.startTime.Some? {
      params := params + [SqlText(request.startTime.value)];
    }
    ValuesStep(TaskChangesUpTo(request, 4), TaskField(request, 4), params);
    if request.endTime.Some? {
      params := params + [SqlText(request.endTime.value)];
    }
    ValuesStep(TaskChangesUpTo(request, 5), TaskField(request, 5), params);
    if request.completed.Some? {
      params := params + [SqlInt(if request.completed.value then 1 else 0)];
    }
    params := params + [SqlText(taskId)];
  }

  /**
   * The statement and its values agree: clause `i` is `column = ?(i+1)` for the
   * `i`-th present field, in builder order, and placeholder `?(i+1)` is bound
   * to that field's value; WHERE uses `?(k+1)`, bound to the id; so there are
   * as many values as placeholders and binding succeeds.
   */
  lemma TaskStatementBinds(taskId: string, request: UpdateTaskRequest)
    ensures var st := TaskStatement(request);
      var values := TaskValues(taskId, request);
      var k := |TaskChanges(request)|;
      |st.assignments| == k && st.whereIndex == k + 1 &&
      (forall i | 0 <= i < k ::
        st.assignments[i].column == TaskChanges(request)[i].column && st.assignments[i].index == i + 1 &&
        BoundValue(values, st.assignments[i].index) == TaskChanges(request)[i].value) &&
      ParameterCount(st) == |values| == k + 1 && Bind(st, values) == Ok(Unit) &&
      BoundValue(values, st.whereIndex) == SqlText(taskId)
  {
    MaxIndexNumbered(TaskChanges(request), 1);
  }

  /** How SQLite writes one bound value into a `tasks` column. */
  function SetTaskColumn(row: TaskRow, column: string, v: SqlValue): TaskRow
  {
    match column
    case "title" => if v.SqlText? then row.(title := v.text) else row
    case "category" => if v.SqlText? then row.(category := v.text) else row
    case "date" => if v.SqlText? then row.(date := v.text) else row
    case "start_time" => if v.SqlText? then row.(startTime := v.text) else row
    case "end_time" => if v.SqlText? then row.(endTime := v.text) else row
    case "completed" => if v.SqlInt? then row.(completed := v.number) else row
    case _ => row
  }

  /** Running an UPDATE on `tasks`: the row whose id is bound to the WHERE placeholder, if any, is rewritten. */
  function ExecuteTaskUpdate(tasks: map<string, TaskRow>, st: UpdateStatement, values: seq<SqlValue>)
    : map<string, TaskRow>
  {
    if 1 <= st.whereIndex <= |values| && BoundValue(values, st.whereIndex).SqlText? then
      var id := BoundValue(values, st.whereIndex).text;
      if id in tasks then tasks[id := ApplyAssignments(tasks[id], SetTaskColumn, st.assignments, values)] else tasks
    else tasks
  }

  /** The row a change-set should leave: present fields take the new values (completed as 0 or 1), the rest stay. */
  function UpdatedTaskRow(row: TaskRow, request: UpdateTaskRequest): TaskRow
  {
    TaskRow(
      row.userId,
      if request.title.Some? then request.title.value else row.title,
      if request.category.Some? then AsStr(request.category.value) else row.category,
      if request.date.Some? then request.date.value else row.date,
      if request.startTime.Some? then request.startTime.value else row.startTime,
      if request.endTime.Some? then request.endTime.value else row.endTime,
      if request.completed.Some? then (if request.completed.value then 1 else 0) else row.completed,
      row.createdAt)
  }

  /** The first three fields of a change-set written field by field. */
  lemma TaskChangesWriteHead(row: TaskRow, r: UpdateTaskRequest)
    ensures ApplyChanges(row, SetTaskColumn, TaskChangesUpTo(r, 3)) ==
      row.(title := if r.title.Some? then r.title.value else row.title,
           category := if r.category.Some? then AsStr(r.category.value) else row.category,
           date := if r.date.Some? then r.date.value else row.date)
  {
    var w := SetTaskColumn;
    var r1 := if r.title.Some? then row.(title := r.title.value) else row;
    assert ApplyChanges(row, w, TaskChangesUpTo(r, 1)) == r1 by { ApplyStep(row, w, TaskChangesUpTo(r, 0), TaskField(r, 0)); }
    var r2 := if r.category.Some? then r1.(category := AsStr(r.category.value)) else r1;
    assert ApplyChanges(row, w, TaskChangesUpTo(r, 2)) == r2 by { ApplyStep(row, w, TaskChangesUpTo(r, 1), TaskField(r, 1)); }
    ApplyStep(row, w, TaskChangesUpTo(r, 2), TaskField(r, 2));
  }

  /** Writing the change-set field by field gives the row it should leave. */
  lemma TaskChangesWrite(row: TaskRow, request: UpdateTaskRequest)
    ensures ApplyChanges(row, SetTaskColumn, TaskChanges(request)) == UpdatedTaskRow(row, request)
  {
    var r := request;
    var w := SetTaskColumn;
    TaskChangesWriteHead(row, r);
    var r3 := ApplyChanges(row, w, TaskChangesUpTo(r, 3));
    var r4 := if r.startTime.Some? then r3.(startTime := r.startTime.value) else r3;
    assert ApplyChanges(row, w, TaskChangesUpTo(r, 4)) == r4 by { ApplyStep(row, w, TaskChangesUpTo(r, 3), TaskField(r, 3)); }
    var r5 := if r.endTime.Some? then r4.(endTime := r.endTime.value) else r4;
    assert ApplyChanges(row, w, TaskChangesUpTo(r, 5)) == r5 by { ApplyStep(row, w, TaskChangesUpTo(r, 4), TaskField(r, 4)); }
    ApplyStep(row, w, TaskChangesUpTo(r, 5), TaskField(r, 5));
  }

  /**
   * `update_task`, statement by statement: an empty change-set writes nothing
   * and returns the current row; an unknown id ends in an error; otherwise the
   * row takes the present fields' values and keeps the rest, and no other row
   * changes.
   */
  function UpdateTaskSpec(tasks: map<string, TaskRow>, taskId: string, request: UpdateTaskRequest, fault: Option<string>)
    : (w: Written<Task>)
    ensures TaskChanges(request) == [] ==> w.tasks == tasks && (w.result.Ok? <==> taskId in tasks)
    ensures TaskChanges(request) == [] && taskId in tasks ==> w.result == Ok(TaskOf(taskId, tasks[taskId]))
    ensures taskId !in tasks ==> w.result.Err? && w.tasks == tasks
    ensures w.result.Err? ==> w.tasks == tasks
    ensures TaskChanges(request) != [] ==> (w.result.Ok? <==> taskId in tasks && fault.None?)
    ensures TaskChanges(request) != [] && w.result.Ok? ==>
      w.tasks == tasks[taskId := UpdatedTaskRow(tasks[taskId], request)] &&
      w.result.value == TaskOf(taskId, UpdatedTaskRow(tasks[taskId], request))
  {
    if TaskChanges(request) == [] then Written(GetTaskById(tasks, taskId), tasks)
    else
      var st := TaskStatement(request);
      var values := TaskValues(taskId, request);
      TaskStatementBinds(taskId, request);
      UpdateExecutes(tasks, taskId, request);
      match Bind(st, values)
      case Err(e) => Written(Err(e), tasks)
      case Ok(_) =>
        if fault.Some? then Written(Err(fault.value), tasks)
        else
          var tasks' := ExecuteTaskUpdate(tasks, st, values);
          Written(GetTaskById(tasks', taskId), tasks')
  }

  method UpdateTask(db: Database, taskId: string, request: UpdateTaskRequest, fault: Option<string>)
    returns (r: Result<Task>)
    modifies db`tasks
    ensures Written(r, db.tasks) == UpdateTaskSpec(old(db.tasks), taskId, request, fault)
  {
    var updates, paramIdx := BuildTaskClauses(request);
    if |updates| == 0 {
      return GetTaskById(db.tasks, taskId);
    }
    var query := UpdateStatement("tasks", updates, paramIdx);
    var params := BuildTaskParams(taskId, request);
    var bound := Bind(query, params);
    if bound.Err? {
      return Err(bound.error);
    }
    if fault.Some? {
      return Err(fault.value);
    }
    db.tasks := ExecuteTaskUpdate(db.tasks, query, params);
    r := GetTaskById(db.tasks, taskId);
  }

  /** Executing the statement of a non-empty change-set rewrites that task's row as it should be, and nothing else. */
  lemma UpdateExecutes(tasks: map<string, TaskRow>, taskId: string, request: UpdateTaskRequest)
    requires TaskChanges(request) != []
    ensures taskId in tasks ==>
      ExecuteTaskUpdate(tasks, TaskStatement(request), TaskValues(taskId, request)) ==
      tasks[taskId := UpdatedTaskRow(tasks[taskId], request)]
  {
    if taskId in tasks {
      TaskStatementBinds(taskId, request);
      ApplyNumbered(tasks[taskId], SetTaskColumn, TaskChanges(request), 1, TaskValues(taskId, request));
      TaskChangesWrite(tasks[taskId], request);
    }
  }

  /** The returned task shows each present field's new value and the old value of each absent one. */
  lemma UpdatedTaskFields(row: TaskRow, taskId: string, request: UpdateTaskRequest)
    ensures var t := TaskOf(taskId, UpdatedTaskRow(row, request));
      var before := TaskOf(taskId, row);
      t.id == taskId && t.userId == row.userId && t.createdAt == row.createdAt &&
      t.title == (if request.title.Some? then request.title.value else before.title) &&
      t.category == (if request.category.Some? then request.category.value else before.category) &&
      t.date == (if request.date.Some? then request.date.value else before.date) &&
      t.startTime == (if request.startTime.Some? then request.startTime.value else before.startTime) &&
      t.endTime == (if request.endTime.Some? then request.endTime.value else before.endTime) &&
      t.completed == (if request.completed.Some? then request.completed.value else before.completed)
  {
    if request.category.Some? {
      FromStrAsStr(request.category.value);
    }
  }

  // ---------------------------------------------------------------------------
  // delete_task and toggle_task_completion
  // ---------------------------------------------------------------------------

  /** `delete_task`: removes the row if present; deleting an absent id is not an error. */
  method DeleteTask(db: Database, taskId: string, fault: Option<string>) returns (r: Result<Unit>)
    modifies db`tasks
    ensures fault.Some? ==> r == Err(fault.value) && db.tasks == old(db.tasks)
    ensures fault.None? ==> r == Ok(Unit) && db.tasks == old(db.tasks) - {taskId}
  {
    if fault.Some? {
      return Err(fault.value);
    }
    db.tasks := db.tasks - {taskId};
    r := Ok(Unit);
  }

  /** Only 1 counts as completed: 1 becomes 0 and every other value becomes 1. */
  function Toggled(completed: int): (r: int)
    ensures r == 0 || r == 1
    ensures r == 0 <==> completed == 1
  {
    if completed == 1 then 0 else 1
  }

  /**
   * `toggle_task_completion`: read the flag, write its toggle, read the row
   * back. An unknown id fails with no rows; otherwise only the flag of that row
   * changes and the returned task's `completed` is the negation of the old
   * reading.
   */
  function ToggleSpec(tasks: map<string, TaskRow>, taskId: string, fault: Option<string>): (w: Written<Task>)
    ensures taskId !in tasks ==> w == Written(Err(NoRows), tasks)
    ensures w.result.Err? ==> w.tasks == tasks
    ensures w.result.Ok? <==> taskId in tasks && fault.None?
    ensures w.result.Ok? ==>
      w.result.value.id == taskId && w.result.value.title == tasks[taskId].title &&
      w.result.value.completed == !(tasks[taskId].completed == 1) &&
      w.tasks == tasks[taskId := tasks[taskId].(completed := Toggled(tasks[taskId].completed))]
  {
    if taskId !in tasks then Written(Err(NoRows), tasks)
    else if fault.Some? then Written(Err(fault.value), tasks)
    else
      var tasks' := tasks[taskId := tasks[taskId].(completed := Toggled(tasks[taskId].completed))];
      Written(GetTaskById(tasks', taskId), tasks')
  }

  method ToggleTaskCompletion(db: Database, taskId: string, fault: Option<string>) returns (r: Result<Task>)
    modifies db`tasks
    ensures Written(r, db.tasks) == ToggleSpec(old(db.tasks), taskId, fault)
  {
    if taskId !in db.tasks {
      return Err(NoRows);
    }
    var currentCompleted := db.tasks[taskId].completed;
    var newCompleted := if currentCompleted == 1 then 0 else 1;
    if fault.Some? {
      return Err(fault.value);
    }
    db.tasks := db.tasks[taskId := db.tasks[taskId].(completed := newCompleted)];
    r := GetTaskById(db.tasks, taskId);
  }

  /** Toggling twice restores a table whose row held 0 or 1. */
  lemma ToggleTwiceRestores(tasks: map<string, TaskRow>, taskId: string, fault: Option<string>)
    ensures var w := ToggleSpec(tasks, taskId, fault);
      w.result.Ok? && (tasks[taskId].completed == 0 || tasks[taskId].completed == 1) ==>
        ToggleSpec(w.tasks, taskId, None).tasks == tasks
  {
    var w := ToggleSpec(tasks, taskId, fault);
    if w.result.Ok? && (tasks[taskId].completed == 0 || tasks[taskId].completed == 1) {
      assert w.tasks[taskId := w.tasks[taskId].(completed := Toggled(w.tasks[taskId].completed))] == tasks;
    }
  }
}
