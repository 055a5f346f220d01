/**
 * The frontend's task cache (a zustand store): a list of tasks with a loading
 * flag and the last error. Each action awaits one service call; the call's
 * outcome is a parameter (`Ok` with the backend's answer, or `Err` with the
 * rejection's message), and the signed-in user is passed in as the user store
 * holds it. An action whose promise rejects returns `Err`.
 */
module TaskStore {
  import opened Wrappers
  import opened TaskModel
  import opened UserModel

  /** `Omit<CreateTaskRequest, 'userId'>`: what a caller supplies to `createTask`. */
  datatype TaskDraft = TaskDraft(
    title: string, category: TaskCategory, date: string, startTime: string, endTime: string)

  /** The request sent to the service: the draft with the signed-in user's id. */
  function RequestFor(user: User, draft: TaskDraft): (q: CreateTaskRequest)
    ensures q.userId == user.id
    ensures q.title == draft.title && q.category == draft.category && q.date == draft.date
    ensures q.startTime == draft.startTime && q.endTime == draft.endTime
  {
    CreateTaskRequest(user.id, draft.title, draft.category, draft.date, draft.startTime, draft.endTime)
  }

  /** `tasks.filter(t => t.date !== date)`. */
  function WithoutDate(ts: seq<Task>, date: string): (r: seq<Task>)
    ensures |r| <= |ts|
    ensures forall t :: t in r <==> t in ts && t.date != date
    decreases |ts|
  {
    if ts == [] then []
    else if ts[0].date != date then [ts[0]] + WithoutDate(ts[1..], date)
    else WithoutDate(ts[1..], date)
  }

  /** `tasks.filter(t => t.date === date)`: the tasks on `date`, in cache order. */
  function OnDate(ts: seq<Task>, date: string): (r: seq<Task>)
    ensures |r| <= |ts|
    ensures forall t :: t in r <==> t in ts && t.date == date
    decreases |ts|
  {
    if ts == [] then []
    else if ts[0].date == date then [ts[0]] + OnDate(ts[1..], date)
    else OnDate(ts[1..], date)
  }

  /** `tasks.map(t => t.id === id ? task : t)`. */
  function ReplaceById(ts: seq<Task>, id: string, task: Task): (r: seq<Task>)
    ensures |r| == |ts|
    ensures forall i | 0 <= i < |ts| :: r[i] == if ts[i].id == id then task else ts[i]
    decreases |ts|
  {
    if ts == [] then []
    else [if ts[0].id == id then task else ts[0]] + ReplaceById(ts[1..], id, task)
  }

  /** `tasks.filter(t => t.id !== id)`. */
  function RemoveById(ts: seq<Task>, id: string): (r: seq<Task>)
    ensures |r| <= |ts|
    ensures forall t :: t in r <==> t in ts && t.id != id
    decreases |ts|
  {
    if ts == [] then []
    else if ts[0].id != id then [ts[0]] + RemoveById(ts[1..], id)
    else RemoveById(ts[1..], id)
  }

  /** JavaScript truthiness of the optional `date` argument: absent and "" are both false. */
  function Truthy(date: Option<string>): (r: bool)
    ensures r ==> date.Some? && |date.value| > 0
    ensures date.None? || date == Some("") ==> !r
  {
    date.Some? && date.value != ""
  }

  class TaskState {
    var tasks: seq<Task>
    var isLoading: bool
    var error: Option<string>

    constructor()
      ensures tasks == [] && !isLoading && error == None
    {
      tasks := [];
      isLoading := false;
      error := None;
    }

    /**
     * `fetchTasks(date?)`: with a date, the cached tasks of other dates stay,
     * in order, and the fetched list follows them; without one, the fetched
     * list replaces the cache. No user: nothing happens.
     */
    method FetchTasks(user: Option<User>, date: Option<string>, fetched: Result<seq<Task>>)
      modifies this
      ensures user.None? ==> tasks == old(tasks) && isLoading == old(isLoading) && error == old(error)
      ensures user.Some? && fetched.Ok? ==>
        tasks == (if Truthy(date) then WithoutDate(old(tasks), date.value) + fetched.value else fetched.value) &&
        !isLoading && error == None
      ensures user.Some? && fetched.Err? ==> tasks == old(tasks) && !isLoading && error == Some(fetched.error)
    {
      if user.None? {
        return;
      }
      isLoading, error := true, None;
      match fetched {
        case Ok(got) =>
          if Truthy(date) {
            tasks := WithoutDate(tasks, date.value) + got;
          } else {
            tasks := got;
          }
          isLoading := false;
        case Err(e) =>
          error, isLoading := Some(e), false;
      }
    }

    /** `fetchAllTasks`: the fetched list replaces the cache. No user: nothing happens. */
    method FetchAllTasks(user: Option<User>, fetched: Result<seq<Task>>)
      modifies this
      ensures user.None? ==> tasks == old(tasks) && isLoading == old(isLoading) && error == old(error)
      ensures user.Some? && fetched.Ok? ==> tasks == fetched.value && !isLoading && error == None
      ensures user.Some? && fetched.Err? ==> tasks == old(tasks) && !isLoading && error == Some(fetched.error)
    {
      if user.None? {
        return;
      }
      isLoading, error := true, None;
      match fetched {
        case Ok(got) =>
          tasks, isLoading := got, false;
        case Err(e) =>
          error, isLoading := Some(e), false;
      }
    }

    /**
     * `createTask`: throws "No user found" without a user (and sends nothing);
     * otherwise sends the draft under the user's id and appends the created task.
     */
    method CreateTask(user: Option<User>, draft: TaskDraft, created: Result<Task>)
      returns (r: Result<Task>, sent: Option<CreateTaskRequest>)
      modifies this
      ensures user.None? ==> r == Err("No user found") && sent == None
      ensures user.None? ==> tasks == old(tasks) && isLoading == old(isLoading) && error == old(error)
      ensures user.Some? ==> sent == Some(RequestFor(user.value, draft)) && r == created && !isLoading
      ensures user.Some? && created.Ok? ==> tasks == old(tasks) + [created.value] && error == None
      ensures user.Some? && created.Err? ==> tasks == old(tasks) && error == Some(created.error)
    {
      if user.None? {
        return Err("No user found"), None;
      }
      sent := Some(RequestFor(user.value, draft));
      isLoading, error := true, None;
      match created {
        case Ok(task) =>
          tasks, isLoading := tasks + [task], false;
        case Err(e) =>
          error, isLoading := Some(e), false;
      }
      r := created;
    }

    /** `updateTask`: every cached task with that id becomes the returned task. */
    method UpdateTask(taskId: string, request: UpdateTaskRequest, updated: Result<Task>) returns (r: Result<Unit>)
      modifies this
      ensures !isLoading
      ensures updated.Ok? ==> r == Ok(Unit) && tasks == ReplaceById(old(tasks), taskId, updated.value) && error == None
      ensures updated.Err? ==> r == Err(updated.error) && tasks == old(tasks) && error == Some(updated.error)
    {
      isLoading, error := true, None;
      match updated {
        case Ok(task) =>
          tasks, isLoading := ReplaceById(tasks, taskId, task), false;
          r := Ok(Unit);
        case Err(e) =>
          error, isLoading := Some(e), false;
          r := Err(e);
      }
    }

    /** `deleteTask`: once the service succeeds, the tasks with that id leave the cache. */
    method DeleteTask(taskId: string, deleted: Result<Unit>) returns (r: Result<Unit>)
      modifies this
      ensures !isLoading && r == deleted
      ensures deleted.Ok? ==> tasks == RemoveById(old(tasks), taskId) && error == None
      ensures deleted.Err? ==> tasks == old(tasks) && error == Some(deleted.error)
    {
      isLoading, error := true, None;
      match deleted {
        case Ok(_) =>
          tasks, isLoading := RemoveById(tasks, taskId), false;
        case Err(e) =>
          error, isLoading := Some(e), false;
      }
      r := deleted;
    }

    /** `toggleTask`: as `updateTask`, but the loading flag is never touched and a success keeps the last error. */
    method ToggleTask(taskId: string, toggled: Result<Task>) returns (r: Result<Unit>)
      modifies this
      ensures isLoading == old(isLoading)
      ensures toggled.Ok? ==> r == Ok(Unit) && tasks == ReplaceById(old(tasks), taskId, toggled.value) && error == old(error)
      ensures toggled.Err? ==> r == Err(toggled.error) && tasks == old(tasks) && error == Some(toggled.error)
    {
      match toggled {
        case Ok(task) =>
          tasks := ReplaceById(tasks, taskId, task);
          r := Ok(Unit);
        case Err(e) =>
          error := Some(e);
          r := Err(e);
      }
    }

    /** `getTasksForDate`. */
    function TasksForDate(date: string): (r: seq<Task>)
      reads this
      ensures forall t :: t in r <==> t in tasks && t.date == date
    {
      OnDate(tasks, date)
    }

    method ClearError()
      modifies this
      ensures error == None && tasks == old(tasks) && isLoading == old(isLoading)
    {
      error := None;
    }
  }

  // ---------------------------------------------------------------------------
  // Properties of the list operations
  // ---------------------------------------------------------------------------

  lemma {:induction false} OnDateAppend(a: seq<Task>, b: seq<Task>, date: string)
    ensures OnDate(a + b, date) == OnDate(a, date) + OnDate(b, date)
    decreases |a|
  {
    if a == [] {
      assert a + b == b;
    } else {
      assert (a + b)[1..] == a[1..] + b;
      OnDateAppend(a[1..], b, date);
    }
  }

  lemma {:induction false} OnDateOfAll(ts: seq<Task>, date: string)
    requires forall t | t in ts :: t.date == date
    ensures OnDate(ts, date) == ts
    decreases |ts|
  {
    if ts != [] {
      OnDateOfAll(ts[1..], date);
    }
  }

  lemma {:induction false} OnDateWithoutDate(ts: seq<Task>, date: string, other: string)
    ensures OnDate(WithoutDate(ts, date), other) == if other == date then [] else OnDate(ts, other)
    decreases |ts|
  {
    if ts != [] {
      OnDateWithoutDate(ts[1..], date, other);
    }
  }

  /**
   * A date-scoped fetch whose answer holds only tasks of that date: reading that
   * date afterwards gives exactly the answer, and every other date reads as before.
   */
  lemma FetchThenRead(ts: seq<Task>, date: string, fetched: seq<Task>, other: string)
    requires forall t | t in fetched :: t.date == date
    ensures OnDate(WithoutDate(ts, date) + fetched, date) == fetched
    ensures other != date ==> OnDate(WithoutDate(ts, date) + fetched, other) == OnDate(ts, other)
  {
    OnDateAppend(WithoutDate(ts, date), fetched, date);
    OnDateWithoutDate(ts, date, date);
    OnDateOfAll(fetched, date);
    if other != date {
      OnDateAppend(WithoutDate(ts, date), fetched, other);
      OnDateWithoutDate(ts, date, other);
      assert forall t | t in fetched :: t.date != other;
      OnDateNone(fetched, other);
    }
  }

  lemma {:induction false} OnDateNone(ts: seq<Task>, date: string)
    requires forall t | t in ts :: t.date != date
    ensures OnDate(ts, date) == []
    decreases |ts|
  {
    if ts != [] {
      OnDateNone(ts[1..], date);
    }
  }

  /** Removing an id undoes any replacement under that id. */
  lemma {:induction false} RemoveAfterReplace(ts: seq<Task>, id: string, task: Task)
    requires task.id == id
    ensures RemoveById(ReplaceById(ts, id, task), id) == RemoveById(ts, id)
    decreases |ts|
  {
    if ts != [] {
      assert ReplaceById(ts, id, task)[1..] == ReplaceById(ts[1..], id, task);
      RemoveAfterReplace(ts[1..], id, task);
    }
  }

  /** An id no cached task carries: replacing and removing it leave the cache as it is. */
  lemma {:induction false} UnknownIdIsNoOp(ts: seq<Task>, id: string, task: Task)
    requires forall t | t in ts :: t.id != id
    ensures ReplaceById(ts, id, task) == ts
    ensures RemoveById(ts, id) == ts
    decreases |ts|
  {
    if ts != [] {
      UnknownIdIsNoOp(ts[1..], id, task);
    }
  }
}
