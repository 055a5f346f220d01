/** Tasks: the category tokens and the record and request shapes. */
module TaskModel {
  import opened Wrappers

  datatype TaskCategory = ToDo | Event | Reminder

  const CategoryTokens: set<string> := {"To Do", "Event", "Reminder"}

  /** The token stored in the `category` column (note the space in "To Do"). */
  function AsStr(c: TaskCategory): (s: string)
    ensures s in CategoryTokens
  {
    match c
    case ToDo => "To Do"
    case Event => "Event"
    case Reminder => "Reminder"
  }

  function FromStr(s: string): (r: Option<TaskCategory>)
    ensures r.Some? <==> s in CategoryTokens
  {
    match s
    case "To Do" => Some(ToDo)
    case "Event" => Some(Event)
    case "Reminder" => Some(Reminder)
    case _ => None
  }

  /** The name each variant carries in JSON. */
  function SerdeName(c: TaskCategory): string
  {
    match c
    case ToDo => "To Do"
    case Event => "Event"
    case Reminder => "Reminder"
  }

  /** The category a stored token decodes to when reading a row: unknown tokens read as To Do. */
  function DecodeCategory(s: string): (c: TaskCategory)
    ensures s in CategoryTokens ==> AsStr(c) == s
    ensures s !in CategoryTokens ==> c == ToDo
  {
    match FromStr(s)
    case Some(c) => c
    case None => ToDo
  }

  lemma FromStrAsStr(c: TaskCategory)
    ensures FromStr(AsStr(c)) == Some(c)
  {
  }

  lemma AsStrFromStr(s: string)
    requires FromStr(s).Some?
    ensures AsStr(FromStr(s).value) == s
  {
  }

  lemma SerdeNameIsToken(c: TaskCategory)
    ensures SerdeName(c) == AsStr(c)
  {
  }

  datatype Task = Task(
    id: string, userId: string, title: string, category: TaskCategory,
    date: string, startTime: string, endTime: string, completed: bool, createdAt: string)

  datatype CreateTaskRequest = CreateTaskRequest(
    userId: string, title: string, category: TaskCategory,
    date: string, startTime: string, endTime: string)

  /** A sparse change-set: each field independently present or absent, in the order the update builder visits them. */
  datatype UpdateTaskRequest = UpdateTaskRequest(
    title: Option<string>, category: Option<TaskCategory>, date: Option<string>,
    startTime: Option<string>, endTime: Option<string>, completed: Option<bool>)
}
