/**
 * The add-task form: title, category and the two times, saved for the date
 * selected in the calendar. A save sends the trimmed title and the date as
 * `YYYY-MM-DD`, resets the form, closes the modal and shows a success toast.
 */
module AddTask {
  import opened Wrappers
  import opened Text
  import opened Dates
  import opened TaskModel
  import opened TaskStore
  import opened Toasts

  const DefaultStartTime: string := "09:00"
  const DefaultEndTime: string := "10:00"

  /** The success toast for a saved title. */
  function CreatedToast(title: string): (t: ToastRequest)
    ensures t.kind == Success && t.title == "Task Created" && t.duration == None
    ensures t.message == Some("\"" + title + "\" added to your schedule.")
  {
    ToastRequest(Success, "Task Created", Some("\"" + title + "\" added to your schedule."), None)
  }

  /** The save button is enabled exactly when the title is more than whitespace. */
  predicate CanSave(title: string)
  {
    Trim(title) != ""
  }

  class TaskForm {
    var title: string
    var category: TaskCategory
    var startTime: string
    var endTime: string

    /** The form's resting state: no title, "To Do", 09:00 to 10:00. */
    predicate IsReset()
      reads this
    {
      title == "" && category == ToDo && startTime == DefaultStartTime && endTime == DefaultEndTime
    }

    constructor()
      ensures IsReset()
    {
      title, category, startTime, endTime := "", ToDo, DefaultStartTime, DefaultEndTime;
    }

    /** The inputs' `onChange` handlers. */
    method Edit(newTitle: string, newCategory: TaskCategory, newStart: string, newEnd: string)
      modifies this
      ensures title == newTitle && category == newCategory && startTime == newStart && endTime == newEnd
    {
      title, category, startTime, endTime := newTitle, newCategory, newStart, newEnd;
    }

    /**
     * `handleSave`: a blank title does nothing. Otherwise the new task is handed to
     * `onSave`, the form resets, the modal closes and the toast is shown.
     */
    method Save(selectedDate: Date) returns (saved: Option<TaskDraft>, closed: bool, toast: Option<ToastRequest>)
      requires ValidDate(selectedDate)
      modifies this
      ensures !CanSave(old(title)) ==> saved == None && !closed && toast == None
      ensures !CanSave(old(title)) ==>
        title == old(title) && category == old(category) && startTime == old(startTime) && endTime == old(endTime)
      ensures CanSave(old(title)) ==> closed && IsReset()
      ensures CanSave(old(title)) ==>
        saved == Some(TaskDraft(Trim(old(title)), old(category), LocalDateString(selectedDate), old(startTime), old(endTime)))
      ensures CanSave(old(title)) ==> toast == Some(CreatedToast(Trim(old(title))))
    {
      var trimmed := Trim(title);
      if trimmed == "" {
        return None, false, None;
      }
      var dateStr := LocalDateString(selectedDate);
      saved := Some(TaskDraft(trimmed, category, dateStr, startTime, endTime));
      title, category, startTime, endTime := "", ToDo, DefaultStartTime, DefaultEndTime;
      closed := true;
      toast := Some(CreatedToast(trimmed));
    }
  }

  /** A saved title is never blank, has no whitespace at either end, and trimming it again changes nothing. */
  lemma SavedTitleIsTrimmed(title: string)
    requires CanSave(title)
    ensures var t := Trim(title);
      t != "" && !IsJsWhitespace(t[0]) && !IsJsWhitespace(t[|t| - 1]) && Trim(t) == t
  {
    var t := Trim(title);
    TrimOfTrimmed(t);
  }

  /** A string with no whitespace at either end is its own trim. */
  lemma TrimOfTrimmed(t: string)
    requires t != [] && !IsJsWhitespace(t[0]) && !IsJsWhitespace(t[|t| - 1])
    ensures Trim(t) == t
  {
    assert TrimStart(t) == t;
    assert TrimEnd(t) == t;
  }

  /** A blank title (only spaces, tabs, newlines and the like) cannot be saved. */
  lemma BlankCannotSave(title: string)
    requires forall i | 0 <= i < |title| :: IsJsWhitespace(title[i])
    ensures !CanSave(title)
  {
  }
}
