/**
 * The focus timer's orb: a four-state machine (idle, forming, running,
 * dissolving) over the elapsed seconds and the one task picked for the session.
 * The 500 ms and 400 ms animations are `setTimeout` callbacks; the model keeps
 * the one scheduled callback in `pending` and fires it with `FireTimeout`. The
 * clock (`Date.now()`) is a parameter. A session handed to `onSessionComplete`
 * is returned as `Some((seconds, task))`.
 */
module FocusTimer {
  import opened Wrappers
  import opened Text
  import opened TaskModel

  datatype OrbState = Idle | Forming | Running | Dissolving

  /** A scheduled animation end: what the callback will do when it runs. */
  datatype Timeout =
    | StartRunning                                  // end of the forming animation
    | Pause                                         // end of the dissolving animation after a pause
    | ResetToIdle                                   // end of the dissolving animation after a reset
    | FinishToIdle(elapsed: int, task: Option<string>)  // end of the dissolving animation after "End Session"

  /** The animation each callback waits for, in milliseconds. */
  function Delay(t: Timeout): (ms: nat)
    ensures ms == 500 <==> t.StartRunning?
    ensures ms == 400 <==> !t.StartRunning?
  {
    if t.StartRunning? then 500 else 400
  }

  /** What `onSessionComplete` receives: `selectedTaskId || undefined` turns an empty id into none. */
  function Completion(elapsed: int, task: Option<string>): (c: Option<(int, Option<string>)>)
    ensures c.Some? <==> elapsed > 0
    ensures c.Some? ==> c.value.0 == elapsed && (c.value.1.Some? <==> task.Some? && task.value != "")
  {
    if elapsed > 0 then Some((elapsed, if task.Some? && task.value != "" then task else None)) else None
  }

  class Timer {
    var orbState: OrbState
    var elapsedTime: int
    var selectedTaskId: Option<string>
    var pending: Option<Timeout>
    var startTime: int

    /** A callback is pending exactly during an animation, and it is the one that animation scheduled. */
    predicate Valid()
      reads this
    {
      (pending.Some? <==> orbState == Forming || orbState == Dissolving) &&
      (orbState == Forming ==> pending == Some(StartRunning)) &&
      (orbState == Dissolving ==> pending.Some? && !pending.value.StartRunning?) &&
      elapsedTime >= 0
    }

    constructor()
      ensures Valid() && orbState == Idle && elapsedTime == 0 && selectedTaskId == None
    {
      orbState, elapsedTime, selectedTaskId, pending, startTime := Idle, 0, None, None, 0;
    }

    /** `handleOrbClick`: idle starts forming, running starts dissolving, and the animations ignore clicks. */
    method OrbClick()
      requires Valid()
      modifies this
      ensures Valid()
      ensures elapsedTime == old(elapsedTime) && selectedTaskId == old(selectedTaskId) && startTime == old(startTime)
      ensures old(orbState) == Idle ==> orbState == Forming && pending == Some(StartRunning)
      ensures old(orbState) == Running ==> orbState == Dissolving && pending == Some(Pause)
      ensures old(orbState) == Forming || old(orbState) == Dissolving ==>
        orbState == old(orbState) && pending == old(pending)
    {
      if orbState == Idle {
        orbState, pending := Forming, Some(StartRunning);
      } else if orbState == Running {
        orbState, pending := Dissolving, Some(Pause);
      }
    }

    /** `handleResume`: only an idle timer with time on it starts forming. */
    method Resume()
      requires Valid()
      modifies this
      ensures Valid()
      ensures elapsedTime == old(elapsedTime) && selectedTaskId == old(selectedTaskId) && startTime == old(startTime)
      ensures old(orbState) == Idle && old(elapsedTime) > 0 ==> orbState == Forming && pending == Some(StartRunning)
      ensures !(old(orbState) == Idle && old(elapsedTime) > 0) ==> orbState == old(orbState) && pending == old(pending)
    {
      if orbState == Idle && elapsedTime > 0 {
        orbState, pending := Forming, Some(StartRunning);
      }
    }

    /** The orb button: `handleResume` when idle with time on it, else `handleOrbClick`. */
    method Press()
      requires Valid()
      modifies this
      ensures Valid()
      ensures elapsedTime == old(elapsedTime) && selectedTaskId == old(selectedTaskId)
      ensures old(orbState) == Idle ==> orbState == Forming && pending == Some(StartRunning)
      ensures old(orbState) == Running ==> orbState == Dissolving && pending == Some(Pause)
    {
      if orbState == Idle && elapsedTime > 0 {
        Resume();
      } else {
        OrbClick();
      }
    }

    /**
     * `handleReset` (its button is disabled during the animations): a running
     * timer dissolves before clearing; an idle one clears at once.
     */
    method Reset()
      requires Valid() && (orbState == Idle || orbState == Running)
      modifies this
      ensures Valid() && startTime == old(startTime)
      ensures old(orbState) == Running ==> (orbState == Dissolving && pending == Some(ResetToIdle) &&
        elapsedTime == old(elapsedTime) && selectedTaskId == old(selectedTaskId))
      ensures old(orbState) == Idle ==> orbState == Idle && elapsedTime == 0 && selectedTaskId == None
    {
      if orbState == Running {
        orbState, pending := Dissolving, Some(ResetToIdle);
      } else {
        orbState, elapsedTime, selectedTaskId := Idle, 0, None;
      }
    }

    /**
     * `handleComplete` (its button is disabled during the animations): a running
     * timer dissolves and hands over the session when the animation ends; an idle
     * one hands it over at once. Either way an empty session is not reported.
     */
    method Complete() returns (completed: Option<(int, Option<string>)>)
      requires Valid() && (orbState == Idle || orbState == Running)
      modifies this
      ensures Valid() && startTime == old(startTime)
      ensures old(orbState) == Running ==> (completed == None && orbState == Dissolving &&
        pending == Some(FinishToIdle(old(elapsedTime), old(selectedTaskId))) &&
        elapsedTime == old(elapsedTime) && selectedTaskId == old(selectedTaskId))
      ensures old(orbState) == Idle ==> (completed == Completion(old(elapsedTime), old(selectedTaskId)) &&
        orbState == Idle && elapsedTime == 0 && selectedTaskId == None)
    {
      if orbState == Running {
        orbState, pending := Dissolving, Some(FinishToIdle(elapsedTime, selectedTaskId));
        completed := None;
      } else {
        completed := Completion(elapsedTime, selectedTaskId);
        elapsedTime, selectedTaskId := 0, None;
      }
    }

    /**
     * The pending callback runs. Entering the running state restarts the clock
     * reference so that the elapsed time carries on from where it was.
     */
    method FireTimeout(now: int) returns (completed: Option<(int, Option<string>)>)
      requires Valid() && pending.Some?
      modifies this
      ensures Valid() && pending == None
      ensures old(pending) == Some(StartRunning) ==> (orbState == Running &&
        elapsedTime == old(elapsedTime) && selectedTaskId == old(selectedTaskId) &&
        startTime == now - 1000 * old(elapsedTime) && completed == None)
      ensures old(pending) == Some(Pause) ==> (orbState == Idle &&
        elapsedTime == old(elapsedTime) && selectedTaskId == old(selectedTaskId) && completed == None)
      ensures old(pending) == Some(ResetToIdle) ==> (orbState == Idle &&
        elapsedTime == 0 && selectedTaskId == None && completed == None)
      ensures old(pending).Some? && old(pending).value.FinishToIdle? ==> (orbState == Idle &&
        elapsedTime == 0 && selectedTaskId == None &&
        completed == Completion(old(pending).value.elapsed, old(pending).value.task))
    {
      var t := pending.value;
      pending := None;
      completed := None;
      match t {
        case StartRunning =>
          orbState := Running;
          startTime := now - 1000 * elapsedTime;
        case Pause =>
          orbState := Idle;
        case ResetToIdle =>
          orbState, elapsedTime, selectedTaskId := Idle, 0, None;
        case FinishToIdle(e, task) =>
          orbState := Idle;
          completed := Completion(e, task);
          elapsedTime, selectedTaskId := 0, None;
      }
    }

    /**
     * The 100 ms interval while running: whole seconds since the clock
     * reference, skipped while that reference is 0 (falsy). The clock does not
     * run backwards past the reference.
     */
    method Tick(now: int)
      requires Valid() && now >= startTime
      modifies this
      ensures Valid()
      ensures orbState == old(orbState) && pending == old(pending) && selectedTaskId == old(selectedTaskId)
      ensures startTime == old(startTime)
      ensures orbState == Running && startTime != 0 ==> elapsedTime == (now - startTime) / 1000
      ensures !(orbState == Running && startTime != 0) ==> elapsedTime == old(elapsedTime)
    {
      if orbState == Running && startTime != 0 {
        elapsedTime := (now - startTime) / 1000;
      }
    }

    /** A task in the picker is clicked: it becomes selected, or is deselected if it already was. */
    method PickTask(id: string)
      requires Valid() && orbState == Idle && elapsedTime == 0
      modifies this
      ensures Valid()
      ensures orbState == old(orbState) && elapsedTime == old(elapsedTime) && pending == old(pending)
      ensures startTime == old(startTime)
      ensures selectedTaskId == if old(selectedTaskId) == Some(id) then None else Some(id)
    {
      selectedTaskId := if selectedTaskId == Some(id) then None else Some(id);
    }
  }

  // ---------------------------------------------------------------------------
  // Formatting and the picker of tasks
  // ---------------------------------------------------------------------------

  /**
   * `formatTime`: `HH:MM:SS` from one hour on, else `MM:SS`, each field
   * zero-padded to two digits. Below 100 hours the fields read back as hours,
   * minutes and seconds that add up to the input.
   */
  function FormatTime(seconds: nat): (r: string)
    ensures var h := seconds / 3600;
      var m := (seconds % 3600) / 60;
      var s := seconds % 60;
      seconds < 360000 ==>
        h * 3600 + m * 60 + s == seconds && m < 60 && s < 60 &&
        (h > 0 ==> (|r| == 8 && r[2] == ':' && r[5] == ':' &&
          DecimalValue(r[..2]) == h && DecimalValue(r[3..5]) == m && DecimalValue(r[6..]) == s)) &&
        (h == 0 ==> |r| == 5 && r[2] == ':' && DecimalValue(r[..2]) == m && DecimalValue(r[3..]) == s)
  {
    var hrs := seconds / 3600;
    var mins := (seconds % 3600) / 60;
    var secs := seconds % 60;
    var r := if hrs > 0 then Pad2(hrs) + ":" + Pad2(mins) + ":" + Pad2(secs) else Pad2(mins) + ":" + Pad2(secs);
    if seconds >= 360000 then r
    else
      ClockSplit(seconds);
      if hrs > 0 then
        ClockReads3(Pad2(hrs), Pad2(mins), Pad2(secs), hrs, mins, secs);
        r
      else
        ClockReads2(Pad2(mins), Pad2(secs), mins, secs);
        r
  }

  /**
   * `formatMinutes`: `{h}h {m}m` from one hour on, else `{m}m`: the whole hours
   * before "h " and the remaining whole minutes before "m".
   */
  function FormatMinutes(seconds: nat): (r: string)
    ensures var h := seconds / 3600;
      var m := (seconds % 3600) / 60;
      m < 60 && h * 3600 + m * 60 <= seconds < h * 3600 + m * 60 + 60 &&
      (h > 0 ==> r == NatToString(h) + "h " + NatToString(m) + "m") &&
      (h == 0 ==> r == NatToString(m) + "m") &&
      r[|r| - 1] == 'm'
  {
    var hrs := seconds / 3600;
    var mins := (seconds % 3600) / 60;
    if hrs > 0 then NatToString(hrs) + "h " + NatToString(mins) + "m"
    else NatToString(mins) + "m"
  }

  /** The picker shows when the timer is idle at zero and some task is not completed. */
  predicate PickerShown(orbState: OrbState, elapsed: int, tasks: seq<Task>)
  {
    orbState == Idle && elapsed == 0 && exists t | t in tasks :: !t.completed
  }

  /** `tasks.filter(t => !t.completed)`. */
  function Incomplete(tasks: seq<Task>): (r: seq<Task>)
    ensures |r| <= |tasks|
    ensures forall t :: t in r <==> t in tasks && !t.completed
    decreases |tasks|
  {
    if tasks == [] then []
    else if !tasks[0].completed then [tasks[0]] + Incomplete(tasks[1..])
    else Incomplete(tasks[1..])
  }

  /** `incompleteTasks.slice(0, 5)`: the first five incomplete tasks. */
  function PickerTasks(tasks: seq<Task>): (r: seq<Task>)
    ensures |r| <= 5 && |r| <= |Incomplete(tasks)|
    ensures r == Incomplete(tasks)[..|r|]
    ensures |Incomplete(tasks)| >= 5 ==> |r| == 5
    ensures forall t | t in r :: t in tasks && !t.completed
  {
    var inc := Incomplete(tasks);
    if |inc| <= 5 then inc else inc[..5]
  }

  /** A picker label: titles over 20 characters are cut to 20 and marked with "...". */
  function ShortTitle(title: string): (r: string)
    ensures |title| <= 20 ==> r == title
    ensures |title| > 20 ==> |r| == 23 && r[..20] == title[..20] && r[20..] == "..."
  {
    if |title| > 20 then title[..20] + "..." else title
  }

  // ---------------------------------------------------------------------------
  // Properties
  // ---------------------------------------------------------------------------

  lemma ClockSplit(seconds: nat)
    requires seconds < 360000
    ensures var h, m, s := seconds / 3600, (seconds % 3600) / 60, seconds % 60;
      h * 3600 + m * 60 + s == seconds && h < 100 && m < 60 && s < 60
  {
  }

  lemma ClockReads3(a: string, b: string, c: string, h: nat, m: nat, s: nat)
    requires |a| == 2 && |b| == 2 && |c| == 2
    requires DecimalValue(a) == h && DecimalValue(b) == m && DecimalValue(c) == s
    ensures var r := a + ":" + b + ":" + c;
      |r| == 8 && r[2] == ':' && r[5] == ':' &&
      DecimalValue(r[..2]) == h && DecimalValue(r[3..5]) == m && DecimalValue(r[6..]) == s
  {
    var r := a + ":" + b + ":" + c;
    assert r[..2] == a && r[3..5] == b && r[6..] == c;
  }

  lemma ClockReads2(b: string, c: string, m: nat, s: nat)
    requires |b| == 2 && |c| == 2
    requires DecimalValue(b) == m && DecimalValue(c) == s
    ensures var r := b + ":" + c;
      |r| == 5 && r[2] == ':' && DecimalValue(r[..2]) == m && DecimalValue(r[3..]) == s
  {
    var r := b + ":" + c;
    assert r[..2] == b && r[3..] == c;
  }

  /**
   * Resuming carries on from the elapsed time: once the forming animation ends
   * and running starts at `now`, a tick at that same moment reads the elapsed
   * time back unchanged.
   */
  method ResumeKeepsElapsed(t: Timer, now: int)
    requires t.Valid() && t.orbState == Idle && t.elapsedTime > 0
    modifies t
    ensures t.Valid() && t.orbState == Running && t.pending == None
    ensures t.elapsedTime == old(t.elapsedTime) && t.selectedTaskId == old(t.selectedTaskId)
  {
    t.Resume();
    var completed := t.FireTimeout(now);
    t.Tick(now);
  }

  /** A later tick never lowers the elapsed time: the second reading is at least the first. */
  method TicksNeverLower(t: Timer, now1: int, now2: int) returns (first: int)
    requires t.Valid() && t.startTime <= now1 <= now2
    modifies t
    ensures t.Valid() && t.orbState == old(t.orbState) && t.startTime == old(t.startTime)
    ensures 0 <= first <= t.elapsedTime
    ensures t.orbState == Running && t.startTime != 0 ==>
      first == (now1 - t.startTime) / 1000 && t.elapsedTime == (now2 - t.startTime) / 1000
  {
    t.Tick(now1);
    first := t.elapsedTime;
    t.Tick(now2);
  }
}
