/**
 * Toast notifications: a queue of toasts shown top to bottom. `showToast`
 * appends one with a fresh id, `dismissToast` filters an id out, and each toast
 * lives for its own duration or 4000 ms. The clock and the random suffix of the
 * id are parameters.
 */
module Toasts {
  import opened Wrappers
  import opened Text

  datatype ToastType = Success | Info | Warning | Error

  /** `Omit<Toast, 'id'>`: what a caller asks to show. */
  datatype ToastRequest = ToastRequest(kind: ToastType, title: string, message: Option<string>, duration: Option<int>)

  datatype Toast = Toast(id: string, kind: ToastType, title: string, message: Option<string>, duration: Option<int>)

  const DefaultDuration: int := 4000

  /** `toast.duration || 4000`: an absent or zero duration falls back to the default. */
  function Lifetime(t: Toast): (ms: int)
    ensures t.duration.None? || t.duration == Some(0) ==> ms == DefaultDuration
    ensures t.duration.Some? && t.duration.value != 0 ==> ms == t.duration.value
  {
    if t.duration.None? || t.duration.value == 0 then DefaultDuration else t.duration.value
  }

  /** `toast-${Date.now()}-${suffix}`, the suffix being up to nine base-36 characters drawn at random. */
  function ToastId(now: int, suffix: string): (id: string)
    ensures |id| >= 8 + |suffix| && id[..6] == "toast-" && id[|id| - |suffix|..] == suffix
  {
    "toast-" + IntToString(now) + "-" + suffix
  }

  /** `{ ...toast, id }`. */
  function WithId(req: ToastRequest, id: string): (t: Toast)
    ensures t.id == id && t.kind == req.kind && t.title == req.title
    ensures t.message == req.message && t.duration == req.duration
  {
    Toast(id, req.kind, req.title, req.message, req.duration)
  }

  /** `toasts.filter(t => t.id !== id)`. */
  function Without(ts: seq<Toast>, id: string): (r: seq<Toast>)
    ensures |r| <= |ts|
    ensures forall t :: t in r <==> t in ts && t.id != id
    decreases |ts|
  {
    if ts == [] then []
    else if ts[0].id != id then [ts[0]] + Without(ts[1..], id)
    else Without(ts[1..], id)
  }

  /** The container renders nothing for an empty queue. */
  function ContainerShown(ts: seq<Toast>): (shown: bool)
    ensures shown <==> exists t :: t in ts
  {
    if |ts| != 0 then assert ts[0] in ts; true else false
  }

  /** `useToast`: the provider's context, or the error thrown outside a provider. */
  function UseToast<T>(context: Option<T>): (r: Result<T>)
    ensures context.None? <==> r == Err("useToast must be used within a ToastProvider")
    ensures context.Some? ==> r == Ok(context.value)
  {
    if context.None? then Err("useToast must be used within a ToastProvider") else Ok(context.value)
  }

  class ToastQueue {
    var toasts: seq<Toast>

    constructor()
      ensures toasts == []
    {
      toasts := [];
    }

    /** `showToast`: one toast with a new id joins the end of the queue. */
    method ShowToast(req: ToastRequest, now: int, suffix: string) returns (id: string)
      modifies this
      ensures id == ToastId(now, suffix)
      ensures toasts == old(toasts) + [WithId(req, id)]
    {
      id := ToastId(now, suffix);
      toasts := toasts + [WithId(req, id)];
    }

    /** `dismissToast`: the toasts with that id leave; the others keep their order. */
    method DismissToast(id: string)
      modifies this
      ensures toasts == Without(old(toasts), id)
    {
      toasts := Without(toasts, id);
    }
  }

  // ---------------------------------------------------------------------------
  // Properties of the queue
  // ---------------------------------------------------------------------------

  /** An id no toast carries: dismissing it changes nothing. */
  lemma {:induction false} DismissUnknown(ts: seq<Toast>, id: string)
    requires forall t | t in ts :: t.id != id
    ensures Without(ts, id) == ts
    decreases |ts|
  {
    if ts != [] {
      DismissUnknown(ts[1..], id);
    }
  }

  /** Filtering distributes over concatenation. */
  lemma {:induction false} WithoutAppend(a: seq<Toast>, b: seq<Toast>, id: string)
    ensures Without(a + b, id) == Without(a, id) + Without(b, id)
    decreases |a|
  {
    if a == [] {
      assert a + b == b;
    } else {
      assert (a + b)[1..] == a[1..] + b;
      WithoutAppend(a[1..], b, id);
    }
  }

  /** Showing a toast whose id is new and then dismissing it leaves the queue as it was. */
  lemma DismissUndoesShow(ts: seq<Toast>, req: ToastRequest, id: string)
    requires forall t | t in ts :: t.id != id
    ensures Without(ts + [WithId(req, id)], id) == ts
  {
    WithoutAppend(ts, [WithId(req, id)], id);
    DismissUnknown(ts, id);
    assert Without([WithId(req, id)], id) == [];
  }

  /** Dismissing twice is dismissing once. */
  lemma DismissIdempotent(ts: seq<Toast>, id: string)
    ensures Without(Without(ts, id), id) == Without(ts, id)
  {
    DismissUnknown(Without(ts, id), id);
  }

  /** Dismissing one toast leaves the others where they were relative to each other. */
  lemma {:induction false} DismissCommutes(ts: seq<Toast>, a: string, b: string)
    ensures Without(Without(ts, a), b) == Without(Without(ts, b), a)
    decreases |ts|
  {
    if ts != [] {
      DismissCommutes(ts[1..], a, b);
    }
  }
}
