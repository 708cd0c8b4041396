/**
 * The toast store of src/components/toast/useToast.ts.
 *
 * A global `memoryState` holds the list of toasts; `dispatch` runs the
 * reducer over it and hands the new state to every subscribed listener. The
 * reducer's DISMISS case schedules removals through `addToRemoveQueue`, which
 * keeps at most one pending timer per toast id in `timeoutsMap`; when a timer
 * fires, its id leaves the map and a REMOVE is dispatched.
 *
 * The store's module-level variables become the fields of one `ToastStore`
 * object. A timer is not modelled as time: the pending ids are kept in the
 * order their timers were set, and `FireTimeout` is the event of the oldest
 * one firing (all timers have the same delay, so they fire in that order).
 * Listeners are the `setState` functions of mounted components, named here
 * by a component number; calling one records the state that component last
 * received.
 */
module Toast {
  import opened Common

  /** `ToasterToast`; a field is `None` when the object does not have it. */
  datatype ToasterToast = ToasterToast(id: string, title: Option<string>, description: Option<string>)

  datatype Action =
    | AddToast(toast: ToasterToast)
    | UpdateToast(toast: ToasterToast)
    | DismissToast(toastId: Option<string>)
    | RemoveToast(id: string)

  // ---------------------------------------------------------------------------
  // The reducer's list operations
  // ---------------------------------------------------------------------------

  /** `{...t, ...patch}`: every field the patch has replaces the toast's. */
  function Merge(t: ToasterToast, patch: ToasterToast): (r: ToasterToast)
    ensures r.id == patch.id
    ensures patch.title.Some? ==> r.title == patch.title
    ensures patch.title.None? ==> r.title == t.title
    ensures patch.description.Some? ==> r.description == patch.description
    ensures patch.description.None? ==> r.description == t.description
  {
    ToasterToast(
      patch.id,
      if patch.title.Some? then patch.title else t.title,
      if patch.description.Some? then patch.description else t.description)
  }

  /** Merging the same patch twice is merging it once. */
  lemma MergeIdempotent(t: ToasterToast, patch: ToasterToast)
    ensures Merge(Merge(t, patch), patch) == Merge(t, patch)
  {
  }

  /** `toasts.map(t => t.id === patch.id ? {...t, ...patch} : t)`. */
  function UpdateMatching(toasts: seq<ToasterToast>, patch: ToasterToast): (r: seq<ToasterToast>)
    ensures |r| == |toasts|
    ensures forall i :: 0 <= i < |toasts| && toasts[i].id == patch.id ==> r[i] == Merge(toasts[i], patch)
    ensures forall i :: 0 <= i < |toasts| && toasts[i].id != patch.id ==> r[i] == toasts[i]
  {
    if toasts == [] then []
    else [if toasts[0].id == patch.id then Merge(toasts[0], patch) else toasts[0]]
         + UpdateMatching(toasts[1..], patch)
  }

  /** `toasts.filter(t => t.id !== id)`. */
  function WithoutId(toasts: seq<ToasterToast>, id: string): (r: seq<ToasterToast>)
    ensures forall i :: 0 <= i < |r| ==> r[i].id != id
  {
    Filter(toasts, (t: ToasterToast) => t.id != id)
  }

  /** REMOVE keeps every other toast, and keeps them in order: it commutes with concatenation. */
  lemma WithoutIdKeeps(a: seq<ToasterToast>, b: seq<ToasterToast>, id: string)
    ensures forall i :: 0 <= i < |a| && a[i].id != id ==> a[i] in WithoutId(a, id)
    ensures WithoutId(a + b, id) == WithoutId(a, id) + WithoutId(b, id)
  {
    FilterConcat(a, b, (t: ToasterToast) => t.id != id);
  }

  /** REMOVE of an id no toast has changes nothing. */
  lemma WithoutAbsentId(toasts: seq<ToasterToast>, id: string)
    requires forall i :: 0 <= i < |toasts| ==> toasts[i].id != id
    ensures WithoutId(toasts, id) == toasts
  {
    FilterAllPass(toasts, (t: ToasterToast) => t.id != id);
  }

  /** `if (toastId)`: an absent or empty id is falsy. */
  predicate Truthy(toastId: Option<string>) {
    toastId.Some? && toastId.value != ""
  }

  /** The ids a reducer step hands to `addToRemoveQueue`, in call order. */
  function RemovalRequests(toasts: seq<ToasterToast>, action: Action): (ids: seq<string>)
    ensures action.DismissToast? && Truthy(action.toastId) ==> ids == [action.toastId.value]
    ensures action.DismissToast? && !Truthy(action.toastId) ==>
      |ids| == |toasts| && forall i :: 0 <= i < |toasts| ==> ids[i] == toasts[i].id
    ensures !action.DismissToast? ==> ids == []
  {
    match action
    case DismissToast(toastId) =>
      if Truthy(toastId) then [toastId.value] else Map(toasts, (t: ToasterToast) => t.id)
    case _ => []
  }

  /** The toast list a reducer step returns. */
  function ReduceToasts(toasts: seq<ToasterToast>, action: Action): (r: seq<ToasterToast>)
    ensures action.AddToast? ==> |r| == |toasts| + 1 && r[..|toasts|] == toasts && r[|toasts|] == action.toast
    ensures action.UpdateToast? ==> r == UpdateMatching(toasts, action.toast)
    ensures action.DismissToast? ==> r == toasts
    ensures action.RemoveToast? ==> r == WithoutId(toasts, action.id)
  {
    match action
    case AddToast(t) => toasts + [t]
    case UpdateToast(t) => UpdateMatching(toasts, t)
    case DismissToast(_) => toasts
    case RemoveToast(id) => WithoutId(toasts, id)
  }

  /** An UPDATE for an id no toast has changes nothing. */
  lemma UpdateAbsentId(toasts: seq<ToasterToast>, patch: ToasterToast)
    requires forall i :: 0 <= i < |toasts| ==> toasts[i].id != patch.id
    ensures ReduceToasts(toasts, UpdateToast(patch)) == toasts
  {
  }

  /** Adding a toast and then removing its id is the same as removing that id from the old list. */
  lemma AddThenRemove(toasts: seq<ToasterToast>, t: ToasterToast)
    ensures ReduceToasts(ReduceToasts(toasts, AddToast(t)), RemoveToast(t.id))
         == ReduceToasts(toasts, RemoveToast(t.id))
  {
    WithoutIdKeeps(toasts, [t], t.id);
    assert WithoutId([t], t.id) == [];
  }

  // ---------------------------------------------------------------------------
  // The removal queue
  // ---------------------------------------------------------------------------

  /** The pending ids after `addToRemoveQueue(id)`: an id already pending is not queued again. */
  function Enqueue(pending: seq<string>, id: string): (r: seq<string>)
    ensures id in r
    ensures id in pending ==> r == pending
    ensures id !in pending ==> r == pending + [id]
  {
    if id in pending then pending else pending + [id]
  }

  /** `addToRemoveQueue` is idempotent. */
  lemma EnqueueIdempotent(pending: seq<string>, id: string)
    ensures Enqueue(Enqueue(pending, id), id) == Enqueue(pending, id)
  {
  }

  /** Queueing keeps the pending ids distinct: there is never a second timer for one id. */
  lemma EnqueueDistinct(pending: seq<string>, id: string)
    requires Distinct(pending)
    ensures Distinct(Enqueue(pending, id))
  {
  }

  /** The pending ids after `addToRemoveQueue` is called with each of `ids` in turn. */
  function QueueAll(pending: seq<string>, ids: seq<string>): (r: seq<string>)
    ensures |r| >= |pending| && r[..|pending|] == pending
    ensures forall x :: x in r <==> x in pending || x in ids
    decreases |ids|
  {
    if ids == [] then pending
    else
      var next := Enqueue(pending, ids[0]);
      var r := QueueAll(next, ids[1..]);
      assert r[..|pending|] == r[..|next|][..|pending|];
      assert ids == [ids[0]] + ids[1..];
      r
  }

  /** Queueing a non-empty list queues its first id, then the rest. */
  lemma QueueAllStep(pending: seq<string>, ids: seq<string>)
    requires ids != []
    ensures QueueAll(pending, ids) == QueueAll(Enqueue(pending, ids[0]), ids[1..])
  {
  }

  /**
   * Queueing several ids keeps what was pending first and in front, keeps
   * the ids distinct, and leaves exactly the old ids and the new ones pending.
   */
  lemma {:induction false} QueueAllSpec(pending: seq<string>, ids: seq<string>)
    requires Distinct(pending)
    ensures Distinct(QueueAll(pending, ids))
    ensures |QueueAll(pending, ids)| >= |pending| && QueueAll(pending, ids)[..|pending|] == pending
    ensures forall x :: x in QueueAll(pending, ids) <==> x in pending || x in ids
    decreases |ids|
  {
    if ids != [] {
      var next := Enqueue(pending, ids[0]);
      EnqueueDistinct(pending, ids[0]);
      QueueAllSpec(next, ids[1..]);
    }
  }

  // ---------------------------------------------------------------------------
  // The store
  // ---------------------------------------------------------------------------

  /** The module-level state of useToast.ts. */
  class ToastStore {
    /** `memoryState.toasts` */
    var toasts: seq<ToasterToast>
    /** the keys of `timeoutsMap`, in the order their timers were set */
    var pending: seq<string>
    /** `listeners`, as the components whose `setState` was pushed */
    var listeners: seq<nat>
    /** the toast list each listening component last received */
    var views: map<nat, seq<ToasterToast>>

    /** At most one timer is pending per toast id. */
    ghost predicate Valid()
      reads this
    {
      Distinct(pending)
    }

    /** The store as the module starts: no toasts, no timers, no listeners. */
    constructor ()
      ensures Valid()
      ensures toasts == [] && pending == [] && listeners == [] && views == map[]
    {
      toasts := [];
      pending := [];
      listeners := [];
      views := map[];
    }

    /** `addToRemoveQueue`: sets a removal timer for the id unless one is already pending. */
    method AddToRemoveQueue(toastId: string)
      requires Valid()
      modifies this`pending
      ensures Valid()
      ensures pending == Enqueue(old(pending), toastId)
    {
      if toastId in pending {
        return;
      }
      pending := pending + [toastId];
    }

    /** `toasts.forEach(toast => addToRemoveQueue(toast.id))`, where `ids` are the toasts' ids. */
    method QueueEachToast(toasts: seq<ToasterToast>, ghost ids: seq<string>)
      requires Valid()
      requires |ids| == |toasts| && forall i :: 0 <= i < |toasts| ==> ids[i] == toasts[i].id
      modifies this`pending
      ensures Valid()
      ensures pending == QueueAll(old(pending), ids)
    {
      var i := 0;
      while i < |toasts|
        invariant 0 <= i <= |toasts|
        invariant Valid()
        invariant QueueAll(pending, ids[i..]) == QueueAll(old(pending), ids)
      {
        assert ids[i..][0] == toasts[i].id && ids[i..][1..] == ids[i + 1..];
        QueueAllStep(pending, ids[i..]);
        AddToRemoveQueue(toasts[i].id);
        i := i + 1;
      }
      assert ids[i..] == [];
    }

    /** `reducer`: the new toast list, and for DISMISS the removals it schedules. */
    method Reducer(state: seq<ToasterToast>, action: Action) returns (next: seq<ToasterToast>)
      requires Valid()
      modifies this`pending
      ensures Valid()
      ensures next == ReduceToasts(state, action)
      ensures pending == QueueAll(old(pending), RemovalRequests(state, action))
    {
      match action
      case AddToast(t) =>
        next := state + [t];
      case UpdateToast(t) =>
        next := UpdateMatching(state, t);
      case DismissToast(toastId) =>
        if Truthy(toastId) {
          AddToRemoveQueue(toastId.value);
        } else {
          QueueEachToast(state, RemovalRequests(state, action));
        }
        next := state;
      case RemoveToast(id) =>
        next := WithoutId(state, id);
    }

    /** `dispatch`: replaces the toast list by the reducer's output and gives that list to every listener. */
    method Dispatch(action: Action)
      requires Valid()
      modifies this
      ensures Valid()
      ensures toasts == ReduceToasts(old(toasts), action)
      ensures pending == QueueAll(old(pending), RemovalRequests(old(toasts), action))
      ensures listeners == old(listeners)
      ensures forall l :: l in listeners ==> l in views && views[l] == toasts
      ensures forall l :: l in old(views) && l !in listeners ==> l in views && views[l] == old(views)[l]
      ensures forall l :: l in views ==> l in old(views) || l in listeners
    {
      toasts := Reducer(toasts, action);
      var i := 0;
      while i < |listeners|
        invariant 0 <= i <= |listeners|
        invariant Valid()
        invariant toasts == ReduceToasts(old(toasts), action)
        invariant pending == QueueAll(old(pending), RemovalRequests(old(toasts), action))
        invariant listeners == old(listeners)
        invariant forall k :: 0 <= k < i ==> listeners[k] in views && views[listeners[k]] == toasts
        invariant forall l :: l in old(views) && l !in listeners[..i] ==> l in views && views[l] == old(views)[l]
        invariant forall l :: l in views ==> l in old(views) || l in listeners[..i]
      {
        views := views[listeners[i] := toasts];
        i := i + 1;
      }
      assert listeners[..i] == listeners;
    }

    /**
     * The oldest pending removal timer fires: its id leaves the map first,
     * then a REMOVE for it is dispatched.
     */
    method FireTimeout() returns (id: string)
      requires Valid() && pending != []
      modifies this
      ensures Valid()
      ensures id == old(pending)[0] && id !in pending
      ensures pending == old(pending)[1..]
      ensures toasts == WithoutId(old(toasts), id)
      ensures listeners == old(listeners)
      ensures forall l :: l in listeners ==> l in views && views[l] == toasts
      ensures forall l :: l in old(views) && l !in listeners ==> l in views && views[l] == old(views)[l]
      ensures forall l :: l in views ==> l in old(views) || l in listeners
    {
      id := pending[0];
      pending := pending[1..];
      assert id !in pending by {
        forall k | 0 <= k < |pending| ensures pending[k] != id {
          assert pending[k] == old(pending)[k + 1];
        }
      }
      Dispatch(RemoveToast(id));
    }

    /**
     * `toast(...)`: adds a toast under the fresh id (what `crypto.randomUUID`
     * would return, so never empty) and immediately dismisses it, so every new
     * toast is pending removal.
     */
    method Toast(id: string, title: Option<string>, description: Option<string>) returns (newId: string)
      requires Valid() && id != ""
      modifies this
      ensures Valid()
      ensures newId == id
      ensures toasts == old(toasts) + [ToasterToast(id, title, description)]
      ensures pending == Enqueue(old(pending), id) && id in pending
      ensures listeners == old(listeners)
      ensures forall l :: l in listeners ==> l in views && views[l] == toasts
      ensures forall l :: l in old(views) && l !in listeners ==> l in views && views[l] == old(views)[l]
      ensures forall l :: l in views ==> l in old(views) || l in listeners
    {
      Dispatch(AddToast(ToasterToast(id, title, description)));
      Dispatch(DismissToast(Some(id)));
      newId := id;
    }

    /** The effect in `useToast`: a mounted component pushes its `setState` onto the listeners. */
    method Subscribe(component: nat)
      modifies this`listeners
      ensures listeners == old(listeners) + [component]
    {
      listeners := listeners + [component];
    }

    /** The effect's cleanup: removes the first occurrence of the component's `setState`, if any. */
    method Unsubscribe(component: nat)
      modifies this`listeners
      ensures component !in old(listeners) ==> listeners == old(listeners)
      ensures component in old(listeners) ==>
        exists k :: 0 <= k < |old(listeners)| && old(listeners)[k] == component
          && component !in old(listeners)[..k]
          && listeners == old(listeners)[..k] + old(listeners)[k + 1..]
    {
      var index := IndexOf(listeners, component);
      if index != -1 {
        listeners := listeners[..index] + listeners[index + 1..];
      }
    }
  }

  /** `Array.prototype.indexOf`: the first position holding `x`, or -1. */
  method IndexOf(s: seq<nat>, x: nat) returns (index: int)
    ensures -1 <= index < |s|
    ensures index == -1 <==> x !in s
    ensures index >= 0 ==> s[index] == x && x !in s[..index]
  {
    index := 0;
    while index < |s|
      invariant 0 <= index <= |s|
      invariant x !in s[..index]
    {
      if s[index] == x {
        return;
      }
      index := index + 1;
    }
    assert s[..index] == s;
    index := -1;
  }
}
