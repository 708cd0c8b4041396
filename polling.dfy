/**
 * The polling bookkeeping of src/pages/Polling/Polling3/usePolling.ts.
 *
 * `pollingsRef.current` maps each polled id to the handle of the interval
 * timer that polls it; `progressData` holds the latest progress per id. A
 * poll starts a `fetchProgress` whose result arrives later and is stored only
 * if the id is still being polled then.
 *
 * Timers are events: `setInterval` hands out a fresh handle and adds it to
 * the running timers, `clearInterval` takes it out, `IntervalFires` is a
 * running timer's callback and `PollResultArrives` the completion of a fetch.
 * The started fetches are kept as a log of ids. React's state updates are
 * applied at once, in the order they are made.
 */
module Polling {
  import opened Common

  /** `ProgressData` as `fetchProgress` returns it. */
  datatype ProgressData = ProgressData(id: string, progress: real)

  /** One entry of the `pollingsRef.current` map: an id and its interval timer's handle. */
  datatype Interval = Interval(id: string, timer: nat)

  function IntervalId(iv: Interval): string { iv.id }
  function IntervalTimer(iv: Interval): nat { iv.timer }
  function ProgressId(p: ProgressData): string { p.id }

  /** `Array.from(map.keys())`: the polled ids in the order they were started. */
  function Keys(active: seq<Interval>): (ids: seq<string>)
    ensures |ids| == |active|
    ensures forall i :: 0 <= i < |active| ==> ids[i] == active[i].id
  {
    Map(active, IntervalId)
  }

  /** The handles the map holds. */
  function Timers(active: seq<Interval>): set<nat> {
    set iv | iv in active :: iv.timer
  }

  /** `map.delete(id)`: the entry for `id` goes, the others stay in order. */
  function Delete(active: seq<Interval>, id: string): (r: seq<Interval>)
    ensures forall i :: 0 <= i < |r| ==> r[i].id != id && r[i] in active
    ensures forall i :: 0 <= i < |active| && active[i].id != id ==> active[i] in r
  {
    Filter(active, (iv: Interval) => iv.id != id)
  }

  /** `prev.filter(x => x.id !== id)`. */
  function WithoutProgress(progress: seq<ProgressData>, id: string): (r: seq<ProgressData>)
    ensures forall i :: 0 <= i < |r| ==> r[i].id != id && r[i] in progress
    ensures forall i :: 0 <= i < |progress| && progress[i].id != id ==> progress[i] in r
  {
    Filter(progress, (p: ProgressData) => p.id != id)
  }

  /**
   * The update a stored poll result makes: any older entry for the id goes
   * and the result is appended. Ids stay unique and the other entries keep
   * their relative order.
   */
  function Upsert(progress: seq<ProgressData>, result: ProgressData): (r: seq<ProgressData>)
    ensures |r| > 0 && r[|r| - 1] == result
    ensures r[..|r| - 1] == WithoutProgress(progress, result.id)
    ensures forall i :: 0 <= i < |r| - 1 ==> r[i].id != result.id
  {
    WithoutProgress(progress, result.id) + [result]
  }

  /** Storing a result keeps at most one entry per id. */
  lemma UpsertKeepsIdsUnique(progress: seq<ProgressData>, result: ProgressData)
    requires DistinctKeys(progress, ProgressId)
    ensures DistinctKeys(Upsert(progress, result), ProgressId)
  {
    FilterDistinctKeys(progress, (p: ProgressData) => p.id != result.id, ProgressId);
  }

  /** Deleting an entry by id keeps the map's ids and handles unique. */
  lemma DeleteKeepsKeysUnique(active: seq<Interval>, id: string)
    requires DistinctKeys(active, IntervalId) && DistinctKeys(active, IntervalTimer)
    ensures DistinctKeys(Delete(active, id), IntervalId) && DistinctKeys(Delete(active, id), IntervalTimer)
  {
    FilterDistinctKeys(active, (iv: Interval) => iv.id != id, IntervalId);
    FilterDistinctKeys(active, (iv: Interval) => iv.id != id, IntervalTimer);
  }

  /** Deleting the entry at `k` takes exactly its handle out of the map's handles. */
  lemma DeleteTimers(active: seq<Interval>, k: nat)
    requires k < |active|
    requires DistinctKeys(active, IntervalId) && DistinctKeys(active, IntervalTimer)
    ensures Timers(Delete(active, active[k].id)) == Timers(active) - {active[k].timer}
  {
    var id, timer := active[k].id, active[k].timer;
    var r := Delete(active, id);
    forall t | t in Timers(r) ensures t in Timers(active) && t != timer {
      var iv :| iv in r && iv.timer == t;
      var j :| 0 <= j < |active| && active[j] == iv;
      assert iv.id != id;
    }
    forall t | t in Timers(active) && t != timer ensures t in Timers(r) {
      var iv :| iv in active && iv.timer == t;
      var j :| 0 <= j < |active| && active[j] == iv;
      assert j != k;
      assert IntervalId(active[j]) != IntervalId(active[k]);
      assert iv in r;
    }
  }

  /**
   * The hook's invariant on its field values: one entry per id and one
   * handle per entry; the map's timers run and poll their own ids. Until the
   * first cleanup the captured map is the live one and the running timers
   * are exactly its handles: no interval is leaked.
   */
  ghost predicate HookInv(active: seq<Interval>, captured: seq<Interval>, replaced: bool, progressData: seq<ProgressData>,
                          running: set<nat>, callbacks: map<nat, string>, nextTimer: nat) {
    && DistinctKeys(active, IntervalId)
    && DistinctKeys(active, IntervalTimer)
    && Timers(active) <= running
    && (forall t :: t in running ==> t < nextTimer && t in callbacks)
    && (forall iv :: iv in active ==> iv.timer in callbacks && callbacks[iv.timer] == iv.id)
    && DistinctKeys(progressData, ProgressId)
    && (!replaced ==> captured == active && running == Timers(active))
  }

  /** Starting a new id under a fresh handle keeps the invariant. */
  lemma StartKeepsInv(active: seq<Interval>, captured: seq<Interval>, replaced: bool, progressData: seq<ProgressData>,
                      running: set<nat>, callbacks: map<nat, string>, nextTimer: nat, id: string)
    requires HookInv(active, captured, replaced, progressData, running, callbacks, nextTimer)
    requires forall i :: 0 <= i < |active| ==> active[i].id != id
    ensures var active' := active + [Interval(id, nextTimer)];
      HookInv(active', if replaced then captured else active', replaced, progressData,
              running + {nextTimer}, callbacks[nextTimer := id], nextTimer + 1)
  {
    var active' := active + [Interval(id, nextTimer)];
    assert Timers(active') == Timers(active) + {nextTimer} by {
      forall t | t in Timers(active') ensures t in Timers(active) + {nextTimer} {
        var iv :| iv in active' && iv.timer == t;
        var j :| 0 <= j < |active'| && active'[j] == iv;
        if j < |active| {
          assert iv in active;
        }
      }
      forall t | t in Timers(active) ensures t in Timers(active') {
        var iv :| iv in active && iv.timer == t;
        assert iv in active';
      }
      assert active'[|active|] in active';
    }
    forall iv | iv in active' ensures iv.timer in callbacks[nextTimer := id] && callbacks[nextTimer := id][iv.timer] == iv.id {
      var j :| 0 <= j < |active'| && active'[j] == iv;
      if j < |active| {
        assert iv in active;
        assert iv.timer in Timers(active);
      }
    }
    forall i, j | 0 <= i < |active'| && 0 <= j < |active'| && i != j ensures active'[i].timer != active'[j].timer {
      if i < |active| {
        assert active[i].timer in Timers(active);
      }
      if j < |active| {
        assert active[j].timer in Timers(active);
      }
    }
  }

  /** Deleting the entry at `k` and stopping its handle keeps the invariant. */
  lemma StopKeepsInv(active: seq<Interval>, captured: seq<Interval>, replaced: bool, progressData: seq<ProgressData>,
                     running: set<nat>, callbacks: map<nat, string>, nextTimer: nat, k: nat)
    requires HookInv(active, captured, replaced, progressData, running, callbacks, nextTimer)
    requires k < |active|
    ensures active[k].timer in running && |running - {active[k].timer}| == |running| - 1
    ensures Timers(Delete(active, active[k].id)) == Timers(active) - {active[k].timer}
    ensures var active' := Delete(active, active[k].id);
      HookInv(active', if replaced then captured else active', replaced, WithoutProgress(progressData, active[k].id),
              running - {active[k].timer}, callbacks, nextTimer)
  {
    assert active[k] in active;
    DeleteTimers(active, k);
    DeleteKeepsKeysUnique(active, active[k].id);
    var r := Delete(active, active[k].id);
    forall iv | iv in r ensures iv.timer in callbacks && callbacks[iv.timer] == iv.id {
      var j :| 0 <= j < |r| && r[j] == iv;
    }
    FilterDistinctKeys(progressData, (p: ProgressData) => p.id != active[k].id, ProgressId);
  }

  /** The state `usePolling` keeps for one mounted component. */
  class PollingHook {
    /** `pollingsRef.current`, entries in insertion order */
    var active: seq<Interval>
    /**
     * `current` as the effect's cleanup closed over it: the map of the first
     * render. Until a cleanup replaces `pollingsRef.current`, it is the live
     * map itself, so every update of `active` is an update of it.
     */
    var captured: seq<Interval>
    /** whether a cleanup has replaced `pollingsRef.current` by a new map */
    var replaced: bool
    /** `progressData` */
    var progressData: seq<ProgressData>
    /** the interval timers the browser still runs */
    var running: set<nat>
    /** the id each interval's callback polls, by handle */
    var callbacks: map<nat, string>
    /** the handle the next `setInterval` returns */
    var nextTimer: nat
    /** the ids whose `fetchProgress` was started, in order */
    var fetches: seq<string>

    /**
     * One entry per id and one handle per entry; the map's timers run and
     * poll their own ids. Until the first cleanup the captured map is the
     * live one and the running timers are exactly its handles: no interval
     * is leaked.
     */
    ghost predicate Valid()
      reads this
    {
      HookInv(active, captured, replaced, progressData, running, callbacks, nextTimer)
    }

    /** `activePollingIds`. */
    function ActivePollingIds(): (ids: seq<string>)
      reads this
      ensures forall id :: id in ids <==> IsPolling(id)
    {
      Keys(active)
    }

    /** `pollingsRef.current.has(id)`. */
    predicate IsPolling(id: string)
      reads this
    {
      exists i :: 0 <= i < |active| && active[i].id == id
    }

    /** The hook as a component mounts: nothing polled, no progress, no timers. */
    constructor ()
      ensures Valid()
      ensures active == [] && captured == [] && !replaced
      ensures progressData == [] && running == {} && fetches == [] && nextTimer == 0
    {
      active := [];
      captured := [];
      replaced := false;
      progressData := [];
      running := {};
      callbacks := map[];
      nextTimer := 0;
      fetches := [];
    }

    /** `pollingsRef.current.get(id)`'s position in the map, or -1. */
    method Find(id: string) returns (k: int)
      ensures -1 <= k < |active|
      ensures k == -1 <==> !IsPolling(id)
      ensures k >= 0 ==> active[k].id == id
    {
      k := 0;
      while k < |active|
        invariant 0 <= k <= |active|
        invariant forall j :: 0 <= j < k ==> active[j].id != id
      {
        if active[k].id == id {
          return;
        }
        k := k + 1;
      }
      k := -1;
    }

    /**
     * `startPolling`: an id already polled is skipped; a new id gets one
     * immediate poll and an interval timer, and becomes polled.
     */
    method StartPolling(id: string)
      requires Valid()
      modifies this
      ensures Valid()
      ensures old(IsPolling(id)) ==>
        active == old(active) && running == old(running) && fetches == old(fetches)
      ensures !old(IsPolling(id)) ==>
        && fetches == old(fetches) + [id]
        && active == old(active) + [Interval(id, old(nextTimer))]
        && running == old(running) + {old(nextTimer)}
        && callbacks == old(callbacks)[old(nextTimer) := id]
        && nextTimer == old(nextTimer) + 1
      ensures IsPolling(id)
      ensures replaced == old(replaced) && (old(replaced) ==> captured == old(captured))
      ensures progressData == old(progressData)
    {
      var k := Find(id);
      if k != -1 {
        return;
      }
      StartKeepsInv(active, captured, replaced, progressData, running, callbacks, nextTimer, id);
      fetches := fetches + [id];
      var interval := nextTimer;
      nextTimer := nextTimer + 1;
      running := running + {interval};
      callbacks := callbacks[interval := id];
      active := active + [Interval(id, interval)];
      if !replaced {
        captured := active;
      }
      assert active[|active| - 1].id == id;
    }

    /**
     * A running interval timer fires: its callback starts another poll of
     * the id it was set for, whether or not that id is still in the map.
     */
    method IntervalFires(timer: nat)
      requires Valid() && timer in running
      modifies this`fetches
      ensures Valid()
      ensures fetches == old(fetches) + [callbacks[timer]]
      ensures forall i :: 0 <= i < |active| && active[i].timer == timer ==> fetches == old(fetches) + [active[i].id]
    {
      fetches := fetches + [callbacks[timer]];
    }

    /** The fetch for `id` completes: its result is stored only if `id` is still polled. */
    method PollResultArrives(id: string, progress: real)
      requires Valid()
      modifies this`progressData
      ensures Valid()
      ensures old(IsPolling(id)) ==> progressData == Upsert(old(progressData), ProgressData(id, progress))
      ensures !old(IsPolling(id)) ==> progressData == old(progressData)
    {
      var k := Find(id);
      if k != -1 {
        UpsertKeepsIdsUnique(progressData, ProgressData(id, progress));
        progressData := Upsert(progressData, ProgressData(id, progress));
      }
    }

    /**
     * `stopPolling`: for a polled id, clears its timer, deletes it from the
     * map and drops all of its progress entries; otherwise does nothing.
     */
    method StopPolling(id: string)
      requires Valid()
      modifies this
      ensures Valid()
      ensures !IsPolling(id)
      ensures !old(IsPolling(id)) ==>
        active == old(active) && running == old(running) && progressData == old(progressData)
      ensures old(IsPolling(id)) ==>
        && active == Delete(old(active), id)
        && running == old(running) - (Timers(old(active)) - Timers(active))
        && |running| == |old(running)| - 1
        && progressData == WithoutProgress(old(progressData), id)
      ensures replaced == old(replaced) && (old(replaced) ==> captured == old(captured))
      ensures fetches == old(fetches)
    {
      var k := Find(id);
      if k != -1 {
        var timer := active[k].timer;
        var remaining := Delete(active, id);
        var stillRunning := running - {timer};
        var captured' := if replaced then captured else remaining;
        var progress' := WithoutProgress(progressData, id);
        assert stillRunning == running - (Timers(active) - Timers(remaining)) && |stillRunning| == |running| - 1 by {
          StopKeepsInv(active, captured, replaced, progressData, running, callbacks, nextTimer, k);
        }
        assert HookInv(remaining, captured', replaced, progress', stillRunning, callbacks, nextTimer) by {
          StopKeepsInv(active, captured, replaced, progressData, running, callbacks, nextTimer, k);
        }
        Update(remaining, captured', stillRunning, progress');
      }
    }

    /** Replaces the map, the captured map, the running timers and the progress by values that keep the invariant. */
    method Update(active': seq<Interval>, captured': seq<Interval>, running': set<nat>, progressData': seq<ProgressData>)
      requires HookInv(active', captured', replaced, progressData', running', callbacks, nextTimer)
      modifies this
      ensures Valid()
      ensures active == active' && captured == captured' && running == running' && progressData == progressData'
      ensures replaced == old(replaced) && callbacks == old(callbacks) && nextTimer == old(nextTimer) && fetches == old(fetches)
    {
      active, captured, running, progressData := active', captured', running', progressData';
    }

    /**
     * The effect's cleanup: clears every interval of the map it closed over,
     * the first render's, then gives `pollingsRef.current` a new empty map.
     * On the first run that map is the live one and no timer stays running;
     * on a later run (a remount under React's strict mode) it clears only the
     * old map's handles, so intervals started since keep running.
     */
    method Cleanup()
      requires Valid()
      modifies this
      ensures Valid()
      ensures active == [] && replaced && captured == old(captured)
      ensures running == old(running) - Timers(old(captured))
      ensures !old(replaced) ==> running == {}
      ensures progressData == old(progressData) && fetches == old(fetches) && callbacks == old(callbacks)
      ensures nextTimer == old(nextTimer)
    {
      var i := 0;
      while i < |captured|
        invariant 0 <= i <= |captured|
        invariant running == old(running) - (set k | 0 <= k < i :: captured[k].timer)
        invariant active == old(active) && captured == old(captured)
        invariant progressData == old(progressData) && fetches == old(fetches) && callbacks == old(callbacks)
        invariant nextTimer == old(nextTimer) && replaced == old(replaced)
      {
        running := running - {captured[i].timer};
        i := i + 1;
      }
      assert (set k | 0 <= k < i :: captured[k].timer) == Timers(captured) by {
        forall t | t in Timers(captured) ensures t in (set k | 0 <= k < i :: captured[k].timer) {
          var iv :| iv in captured && iv.timer == t;
          var j :| 0 <= j < |captured| && captured[j] == iv;
        }
      }
      active := [];
      replaced := true;
    }
  }

  /**
   * Mount, the simulated unmount and remount of React's strict mode, one
   * poll started in each mount, then the real unmount: the second mount's
   * interval survives the final cleanup.
   */
  method StrictModeRemount() returns (hook: PollingHook)
    ensures fresh(hook) && hook.Valid()
    ensures hook.active == [] && hook.running == {1}
  {
    hook := new PollingHook();
    hook.StartPolling("x");
    assert hook.captured == [Interval("x", 0)];
    assert Timers(hook.captured) == {0};
    hook.Cleanup();
    hook.StartPolling("x");
    hook.Cleanup();
  }
}
