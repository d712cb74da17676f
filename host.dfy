/**
 * The browser's timer and animation-frame services as one engine instance sees them:
 * `setInterval` / `clearInterval` and `requestAnimationFrame` / `cancelAnimationFrame`.
 * Handles are positive, as browsers hand them out, so a handle is truthy exactly when present.
 */
module Host {

  class Scheduler {
    /** Next handle the host will hand out. */
    var nextHandle: nat
    /** Pending animation frames: handle -> the opacity the queued callback will write. */
    var frames: map<nat, real>
    /** Active interval timers: handle -> period in milliseconds. */
    ghost var intervals: map<nat, int>

    ghost var setIntervalCalls: nat
    ghost var clearIntervalCalls: nat
    ghost var frameRequests: nat
    ghost var frameCancels: nat

    ghost predicate Valid()
      reads this
    {
      nextHandle >= 1
    }

    constructor ()
      ensures Valid()
      ensures frames == map[] && intervals == map[]
      ensures setIntervalCalls == 0 && clearIntervalCalls == 0
      ensures frameRequests == 0 && frameCancels == 0
    {
      nextHandle := 1;
      frames := map[];
      intervals := map[];
      setIntervalCalls, clearIntervalCalls := 0, 0;
      frameRequests, frameCancels := 0, 0;
    }

    method SetInterval(period: int) returns (id: nat)
      requires Valid()
      modifies this
      ensures Valid()
      ensures id >= 1 && id == old(nextHandle) && nextHandle == old(nextHandle) + 1
      ensures intervals == old(intervals)[id := period]
      ensures setIntervalCalls == old(setIntervalCalls) + 1
      ensures frames == old(frames) && clearIntervalCalls == old(clearIntervalCalls)
      ensures frameRequests == old(frameRequests) && frameCancels == old(frameCancels)
    {
      id := nextHandle;
      nextHandle := nextHandle + 1;
      intervals := intervals[id := period];
      setIntervalCalls := setIntervalCalls + 1;
    }

    method ClearInterval(id: nat)
      modifies this
      ensures intervals == old(intervals) - {id}
      ensures clearIntervalCalls == old(clearIntervalCalls) + 1
      ensures nextHandle == old(nextHandle) && frames == old(frames)
      ensures setIntervalCalls == old(setIntervalCalls)
      ensures frameRequests == old(frameRequests) && frameCancels == old(frameCancels)
    {
      intervals := intervals - {id};
      clearIntervalCalls := clearIntervalCalls + 1;
    }

    method RequestFrame(opacity: real) returns (id: nat)
      requires Valid()
      modifies this
      ensures Valid()
      ensures id >= 1 && id == old(nextHandle) && nextHandle == old(nextHandle) + 1
      ensures frames == old(frames)[id := opacity]
      ensures frameRequests == old(frameRequests) + 1
      ensures intervals == old(intervals) && frameCancels == old(frameCancels)
      ensures setIntervalCalls == old(setIntervalCalls) && clearIntervalCalls == old(clearIntervalCalls)
    {
      id := nextHandle;
      nextHandle := nextHandle + 1;
      frames := frames[id := opacity];
      frameRequests := frameRequests + 1;
    }

    /** Cancelling a handle whose frame already ran (or never existed) is harmless. */
    method CancelFrame(id: nat)
      modifies this
      ensures frames == old(frames) - {id}
      ensures frameCancels == old(frameCancels) + 1
      ensures nextHandle == old(nextHandle) && intervals == old(intervals)
      ensures frameRequests == old(frameRequests)
      ensures setIntervalCalls == old(setIntervalCalls) && clearIntervalCalls == old(clearIntervalCalls)
    {
      frames := frames - {id};
      frameCancels := frameCancels + 1;
    }

    /** The host takes a due frame off its queue just before running its callback. */
    method TakeFrame(id: nat) returns (opacity: real)
      requires id in frames
      modifies this
      ensures opacity == old(frames)[id] && frames == old(frames) - {id}
      ensures nextHandle == old(nextHandle) && intervals == old(intervals)
      ensures frameRequests == old(frameRequests) && frameCancels == old(frameCancels)
      ensures setIntervalCalls == old(setIntervalCalls) && clearIntervalCalls == old(clearIntervalCalls)
    {
      opacity := frames[id];
      frames := frames - {id};
    }
  }
}
