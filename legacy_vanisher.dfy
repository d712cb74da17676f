/**
 * The earlier engine: the same `Vanisher` lifecycle without a throttle, with a ramp length
 * recomputed on every reading, with the interaction styles written on every frame, and with
 * a `destroy` that leaves the target bound.
 *
 * As in the current engine, `now` replaces the clock, a timer tick is a call of ApplyOpacity,
 * a frame is a call of RunFrame, and `notices` records the `onDeadlineReached` invocations.
 */
module LegacyVanisher {
  import opened Types
  import opened Dom
  import opened Host
  import opened FadeMath
  import opened EngineCommon

  /**
   * `calculateOpacity`, which recomputes the ramp length from the deadline and the start on
   * each call: zero once the deadline is reached, the remaining share of the ramp before it.
   */
  function CalculateOpacity(deadline: int, initializedAt: int, now: int): (r: real)
    ensures 0.0 <= r <= 1.0
    ensures r == 0.0 <==> deadline - now <= 0
  {
    Opacity(deadline, TotalPeriod(deadline, initializedAt), now)
  }

  /** `new Vanisher(options)` including its validation, as in the current engine. */
  method Create(deadline: Option<int>, element: Element?, onDeadlineReached: Option<CallbackId>,
                updateIntervalMs: Option<int>, fadeDurationMs: Option<int>, now: int)
    returns (r: Result<Vanisher, VanisherError>)
    modifies element
    ensures r.Failure? <==> deadline.None?
    ensures r.Failure? ==> r.error == InvalidDeadline && (element != null ==> unchanged(element))
    ensures r.Success? ==> fresh(r.value) && r.value.Valid()
    ensures r.Success? ==> r.value.deadline == deadline.value && r.value.target == element
    ensures r.Success? ==> r.value.initializedAt == now
  {
    var checked := ValidateDeadlineDate(deadline);
    if checked.Failure? {
      return Failure(checked.error);
    }
    var v := new Vanisher(checked.value, element, onDeadlineReached, updateIntervalMs, fadeDurationMs, now);
    return Success(v);
  }

  /**
   * A frame left pending when the target is replaced by one that resolves to nothing: the ramp
   * from 1000 to a deadline of 100000 reads about 0.5 at 50000, so that pass schedules a frame;
   * the update one millisecond later unbinds the target and its own pass is then inert, so the
   * frame stays pending, and when the host runs it the non-null assertion throws.
   */
  method DanglingFrameThrows() returns (pending: bool, threw: bool)
    ensures pending && threw
  {
    var element := new Element(Blank, Blank, Blank, Blank);
    var v := new Vanisher(100000, element, None, None, None, 1000);
    OpacityOnRamp(100000, 1000, 50000);
    v.ApplyOpacity(50000);
    var r := v.UpdateOptions(None, Some(null), None, None, None, 50001);
    pending := v.rafId.Some? && v.rafId.value in v.host.frames;
    threw := v.RunFrame(v.rafId.value);
  }

  class Vanisher {
    var options: Options
    var target: Element?
    var deadline: int
    var initializedAt: int
    var updaterId: Option<nat>
    var rafId: Option<nat>
    var lastOpacity: real
    /** The host's timers and frame queue as this instance sees them. */
    const host: Scheduler
    /** The callbacks invoked as `onDeadlineReached`, in order. */
    ghost var notices: seq<CallbackId>

    /**
     * The object invariant: at most one interval timer runs, the one `updaterId` names, at
     * the configured period; at most one animation frame is pending, the one `rafId` names.
     */
    ghost predicate Valid()
      reads this, host
    {
      0.0 <= lastOpacity <= 1.0 &&
      host.Valid() &&
      (updaterId.Some? ==> updaterId.value >= 1) &&
      (rafId.Some? ==> rafId.value >= 1) &&
      host.intervals.Keys == HandleSet(updaterId) &&
      host.frames.Keys <= HandleSet(rafId) &&
      (forall h :: h in host.intervals ==> host.intervals[h] == options.updateIntervalMs) &&
      (forall h :: h in host.frames ==> 0.0 <= host.frames[h] <= 1.0)
    }

    /** No timer runs and no frame is pending. */
    ghost predicate Stopped()
      reads this, host
    {
      updaterId.None? && rafId.None? && host.intervals == map[] && host.frames == map[]
    }

    /** Whether the opacity at `now` differs enough from `before` to be written. */
    ghost predicate Significant(before: real, now: int)
      reads this
    {
      Abs(before - CalculateOpacity(deadline, initializedAt, now)) > MIN_OPACITY_CHANGE
    }

    /** The element an update leaves bound. */
    function TargetAfter(newTarget: Option<Element?>): Element?
      reads this
    {
      if newTarget.Some? then newTarget.value else target
    }

    /**
     * The constructor after validation, followed by `initialize`: bind the resolved target,
     * set its transition if it has none, run one pass, start the timer.
     */
    constructor (deadline: int, element: Element?, onDeadlineReached: Option<CallbackId>,
                 updateIntervalMs: Option<int>, fadeDurationMs: Option<int>, now: int)
      modifies element
      ensures Valid() && fresh(host)
      ensures this.deadline == deadline && initializedAt == now && target == element
      ensures options == Options(onDeadlineReached.GetOr(NOOP_CALLBACK),
                                 updateIntervalMs.GetOr(DEFAULT_UPDATE_INTERVAL),
                                 fadeDurationMs.GetOr(DEFAULT_FADE_DURATION))
      ensures element == null ==> Stopped() && lastOpacity == 1.0 && notices == []
      ensures element != null ==> updaterId.Some? && host.setIntervalCalls == 1
      ensures element != null ==> host.intervals == map[updaterId.value := options.updateIntervalMs]
      ensures element != null ==>
        element.transition == (if IsEmpty(old(element.transition)) then Fade(options.fadeDurationMs)
                               else old(element.transition))
      ensures element != null ==> element.opacity == old(element.opacity)
      ensures element != null ==> element.pointerEvents == old(element.pointerEvents)
      ensures element != null ==> element.userSelect == old(element.userSelect)
      // A future deadline starts the ramp at exactly 1, so the first pass writes nothing.
      ensures element != null && deadline > now ==> lastOpacity == 1.0 && host.frames == map[] && notices == []
      // A past deadline fires the callback and cancels the frame that would have written 0.
      ensures element != null && deadline <= now ==>
        lastOpacity == 0.0 && rafId.None? && host.frames == map[] && notices == [options.onDeadlineReached]
    {
      this.deadline := deadline;
      options := Options(onDeadlineReached.GetOr(NOOP_CALLBACK),
                         updateIntervalMs.GetOr(DEFAULT_UPDATE_INTERVAL),
                         fadeDurationMs.GetOr(DEFAULT_FADE_DURATION));
      initializedAt := now;
      target := null;
      updaterId, rafId := None, None;
      lastOpacity := 1.0;
      notices := [];
      host := new Scheduler();
      new;
      target := element;
      if target != null {
        if IsEmpty(target.transition) {
          target.transition := Fade(options.fadeDurationMs);
        }
        if deadline > now {
          OpacityAtStart(deadline, now);
        }
        ApplyOpacity(now);
        StartAutoUpdater();
      }
    }

    /**
     * `applyOpacity`: inert without a target; otherwise schedules one frame (cancelling any
     * pending one) when the opacity moved by more than 0.01, and on a reached deadline fires
     * the callback and stops everything, including the frame it may just have scheduled.
     */
    method ApplyOpacity(now: int)
      requires Valid()
      modifies this, host
      ensures Valid()
      ensures old(target) == null ==> unchanged(this, host)
      ensures options == old(options) && target == old(target) && deadline == old(deadline)
      ensures initializedAt == old(initializedAt)
      ensures lastOpacity ==
        (if target != null && old(Significant(lastOpacity, now))
         then CalculateOpacity(deadline, initializedAt, now) else old(lastOpacity))
      ensures host.frameRequests == old(host.frameRequests) +
        (if target != null && old(Significant(lastOpacity, now)) then 1 else 0)
      ensures host.setIntervalCalls == old(host.setIntervalCalls)
      ensures target != null && deadline - now <= 0 ==>
        Stopped() && notices == old(notices) + [options.onDeadlineReached] &&
        host.clearIntervalCalls == old(host.clearIntervalCalls) + |HandleSet(old(updaterId))|
      ensures !(target != null && deadline - now <= 0) ==>
        updaterId == old(updaterId) && host.intervals == old(host.intervals) &&
        notices == old(notices) && host.clearIntervalCalls == old(host.clearIntervalCalls)
      ensures target != null && old(Significant(lastOpacity, now)) && deadline - now > 0 ==>
        rafId.Some? && host.frames == map[rafId.value := CalculateOpacity(deadline, initializedAt, now)]
      ensures !(target != null && old(Significant(lastOpacity, now))) && deadline - now > 0 ==>
        rafId == old(rafId) && host.frames == old(host.frames)
    {
      if target == null {
        return;
      }
      var remaining := CalculateTimeRemaining(deadline, now);
      var opacity := CalculateOpacity(deadline, initializedAt, now);
      if Abs(lastOpacity - opacity) > MIN_OPACITY_CHANGE {
        lastOpacity := opacity;
        if rafId.Some? && rafId.value != 0 {
          host.CancelFrame(rafId.value);
        }
        var id := host.RequestFrame(opacity);
        rafId := Some(id);
      }
      if remaining.totalMs <= 0 {
        notices := notices + [options.onDeadlineReached];
        StopAutoUpdater();
      }
    }

    /**
     * The animation-frame callback, run by the host for the pending frame `id`. It reaches the
     * target through a non-null assertion, so with no target bound it throws a TypeError and
     * writes nothing. Otherwise it writes the captured opacity and sets both interaction
     * styles to "none" exactly when that opacity is 0, to "" otherwise.
     */
    method RunFrame(id: nat) returns (threw: bool)
      requires Valid() && id in host.frames
      modifies host, target
      ensures Valid() && unchanged(this)
      ensures host.frames == map[]
      ensures host.nextHandle == old(host.nextHandle) && host.intervals == old(host.intervals)
      ensures host.setIntervalCalls == old(host.setIntervalCalls)
      ensures host.clearIntervalCalls == old(host.clearIntervalCalls)
      ensures host.frameRequests == old(host.frameRequests) && host.frameCancels == old(host.frameCancels)
      ensures threw <==> target == null
      ensures target != null ==> target.opacity == Level(old(host.frames)[id])
      ensures target != null ==> target.transition == old(target.transition)
      ensures target != null ==>
        target.pointerEvents == target.userSelect == (if old(host.frames)[id] == 0.0 then NONE else Blank)
    {
      var opacity := host.TakeFrame(id);
      if target == null {
        return true;
      }
      target.opacity := Level(opacity);
      if opacity == 0.0 {
        target.pointerEvents := NONE;
        target.userSelect := NONE;
      } else {
        target.pointerEvents := Blank;
        target.userSelect := Blank;
      }
      return false;
    }

    /** `startAutoUpdater`: a no-op while a timer runs, otherwise start one at the configured period. */
    method StartAutoUpdater()
      requires Valid()
      modifies this, host
      ensures Valid()
      ensures old(updaterId).Some? ==> unchanged(this, host)
      ensures old(updaterId).None? ==>
        updaterId.Some? && host.intervals == map[updaterId.value := options.updateIntervalMs] &&
        host.setIntervalCalls == old(host.setIntervalCalls) + 1
      ensures options == old(options) && target == old(target) && deadline == old(deadline)
      ensures initializedAt == old(initializedAt) && lastOpacity == old(lastOpacity)
      ensures rafId == old(rafId) && host.frames == old(host.frames) && notices == old(notices)
      ensures host.clearIntervalCalls == old(host.clearIntervalCalls)
      ensures host.frameRequests == old(host.frameRequests)
    {
      if updaterId.Some? {
        return;
      }
      var id := host.SetInterval(options.updateIntervalMs);
      updaterId := Some(id);
    }

    /** `stopAutoUpdater`: clear the timer and cancel the pending frame, nulling both handles. */
    method StopAutoUpdater()
      requires Valid()
      modifies this, host
      ensures Valid() && Stopped()
      ensures host.clearIntervalCalls == old(host.clearIntervalCalls) + |HandleSet(old(updaterId))|
      ensures host.frameCancels == old(host.frameCancels) + |HandleSet(old(rafId))|
      ensures host.setIntervalCalls == old(host.setIntervalCalls)
      ensures host.frameRequests == old(host.frameRequests)
      ensures options == old(options) && target == old(target) && deadline == old(deadline)
      ensures initializedAt == old(initializedAt) && lastOpacity == old(lastOpacity)
      ensures notices == old(notices)
      ensures old(updaterId).None? && old(rafId).None? ==> unchanged(this, host)
    {
      ClearUpdater();
      CancelPendingFrame();
    }

    /** The timer half of `stopAutoUpdater`. */
    method ClearUpdater()
      requires Valid()
      modifies this, host
      ensures Valid() && updaterId.None? && host.intervals == map[]
      ensures host.clearIntervalCalls == old(host.clearIntervalCalls) + |HandleSet(old(updaterId))|
      ensures rafId == old(rafId) && host.frames == old(host.frames)
      ensures host.frameCancels == old(host.frameCancels)
      ensures host.setIntervalCalls == old(host.setIntervalCalls)
      ensures host.frameRequests == old(host.frameRequests)
      ensures options == old(options) && target == old(target) && deadline == old(deadline)
      ensures initializedAt == old(initializedAt) && lastOpacity == old(lastOpacity)
      ensures notices == old(notices)
      ensures old(updaterId).None? ==> unchanged(this, host)
    {
      if updaterId.Some? {
        host.ClearInterval(updaterId.value);
        updaterId := None;
      }
      NoKeysEmpty(host.intervals);
    }

    /** The frame half of `stopAutoUpdater`. */
    method CancelPendingFrame()
      requires Valid()
      modifies this, host
      ensures Valid() && rafId.None? && host.frames == map[]
      ensures host.frameCancels == old(host.frameCancels) + |HandleSet(old(rafId))|
      ensures updaterId == old(updaterId) && host.intervals == old(host.intervals)
      ensures host.clearIntervalCalls == old(host.clearIntervalCalls)
      ensures host.setIntervalCalls == old(host.setIntervalCalls)
      ensures host.frameRequests == old(host.frameRequests)
      ensures options == old(options) && target == old(target) && deadline == old(deadline)
      ensures initializedAt == old(initializedAt) && lastOpacity == old(lastOpacity)
      ensures notices == old(notices)
      ensures old(rafId).None? ==> unchanged(this, host)
    {
      if rafId.Some? {
        host.CancelFrame(rafId.value);
        rafId := None;
      }
      NoKeysEmpty(host.frames);
    }


    /**
     * `getStatus`, with the ramp length recomputed: a reached deadline reads opacity 0, no days,
     * no hours and inactive; the instance is active exactly while an hour or more remains.
     */
    function GetStatus(now: int): (s: Status)
      reads this
      ensures deadline - now <= 0 ==> s.opacity == 0.0 && s.daysRemaining == 0 && s.hoursRemaining == 0
      ensures deadline - now <= 0 ==> !s.isActive
      ensures s.isActive <==> deadline - now >= ONE_HOUR_MS
      ensures s.opacity == CalculateOpacity(deadline, initializedAt, now)
      ensures s.daysRemaining >= 0 && 0 <= s.hoursRemaining < 24
    {
      StatusAt(deadline, TotalPeriod(deadline, initializedAt), now)
    }

    /** `getDaysRemaining`: the same whole-day count `getStatus` reports. */
    function GetDaysRemaining(now: int): (d: int)
      reads this
      ensures d >= 0 && d == GetStatus(now).daysRemaining
    {
      DaysRemaining(deadline, now)
    }

    /**
     * `updateOptions`: each option present is applied in turn, then one pass runs. A new
     * deadline is validated before anything changes, so on InvalidDeadline the old deadline
     * survives. `newDeadline` is None for an absent or empty deadline, Some(None) for one whose
     * time is NaN; `newTarget` carries the element the host resolved.
     */
    method UpdateOptions(newDeadline: Option<Option<int>>, newTarget: Option<Element?>,
                         newCallback: Option<CallbackId>, newInterval: Option<int>,
                         newFade: Option<int>, now: int)
      returns (r: Outcome<VanisherError>)
      requires Valid()
      modifies this, host, TargetAfter(newTarget)
      ensures r.Fail? <==> newDeadline == Some(None)
      ensures r.Fail? ==> r.error == InvalidDeadline && unchanged(this, host)
      ensures r.Fail? && old(TargetAfter(newTarget)) != null ==> unchanged(old(TargetAfter(newTarget)))
      ensures r.Pass? ==> Valid() && target == old(TargetAfter(newTarget))
      ensures r.Pass? ==> deadline == (if newDeadline.Some? then newDeadline.value.value else old(deadline))
      ensures r.Pass? ==> initializedAt == (if newDeadline.Some? then now else old(initializedAt))
      ensures r.Pass? ==> options == Options(newCallback.GetOr(old(options.onDeadlineReached)),
                                             newInterval.GetOr(old(options.updateIntervalMs)),
                                             newFade.GetOr(old(options.fadeDurationMs)))
      ensures r.Pass? ==>
        host.setIntervalCalls == old(host.setIntervalCalls) + (if newInterval.Some? then 1 else 0)
      ensures r.Pass? ==>
        lastOpacity == (if target != null && Significant(old(lastOpacity), now)
                        then CalculateOpacity(deadline, initializedAt, now) else old(lastOpacity))
      // The deadline is reached: callback fired, everything stopped.
      ensures r.Pass? && target != null && deadline - now <= 0 ==>
        Stopped() && notices == old(notices) + [options.onDeadlineReached]
      ensures r.Pass? && !(target != null && deadline - now <= 0) ==> notices == old(notices)
      // Otherwise a new period replaces the timer exactly once and the old one is cleared once.
      ensures r.Pass? && newInterval.Some? && !(target != null && deadline - now <= 0) ==>
        updaterId.Some? && host.intervals == map[updaterId.value := newInterval.value] &&
        host.clearIntervalCalls == old(host.clearIntervalCalls) + |HandleSet(old(updaterId))|
      ensures r.Pass? && newInterval.None? && !(target != null && deadline - now <= 0) ==>
        updaterId == old(updaterId) && host.intervals == old(host.intervals) &&
        host.clearIntervalCalls == old(host.clearIntervalCalls)
      // The frame the pass leaves pending.
      ensures r.Pass? && target != null && Significant(old(lastOpacity), now) && deadline - now > 0 ==>
        rafId.Some? && host.frames == map[rafId.value := CalculateOpacity(deadline, initializedAt, now)]
      ensures r.Pass? && !(target != null && (Significant(old(lastOpacity), now) || deadline - now <= 0)) ==>
        if newInterval.Some? then rafId.None? && host.frames == map[]
        else rafId == old(rafId) && host.frames == old(host.frames)
      // What the update writes on the element it leaves bound: only a new fade duration.
      ensures r.Pass? && target != null ==> var t := target;
        t.transition == (if newFade.Some? then Fade(newFade.value) else old(t.transition))
      ensures r.Pass? && target != null ==> var t := target;
        t.opacity == old(t.opacity) && t.pointerEvents == old(t.pointerEvents) && t.userSelect == old(t.userSelect)
    {
      var time := None;
      if newDeadline.Some? {
        var checked := ValidateDeadlineDate(newDeadline.value);
        if checked.Failure? {
          return Fail(checked.error);
        }
        time := Some(checked.value);
      }
      Rebind(time, newTarget, newCallback, now);
      if newInterval.Some? {
        RestartAutoUpdater(newInterval.value);
      }
      if newFade.Some? {
        SetFadeDuration(newFade.value);
      }
      ApplyOpacity(now);
      return Pass;
    }

    /** The deadline, target and callback steps of `updateOptions`, the deadline already validated. */
    method Rebind(newDeadline: Option<int>, newTarget: Option<Element?>, newCallback: Option<CallbackId>, now: int)
      requires Valid()
      modifies this
      ensures Valid() && target == old(TargetAfter(newTarget))
      ensures deadline == newDeadline.GetOr(old(deadline))
      ensures initializedAt == (if newDeadline.Some? then now else old(initializedAt))
      ensures options == old(options).(onDeadlineReached := newCallback.GetOr(old(options.onDeadlineReached)))
      ensures updaterId == old(updaterId) && rafId == old(rafId)
      ensures lastOpacity == old(lastOpacity) && notices == old(notices)
    {
      if newDeadline.Some? {
        deadline := newDeadline.value;
        initializedAt := now;
      }
      if newTarget.Some? {
        target := newTarget.value;
      }
      if newCallback.Some? {
        options := options.(onDeadlineReached := newCallback.value);
      }
    }

    /** The `updateIntervalMs` step of `updateOptions`: record the period, stop, start again. */
    method RestartAutoUpdater(period: int)
      requires Valid()
      modifies this, host
      ensures Valid()
      ensures options == old(options).(updateIntervalMs := period)
      ensures updaterId.Some? && host.intervals == map[updaterId.value := period]
      ensures rafId.None? && host.frames == map[]
      ensures host.setIntervalCalls == old(host.setIntervalCalls) + 1
      ensures host.clearIntervalCalls == old(host.clearIntervalCalls) + |HandleSet(old(updaterId))|
      ensures host.frameRequests == old(host.frameRequests)
      ensures target == old(target) && deadline == old(deadline) && initializedAt == old(initializedAt)
      ensures lastOpacity == old(lastOpacity) && notices == old(notices)
    {
      // Stopping reads no option, so recording the new period after it is the same as before it.
      StopAutoUpdater();
      options := options.(updateIntervalMs := period);
      StartAutoUpdater();
    }

    /** The `fadeDurationMs` step of `updateOptions`: record it and rewrite a bound target's transition. */
    method SetFadeDuration(ms: int)
      modifies this, target
      ensures options == old(options).(fadeDurationMs := ms)
      ensures target == old(target) && deadline == old(deadline) && initializedAt == old(initializedAt)
      ensures updaterId == old(updaterId) && rafId == old(rafId)
      ensures lastOpacity == old(lastOpacity) && notices == old(notices)
      ensures target != null ==> target.transition == Fade(ms)
      ensures target != null ==> target.opacity == old(target.opacity)
      ensures target != null ==> target.pointerEvents == old(target.pointerEvents)
      ensures target != null ==> target.userSelect == old(target.userSelect)
    {
      options := options.(fadeDurationMs := ms);
      if target != null {
        target.transition := Fade(options.fadeDurationMs);
      }
    }

    /**
     * `reset`: show the target fully, re-enable interaction, restart the ramp at `now` against
     * the same deadline, forget the last opacity, and run one pass. While the deadline is ahead
     * the restarted ramp reads exactly 1, so the pass writes nothing.
     */
    method Reset(now: int)
      requires Valid()
      modifies this, host, target
      ensures Valid()
      ensures target == old(target) && deadline == old(deadline) && options == old(options)
      ensures initializedAt == now
      ensures deadline - now > 0 ==> CalculateOpacity(deadline, initializedAt, now) == 1.0
      ensures target != null ==> target.opacity == Level(1.0) && target.transition == old(target.transition)
      ensures target != null ==> target.pointerEvents == Blank && target.userSelect == Blank
      ensures !(target != null && deadline - now <= 0) ==>
        lastOpacity == 1.0 && updaterId == old(updaterId) && rafId == old(rafId) &&
        host.intervals == old(host.intervals) && host.frames == old(host.frames) && notices == old(notices)
      ensures target != null && deadline - now <= 0 ==>
        lastOpacity == 0.0 && Stopped() && notices == old(notices) + [options.onDeadlineReached]
    {
      if target != null {
        target.opacity := Level(1.0);
        target.pointerEvents := Blank;
        target.userSelect := Blank;
      }
      initializedAt := now;
      lastOpacity := 1.0;
      if deadline - now > 0 {
        OpacityAtStart(deadline, now);
      }
      ApplyOpacity(now);
    }

    /**
     * `destroy`: stop the timer and the pending frame and blank the four styles. The target
     * stays bound; a second call changes nothing further.
     */
    method Destroy()
      requires Valid()
      modifies this, host, target
      ensures Valid() && Stopped() && target == old(target)
      ensures target != null ==>
        target.opacity == Blank && target.transition == Blank &&
        target.pointerEvents == Blank && target.userSelect == Blank
      ensures options == old(options) && deadline == old(deadline) && initializedAt == old(initializedAt)
      ensures lastOpacity == old(lastOpacity) && notices == old(notices)
      ensures host.clearIntervalCalls == old(host.clearIntervalCalls) + |HandleSet(old(updaterId))|
      ensures old(updaterId).None? && old(rafId).None? ==> unchanged(this, host)
    {
      StopAutoUpdater();
      if target != null {
        target.opacity := Blank;
        target.transition := Blank;
        target.pointerEvents := Blank;
        target.userSelect := Blank;
      }
    }
  }
}
