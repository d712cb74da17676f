/**
 * The current engine: the `Vanisher` class with a throttle, a cached ramp length and a
 * `destroy` that unbinds the target.
 *
 * Every operation receives the current time `now` in place of `Date.now()` / `new Date()`.
 * The interval timer's callback is `applyOpacity` itself, so a tick is a call of ApplyOpacity;
 * an animation frame's callback is RunFrame. Invocations of `onDeadlineReached` are recorded
 * in the ghost sequence `notices`.
 */
module Vanisher {
  import opened Types
  import opened Dom
  import opened Host
  import opened FadeMath
  import opened EngineCommon

  /**
   * `new Vanisher(options)` including its validation: a NaN deadline throws before any object
   * exists or any element is touched; otherwise the instance is built by the constructor.
   * `element` is the target as the host resolved it (`null` when nothing matched).
   */
  method Create(deadline: Option<int>, element: Element?, onDeadlineReached: Option<CallbackId>,
                updateIntervalMs: Option<int>, fadeDurationMs: Option<int>, now: int)
    returns (r: Result<Vanisher, VanisherError>)
    modifies element
    ensures r.Failure? <==> deadline.None?
    ensures r.Failure? ==> r.error == InvalidDeadline && (element != null ==> unchanged(element))
    ensures r.Success? ==> fresh(r.value) && r.value.Valid()
    ensures r.Success? ==> r.value.deadline == deadline.value && r.value.target == element
    ensures r.Success? ==> r.value.initializedAt == now
  {
    var checked := ValidateDeadlineDate(deadline);
    if checked.Failure? {
      return Failure(checked.error);
    }
    var v := new Vanisher(checked.value, element, onDeadlineReached, updateIntervalMs, fadeDurationMs, now);
    return Success(v);
  }

  /**
   * The scenario in which the earlier engine's frame throws, run against this engine: the frame
   * scheduled at 50000 is still pending after the target is unbound, and running it consumes it
   * and writes nothing, so the element that used to be the target keeps its styles.
   */
  method DanglingFrameIsSkipped() returns (pending: bool, framesLeft: nat, detachedOpacity: StyleValue)
    ensures pending && framesLeft == 0 && detachedOpacity == Blank
  {
    var element := new Element(Blank, Blank, Blank, Blank);
    var v := new Vanisher(100000, element, None, None, None, 1000);
    OpacityOnRamp(100000, 1000, 50000);
    v.ApplyOpacity(50000);
    var r := v.UpdateOptions(None, Some(null), None, None, None, 50001);
    pending := v.rafId.Some? && v.rafId.value in v.host.frames;
    v.RunFrame(v.rafId.value);
    framesLeft := |v.host.frames|;
    detachedOpacity := element.opacity;
  }

  class Vanisher {
    var options: Options
    var target: Element?
    var deadline: int
    var initializedAt: int
    var updaterId: Option<nat>
    var rafId: Option<nat>
    var lastOpacity: real
    var lastUpdateTime: int
    var totalPeriod: int
    /** The host's timers and frame queue as this instance sees them. */
    const host: Scheduler
    /** The callbacks invoked as `onDeadlineReached`, in order. */
    ghost var notices: seq<CallbackId>

    /**
     * The object invariant: the cached ramp length is the one the deadline and start give;
     * at most one interval timer runs and it is the one `updaterId` names, ticking at the
     * configured period; at most one animation frame is pending and it is the one `rafId` names.
     */
    ghost predicate Valid()
      reads this, host
      ensures Valid() ==> totalPeriod >= 1 && totalPeriod >= deadline - initializedAt
      ensures Valid() ==> totalPeriod == deadline - initializedAt || (totalPeriod == 1 && deadline - initializedAt < 1)
    {
      totalPeriod == TotalPeriod(deadline, initializedAt) &&
      0.0 <= lastOpacity <= 1.0 &&
      host.Valid() &&
      (updaterId.Some? ==> updaterId.value >= 1) &&
      (rafId.Some? ==> rafId.value >= 1) &&
      host.intervals.Keys == HandleSet(updaterId) &&
      host.frames.Keys <= HandleSet(rafId) &&
      (forall h :: h in host.intervals ==> host.intervals[h] == options.updateIntervalMs) &&
      (forall h :: h in host.frames ==> 0.0 <= host.frames[h] <= 1.0)
    }

    /** No timer runs and no frame is pending. */
    ghost predicate Stopped()
      reads this, host
    {
      updaterId.None? && rafId.None? && host.intervals == map[] && host.frames == map[]
    }

    /** Whether a pass at `now` gets past the target check and the 16 ms throttle. */
    ghost predicate PassRuns(now: int, lastUpdate: int)
      reads this
    {
      target != null && now - lastUpdate >= THROTTLE_MS
    }

    /** Whether the opacity at `now` differs enough from `before` to be written. */
    ghost predicate Significant(before: real, now: int)
      reads this
      requires totalPeriod >= 1
    {
      Abs(before - Opacity(deadline, totalPeriod, now)) > MIN_OPACITY_CHANGE
    }

    /** The element an update leaves bound. */
    function TargetAfter(newTarget: Option<Element?>): Element?
      reads this
    {
      if newTarget.Some? then newTarget.value else target
    }

    /**
     * The constructor after validation, followed by `initialize`: bind the resolved target,
     * set its transition if it has none, run one pass, start the timer. Without a target the
     * instance stays inert.
     */
    constructor (deadline: int, element: Element?, onDeadlineReached: Option<CallbackId>,
                 updateIntervalMs: Option<int>, fadeDurationMs: Option<int>, now: int)
      modifies element
      ensures Valid() && fresh(host)
      ensures this.deadline == deadline && initializedAt == now && target == element
      ensures totalPeriod == TotalPeriod(deadline, now)
      ensures options == Options(onDeadlineReached.GetOr(NOOP_CALLBACK),
                                 updateIntervalMs.GetOr(DEFAULT_UPDATE_INTERVAL),
                                 fadeDurationMs.GetOr(DEFAULT_FADE_DURATION))
      ensures element == null ==> Stopped() && lastOpacity == 1.0 && lastUpdateTime == 0 && notices == []
      ensures element != null ==> updaterId.Some? && host.setIntervalCalls == 1
      ensures element != null ==> host.intervals == map[updaterId.value := options.updateIntervalMs]
      ensures element != null ==>
        element.transition == (if IsEmpty(old(element.transition)) then Fade(options.fadeDurationMs)
                               else old(element.transition))
      ensures element != null ==> element.opacity == old(element.opacity)
      ensures element != null ==> element.pointerEvents == old(element.pointerEvents)
      ensures element != null ==> element.userSelect == old(element.userSelect)
      // A future deadline starts the ramp at exactly 1, so the first pass writes nothing.
      ensures element != null ==> lastUpdateTime == if now >= THROTTLE_MS then now else 0
      ensures element != null && now >= THROTTLE_MS && deadline > now ==>
        lastOpacity == 1.0 && host.frames == map[] && notices == []
      // A past deadline fires the callback and cancels the frame that would have written 0;
      // the timer is started afterwards all the same.
      ensures element != null && now >= THROTTLE_MS && deadline <= now ==>
        lastOpacity == 0.0 && rafId.None? && host.frames == map[] && notices == [options.onDeadlineReached]
    {
      this.deadline := deadline;
      options := Options(onDeadlineReached.GetOr(NOOP_CALLBACK),
                         updateIntervalMs.GetOr(DEFAULT_UPDATE_INTERVAL),
                         fadeDurationMs.GetOr(DEFAULT_FADE_DURATION));
      initializedAt := now;
      totalPeriod := TotalPeriod(deadline, now);
      target := null;
      updaterId, rafId := None, None;
      lastOpacity, lastUpdateTime := 1.0, 0;
      notices := [];
      host := new Scheduler();
      new;
      target := element;
      if target != null {
        SetupElementStyles();
        if deadline > now {
          OpacityAtStart(deadline, now);
        }
        ApplyOpacity(now);
        StartAutoUpdater();
      }
    }

    /** `setupElementStyles`: give the target the fade transition unless it already has one. */
    method SetupElementStyles()
      modifies target
      ensures target != null ==>
        target.transition == (if IsEmpty(old(target.transition)) then Fade(options.fadeDurationMs)
                              else old(target.transition))
      ensures target != null ==> target.opacity == old(target.opacity)
      ensures target != null ==> target.pointerEvents == old(target.pointerEvents)
      ensures target != null ==> target.userSelect == old(target.userSelect)
    {
      if target == null {
        return;
      }
      if IsEmpty(target.transition) {
        target.transition := Fade(options.fadeDurationMs);
      }
    }

    /**
     * `applyOpacity`: inert without a target or within 16 ms of the last pass; otherwise it
     * stamps the pass, schedules one frame (cancelling any pending one) when the opacity moved
     * by more than 0.01, and on a reached deadline fires the callback and stops everything,
     * including the frame it may just have scheduled.
     */
    method ApplyOpacity(now: int)
      requires Valid()
      modifies this, host
      ensures Valid()
      ensures !old(PassRuns(now, lastUpdateTime)) ==> unchanged(this, host)
      ensures options == old(options) && target == old(target) && deadline == old(deadline)
      ensures initializedAt == old(initializedAt) && totalPeriod == old(totalPeriod)
      ensures lastUpdateTime == if old(PassRuns(now, lastUpdateTime)) then now else old(lastUpdateTime)
      ensures lastOpacity ==
        if old(PassRuns(now, lastUpdateTime)) && old(Significant(lastOpacity, now))
        then Opacity(deadline, totalPeriod, now) else old(lastOpacity)
      ensures host.frameRequests == old(host.frameRequests) +
        (if old(PassRuns(now, lastUpdateTime)) && old(Significant(lastOpacity, now)) then 1 else 0)
      ensures host.setIntervalCalls == old(host.setIntervalCalls)
      ensures old(PassRuns(now, lastUpdateTime)) && deadline - now <= 0 ==>
        Stopped() && notices == old(notices) + [options.onDeadlineReached] &&
        host.clearIntervalCalls == old(host.clearIntervalCalls) + |HandleSet(old(updaterId))|
      ensures !(old(PassRuns(now, lastUpdateTime)) && deadline - now <= 0) ==>
        updaterId == old(updaterId) && host.intervals == old(host.intervals) &&
        notices == old(notices) && host.clearIntervalCalls == old(host.clearIntervalCalls)
      ensures old(PassRuns(now, lastUpdateTime)) && old(Significant(lastOpacity, now)) && deadline - now > 0 ==>
        rafId.Some? && host.frames == map[rafId.value := Opacity(deadline, totalPeriod, now)]
      ensures !(old(PassRuns(now, lastUpdateTime)) && old(Significant(lastOpacity, now))) && deadline - now > 0 ==>
        rafId == old(rafId) && host.frames == old(host.frames)
    {
      if target == null {
        return;
      }
      if now - lastUpdateTime < THROTTLE_MS {
        return;
      }
      lastUpdateTime := now;
      var remaining := CalculateTimeRemaining(deadline, now);
      var opacity := Opacity(deadline, totalPeriod, now);
      if Abs(lastOpacity - opacity) > MIN_OPACITY_CHANGE {
        lastOpacity := opacity;
        if rafId.Some? && rafId.value != 0 {
          host.CancelFrame(rafId.value);
        }
        var id := host.RequestFrame(opacity);
        rafId := Some(id);
      }
      if remaining.totalMs <= 0 {
        notices := notices + [options.onDeadlineReached];
        StopAutoUpdater();
      }
    }

    /**
     * The animation-frame callback, run by the host for the pending frame `id`: write the
     * captured opacity and flip interaction only at the zero boundary. Afterwards the target
     * refuses pointer events exactly when the written opacity is 0. `rafId` keeps the spent handle.
     */
    method RunFrame(id: nat)
      requires Valid() && id in host.frames
      modifies host, target
      ensures Valid() && unchanged(this)
      ensures host.frames == map[]
      ensures host.nextHandle == old(host.nextHandle) && host.intervals == old(host.intervals)
      ensures host.setIntervalCalls == old(host.setIntervalCalls)
      ensures host.clearIntervalCalls == old(host.clearIntervalCalls)
      ensures host.frameRequests == old(host.frameRequests) && host.frameCancels == old(host.frameCancels)
      ensures target != null ==> target.opacity == Level(old(host.frames)[id])
      ensures target != null ==> target.transition == old(target.transition)
      ensures target != null ==> (target.pointerEvents == NONE <==> old(host.frames)[id] == 0.0)
      ensures target != null && old(host.frames)[id] == 0.0 && old(target.pointerEvents) != NONE ==>
        target.pointerEvents == NONE && target.userSelect == NONE
      ensures target != null && old(host.frames)[id] > 0.0 && old(target.pointerEvents) == NONE ==>
        target.pointerEvents == Blank && target.userSelect == Blank
      ensures target != null && (old(host.frames)[id] == 0.0 <==> old(target.pointerEvents) == NONE) ==>
        target.pointerEvents == old(target.pointerEvents) && target.userSelect == old(target.userSelect)
    {
      var opacity := host.TakeFrame(id);
      if target == null {
        return;
      }
      target.opacity := Level(opacity);
      if opacity == 0.0 && target.pointerEvents != NONE {
        target.pointerEvents := NONE;
        target.userSelect := NONE;
      } else if opacity > 0.0 && target.pointerEvents == NONE {
        target.pointerEvents := Blank;
        target.userSelect := Blank;
      }
    }

    /** `startAutoUpdater`: a no-op while a timer runs, otherwise start one at the configured period. */
    method StartAutoUpdater()
      requires Valid()
      modifies this, host
      ensures Valid()
      ensures old(updaterId).Some? ==> unchanged(this, host)
      ensures old(updaterId).None? ==>
        updaterId.Some? && host.intervals == map[updaterId.value := options.updateIntervalMs] &&
        host.setIntervalCalls == old(host.setIntervalCalls) + 1
      ensures options == old(options) && target == old(target) && deadline == old(deadline)
      ensures initializedAt == old(initializedAt) && totalPeriod == old(totalPeriod)
      ensures lastOpacity == old(lastOpacity) && lastUpdateTime == old(lastUpdateTime)
      ensures rafId == old(rafId) && host.frames == old(host.frames) && notices == old(notices)
      ensures host.clearIntervalCalls == old(host.clearIntervalCalls)
      ensures host.frameRequests == old(host.frameRequests)
    {
      if updaterId.Some? {
        return;
      }
      var id := host.SetInterval(options.updateIntervalMs);
      updaterId := Some(id);
    }

    /** `stopAutoUpdater`: clear the timer and cancel the pending frame, nulling both handles. */
    method StopAutoUpdater()
      requires Valid()
      modifies this, host
      ensures Valid() && Stopped()
      ensures host.clearIntervalCalls == old(host.clearIntervalCalls) + |HandleSet(old(updaterId))|
      ensures host.frameCancels == old(host.frameCancels) + |HandleSet(old(rafId))|
      ensures host.setIntervalCalls == old(host.setIntervalCalls)
      ensures host.frameRequests == old(host.frameRequests)
      ensures options == old(options) && target == old(target) && deadline == old(deadline)
      ensures initializedAt == old(initializedAt) && totalPeriod == old(totalPeriod)
      ensures lastOpacity == old(lastOpacity) && lastUpdateTime == old(lastUpdateTime)
      ensures notices == old(notices)
      ensures old(updaterId).None? && old(rafId).None? ==> unchanged(this, host)
    {
      ClearUpdater();
      CancelPendingFrame();
    }

    /** The timer half of `stopAutoUpdater`. */
    method ClearUpdater()
      requires Valid()
      modifies this, host
      ensures Valid() && updaterId.None? && host.intervals == map[]
      ensures host.clearIntervalCalls == old(host.clearIntervalCalls) + |HandleSet(old(updaterId))|
      ensures rafId == old(rafId) && host.frames == old(host.frames)
      ensures host.frameCancels == old(host.frameCancels)
      ensures host.setIntervalCalls == old(host.setIntervalCalls)
      ensures host.frameRequests == old(host.frameRequests)
      ensures options == old(options) && target == old(target) && deadline == old(deadline)
      ensures initializedAt == old(initializedAt) && totalPeriod == old(totalPeriod)
      ensures lastOpacity == old(lastOpacity) && lastUpdateTime == old(lastUpdateTime)
      ensures notices == old(notices)
      ensures old(updaterId).None? ==> unchanged(this, host)
    {
      if updaterId.Some? {
        host.ClearInterval(updaterId.value);
        updaterId := None;
      }
      NoKeysEmpty(host.intervals);
    }

    /** The frame half of `stopAutoUpdater`. */
    method CancelPendingFrame()
      requires Valid()
      modifies this, host
      ensures Valid() && rafId.None? && host.frames == map[]
      ensures host.frameCancels == old(host.frameCancels) + |HandleSet(old(rafId))|
      ensures updaterId == old(updaterId) && host.intervals == old(host.intervals)
      ensures host.clearIntervalCalls == old(host.clearIntervalCalls)
      ensures host.setIntervalCalls == old(host.setIntervalCalls)
      ensures host.frameRequests == old(host.frameRequests)
      ensures options == old(options) && target == old(target) && deadline == old(deadline)
      ensures initializedAt == old(initializedAt) && totalPeriod == old(totalPeriod)
      ensures lastOpacity == old(lastOpacity) && lastUpdateTime == old(lastUpdateTime)
      ensures notices == old(notices)
      ensures old(rafId).None? ==> unchanged(this, host)
    {
      if rafId.Some? {
        host.CancelFrame(rafId.value);
        rafId := None;
      }
      NoKeysEmpty(host.frames);
    }


    /**
     * `getStatus`: the snapshot for the current ramp. A reached deadline reads opacity 0,
     * no days, no hours and inactive; the instance is active exactly while an hour or more remains.
     */
    function GetStatus(now: int): (s: Status)
      reads this
      requires totalPeriod >= 1
      ensures deadline - now <= 0 ==> s.opacity == 0.0 && s.daysRemaining == 0 && s.hoursRemaining == 0
      ensures deadline - now <= 0 ==> !s.isActive
      ensures s.isActive <==> deadline - now >= ONE_HOUR_MS
      ensures s.opacity == Opacity(deadline, totalPeriod, now)
      ensures 0.0 <= s.opacity <= 1.0 && s.daysRemaining >= 0 && 0 <= s.hoursRemaining < 24
    {
      StatusAt(deadline, totalPeriod, now)
    }

    /** `getDaysRemaining`: the same whole-day count `getStatus` reports. */
    function GetDaysRemaining(now: int): (d: int)
      reads this
      requires totalPeriod >= 1
      ensures d >= 0 && d == GetStatus(now).daysRemaining
    {
      DaysRemaining(deadline, now)
    }

    /**
     * `updateOptions`: each option present is applied in turn, then one pass runs. A new
     * deadline is validated before anything changes: on InvalidDeadline the instance and the
     * elements are exactly as before. `newDeadline` is None for an absent or empty deadline,
     * Some(None) for one whose time is NaN. `newTarget` carries the element the host resolved.
     */
    method UpdateOptions(newDeadline: Option<Option<int>>, newTarget: Option<Element?>,
                         newCallback: Option<CallbackId>, newInterval: Option<int>,
                         newFade: Option<int>, now: int)
      returns (r: Outcome<VanisherError>)
      requires Valid()
      modifies this, host, TargetAfter(newTarget)
      ensures r.Fail? <==> newDeadline == Some(None)
      ensures r.Fail? ==> r.error == InvalidDeadline && unchanged(this, host)
      ensures r.Fail? && old(TargetAfter(newTarget)) != null ==> unchanged(old(TargetAfter(newTarget)))
      ensures r.Pass? ==> Valid() && target == old(TargetAfter(newTarget))
      ensures r.Pass? ==> deadline == (if newDeadline.Some? then newDeadline.value.value else old(deadline))
      ensures r.Pass? ==> initializedAt == (if newDeadline.Some? then now else old(initializedAt))
      ensures r.Pass? ==> options == Options(newCallback.GetOr(old(options.onDeadlineReached)),
                                             newInterval.GetOr(old(options.updateIntervalMs)),
                                             newFade.GetOr(old(options.fadeDurationMs)))
      ensures r.Pass? ==>
        host.setIntervalCalls == old(host.setIntervalCalls) + (if newInterval.Some? then 1 else 0)
      ensures r.Pass? ==> lastUpdateTime == (if PassRuns(now, old(lastUpdateTime)) then now else old(lastUpdateTime))
      ensures r.Pass? ==>
        lastOpacity == (if PassRuns(now, old(lastUpdateTime)) && Significant(old(lastOpacity), now)
                        then Opacity(deadline, totalPeriod, now) else old(lastOpacity))
      // The deadline is reached: callback fired, everything stopped.
      ensures r.Pass? && PassRuns(now, old(lastUpdateTime)) && deadline - now <= 0 ==>
        Stopped() && notices == old(notices) + [options.onDeadlineReached]
      ensures r.Pass? && !(PassRuns(now, old(lastUpdateTime)) && deadline - now <= 0) ==>
        notices == old(notices)
      // Otherwise a new period replaces the timer exactly once and the old one is cleared once.
      ensures r.Pass? && newInterval.Some? && !(PassRuns(now, old(lastUpdateTime)) && deadline - now <= 0) ==>
        updaterId.Some? && host.intervals == map[updaterId.value := newInterval.value] &&
        host.clearIntervalCalls == old(host.clearIntervalCalls) + |HandleSet(old(updaterId))|
      ensures r.Pass? && newInterval.None? && !(PassRuns(now, old(lastUpdateTime)) && deadline - now <= 0) ==>
        updaterId == old(updaterId) && host.intervals == old(host.intervals) &&
        host.clearIntervalCalls == old(host.clearIntervalCalls)
      // The frame the pass leaves pending.
      ensures r.Pass? && PassRuns(now, old(lastUpdateTime)) && Significant(old(lastOpacity), now) && deadline - now > 0 ==>
        rafId.Some? && host.frames == map[rafId.value := Opacity(deadline, totalPeriod, now)]
      ensures r.Pass? && !(PassRuns(now, old(lastUpdateTime)) && (Significant(old(lastOpacity), now) || deadline - now <= 0)) ==>
        if newInterval.Some? then rafId.None? && host.frames == map[]
        else rafId == old(rafId) && host.frames == old(host.frames)
      // What the update writes on the element it leaves bound.
      ensures r.Pass? && target != null ==> var t := target;
        t.transition ==
          if newFade.Some? then Fade(newFade.value)
          else if (newDeadline.Some? || newTarget.Some?) && IsEmpty(old(t.transition)) then Fade(options.fadeDurationMs)
          else old(t.transition)
      ensures r.Pass? && target != null ==> var t := target;
        t.opacity == old(t.opacity) && t.pointerEvents == old(t.pointerEvents) && t.userSelect == old(t.userSelect)
    {
      var time := None;
      if newDeadline.Some? {
        var checked := ValidateDeadlineDate(newDeadline.value);
        if checked.Failure? {
          return Fail(checked.error);
        }
        time := Some(checked.value);
      }
      ApplyOptionFields(time, newTarget, newCallback, newInterval, newFade, now);
      ApplyOpacity(now);
      return Pass;
    }

    /**
     * The assignments of `updateOptions` between validation and the closing pass, with the
     * deadline already validated: restart the ramp on a new deadline, rebind the target,
     * replace the callback, restart the timer on a new period, rewrite the transition on a
     * new fade duration, and give a re-initialised target its transition if it has none.
     */
    method ApplyOptionFields(newDeadline: Option<int>, newTarget: Option<Element?>,
                             newCallback: Option<CallbackId>, newInterval: Option<int>,
                             newFade: Option<int>, now: int)
      requires Valid()
      modifies this, host, TargetAfter(newTarget)
      ensures Valid() && target == old(TargetAfter(newTarget))
      ensures deadline == newDeadline.GetOr(old(deadline))
      ensures initializedAt == (if newDeadline.Some? then now else old(initializedAt))
      ensures options == Options(newCallback.GetOr(old(options.onDeadlineReached)),
                                 newInterval.GetOr(old(options.updateIntervalMs)),
                                 newFade.GetOr(old(options.fadeDurationMs)))
      ensures lastOpacity == old(lastOpacity) && lastUpdateTime == old(lastUpdateTime) && notices == old(notices)
      ensures host.setIntervalCalls == old(host.setIntervalCalls) + (if newInterval.Some? then 1 else 0)
      ensures host.frameRequests == old(host.frameRequests)
      ensures newInterval.Some? ==>
        updaterId.Some? && host.intervals == map[updaterId.value := newInterval.value] &&
        host.clearIntervalCalls == old(host.clearIntervalCalls) + |HandleSet(old(updaterId))| &&
        rafId.None? && host.frames == map[]
      ensures newInterval.None? ==>
        updaterId == old(updaterId) && host.intervals == old(host.intervals) &&
        host.clearIntervalCalls == old(host.clearIntervalCalls) &&
        rafId == old(rafId) && host.frames == old(host.frames)
      ensures target != null ==> var t := target;
        t.transition ==
          if newFade.Some? then Fade(newFade.value)
          else if (newDeadline.Some? || newTarget.Some?) && IsEmpty(old(t.transition)) then Fade(options.fadeDurationMs)
          else old(t.transition)
      ensures target != null ==> var t := target;
        t.opacity == old(t.opacity) && t.pointerEvents == old(t.pointerEvents) && t.userSelect == old(t.userSelect)
    {
      var needsReinitialization := Rebind(newDeadline, newTarget, newCallback, now);
      if newInterval.Some? {
        RestartAutoUpdater(newInterval.value);
      }
      if newFade.Some? {
        SetFadeDuration(newFade.value);
      }
      if needsReinitialization {
        SetupElementStyles();
      }
    }

    /**
     * The deadline, target and callback steps of `updateOptions`; a new deadline or a new
     * target asks for the transition set-up afterwards.
     */
    method Rebind(newDeadline: Option<int>, newTarget: Option<Element?>, newCallback: Option<CallbackId>, now: int)
      returns (needsReinitialization: bool)
      requires Valid()
      modifies this
      ensures Valid() && target == old(TargetAfter(newTarget))
      ensures needsReinitialization == (newDeadline.Some? || newTarget.Some?)
      ensures deadline == newDeadline.GetOr(old(deadline))
      ensures initializedAt == (if newDeadline.Some? then now else old(initializedAt))
      ensures options == old(options).(onDeadlineReached := newCallback.GetOr(old(options.onDeadlineReached)))
      ensures updaterId == old(updaterId) && rafId == old(rafId)
      ensures lastOpacity == old(lastOpacity) && lastUpdateTime == old(lastUpdateTime) && notices == old(notices)
    {
      needsReinitialization := false;
      if newDeadline.Some? {
        SetDeadline(newDeadline.value, now);
        needsReinitialization := true;
      }
      if newTarget.Some? {
        target := newTarget.value;
        needsReinitialization := true;
      }
      if newCallback.Some? {
        options := options.(onDeadlineReached := newCallback.value);
      }
    }

    /** The deadline step of `updateOptions`: a new ramp from `now` to the new deadline. */
    method SetDeadline(newDeadline: int, now: int)
      requires Valid()
      modifies this
      ensures Valid()
      ensures deadline == newDeadline && initializedAt == now && totalPeriod == TotalPeriod(newDeadline, now)
      ensures options == old(options) && target == old(target)
      ensures updaterId == old(updaterId) && rafId == old(rafId)
      ensures lastOpacity == old(lastOpacity) && lastUpdateTime == old(lastUpdateTime)
      ensures notices == old(notices)
    {
      deadline := newDeadline;
      initializedAt := now;
      totalPeriod := TotalPeriod(deadline, initializedAt);
    }

    /** The `updateIntervalMs` step of `updateOptions`: record the period, stop, start again. */
    method RestartAutoUpdater(period: int)
      requires Valid()
      modifies this, host
      ensures Valid()
      ensures options == old(options).(updateIntervalMs := period)
      ensures updaterId.Some? && host.intervals == map[updaterId.value := period]
      ensures rafId.None? && host.frames == map[]
      ensures host.setIntervalCalls == old(host.setIntervalCalls) + 1
      ensures host.clearIntervalCalls == old(host.clearIntervalCalls) + |HandleSet(old(updaterId))|
      ensures host.frameRequests == old(host.frameRequests)
      ensures target == old(target) && deadline == old(deadline)
      ensures initializedAt == old(initializedAt) && totalPeriod == old(totalPeriod)
      ensures lastOpacity == old(lastOpacity) && lastUpdateTime == old(lastUpdateTime)
      ensures notices == old(notices)
    {
      // Stopping reads no option, so recording the new period after it is the same as before it.
      StopAutoUpdater();
      options := options.(updateIntervalMs := period);
      StartAutoUpdater();
    }

    /** The `fadeDurationMs` step of `updateOptions`: record it and rewrite a bound target's transition. */
    method SetFadeDuration(ms: int)
      modifies this, target
      ensures options == old(options).(fadeDurationMs := ms)
      ensures target == old(target) && deadline == old(deadline)
      ensures initializedAt == old(initializedAt) && totalPeriod == old(totalPeriod)
      ensures updaterId == old(updaterId) && rafId == old(rafId)
      ensures lastOpacity == old(lastOpacity) && lastUpdateTime == old(lastUpdateTime)
      ensures notices == old(notices)
      ensures target != null ==> target.transition == Fade(ms)
      ensures target != null ==> target.opacity == old(target.opacity)
      ensures target != null ==> target.pointerEvents == old(target.pointerEvents)
      ensures target != null ==> target.userSelect == old(target.userSelect)
    {
      options := options.(fadeDurationMs := ms);
      if target != null {
        target.transition := Fade(options.fadeDurationMs);
      }
    }

    /**
     * `reset`: show the target fully and re-enable interaction, restart the ramp at `now`
     * against the same deadline, forget the throttle and the last opacity, and run one pass.
     * While the deadline is ahead the restarted ramp reads exactly 1, so the pass writes nothing.
     */
    method Reset(now: int)
      requires Valid()
      modifies this, host, target
      ensures Valid()
      ensures target == old(target) && deadline == old(deadline) && options == old(options)
      ensures initializedAt == now && totalPeriod == TotalPeriod(deadline, now)
      ensures deadline - now > 0 ==> Opacity(deadline, totalPeriod, now) == 1.0
      ensures target != null ==> target.opacity == Level(1.0) && target.transition == old(target.transition)
      ensures target != null ==> target.pointerEvents == Blank && target.userSelect == Blank
      ensures lastUpdateTime == if target != null && now >= THROTTLE_MS then now else 0
      ensures !(target != null && now >= THROTTLE_MS && deadline - now <= 0) ==>
        lastOpacity == 1.0 && updaterId == old(updaterId) && rafId == old(rafId) &&
        host.intervals == old(host.intervals) && host.frames == old(host.frames) && notices == old(notices)
      ensures target != null && now >= THROTTLE_MS && deadline - now <= 0 ==>
        lastOpacity == 0.0 && Stopped() && notices == old(notices) + [options.onDeadlineReached]
    {
      if target != null {
        target.opacity := Level(1.0);
        target.pointerEvents := Blank;
        target.userSelect := Blank;
      }
      initializedAt := now;
      totalPeriod := TotalPeriod(deadline, initializedAt);
      lastOpacity := 1.0;
      lastUpdateTime := 0;
      if deadline - now > 0 {
        OpacityAtStart(deadline, now);
      }
      ApplyOpacity(now);
    }

    /**
     * `destroy`: stop the timer and the pending frame, blank the four styles and unbind the
     * target. A second call, and any later pass, changes nothing.
     */
    method Destroy()
      requires Valid()
      modifies this, host, target
      ensures Valid() && Stopped() && target == null
      ensures old(target) != null ==>
        old(target).opacity == Blank && old(target).transition == Blank &&
        old(target).pointerEvents == Blank && old(target).userSelect == Blank
      ensures options == old(options) && deadline == old(deadline)
      ensures initializedAt == old(initializedAt) && totalPeriod == old(totalPeriod)
      ensures lastOpacity == old(lastOpacity) && lastUpdateTime == old(lastUpdateTime)
      ensures notices == old(notices)
      ensures host.clearIntervalCalls == old(host.clearIntervalCalls) + |HandleSet(old(updaterId))|
      ensures old(target) == null && old(updaterId).None? && old(rafId).None? ==> unchanged(this, host)
    {
      StopAutoUpdater();
      if target != null {
        target.opacity := Blank;
        target.transition := Blank;
        target.pointerEvents := Blank;
        target.userSelect := Blank;
      }
      target := null;
    }
  }
}
