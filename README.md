# vanisher — a Dafny model of the fading engine and its misuse warnings

vanisher fades a web page (or one element of it) towards a deadline. Its `Vanisher` object
works like this:

- It computes an opacity from the share of the ramp between its start and the deadline that is
  still left.
- It writes that opacity to the target element in an animation frame.
- It re-checks on an interval timer.
- When the deadline is reached it invokes `onDeadlineReached` and stops.

The repository ships two versions of the engine:

- **The current package** (`packages/src/index.ts`) throttles passes to one per 16 ms and caches
  the ramp length. Its frames touch the interaction styles only when crossing zero, and `destroy`
  unbinds the target.
- **The earlier one** (`src/index.ts`) has no throttle and recomputes the ramp length on each
  reading. Its frames write the interaction styles every time, and `destroy` keeps the target
  bound.

Each version also has a misuse warning, shown when a React wrapper is used in the wrong kind of
project:

- The current one de-duplicates through a module-wide registry of keys that can be cleared.
- The earlier one uses a flag private to each warning function.

The model has these modules:

| module | models |
|---|---|
| `Types` | `Option`, `Result` and `Outcome` values, the `InvalidDeadline` error, and callback identities. |
| `Dom` | An `Element` with the four style properties the engine writes. `Blank` stands for the empty string, `Level(x)` for an opacity, `Fade(ms)` for the transition the engine sets. |
| `Host` | The browser's interval timers and animation-frame queue, seen from one engine instance. Handles are positive. A pending frame carries the opacity its callback will write. Ghost counters count each kind of host call. |
| `FadeMath` | The pure arithmetic of the engine: ramp length, clamp, opacity, time remaining with JavaScript's truncating `%`, status, and days remaining. |
| `EngineCommon` | The resolved options and deadline validation. |
| `Vanisher` | The current engine, as a class whose methods update its fields, the host and the target element in place. |
| `LegacyVanisher` | The earlier engine, in the same form. |
| `Warnings` | The registry-based warning function and `clearWarningRegistry`. |
| `LegacyWarnings` | The flag-based warning function. |

Time is a parameter: every operation takes `now`, the millisecond clock reading of that call.
A timer tick is a call of `ApplyOpacity`. An animation frame is a call of `RunFrame` for a
pending handle. `notices` records which callback each `onDeadlineReached` invocation called.

## Model

| member | source | states |
|---|---|---|
| EngineCommon.ValidateDeadlineDate | packages/src/index.ts:46-52 | A deadline is accepted exactly when its time value is a number, and then unchanged; otherwise the error is InvalidDeadline. |
| FadeMath.TruncDiv | packages/src/index.ts:95 | Truncating division brackets the dividend between consecutive multiples, from below for non-negative dividends and from above for negative ones. |
| FadeMath.JsRem | packages/src/index.ts:95 | JavaScript `%` by a positive divisor: the remainder has the dividend's sign and magnitude below the divisor, and differs from the dividend by a multiple of it. |
| FadeMath.TotalPeriod | packages/src/index.ts:104-107 | The ramp length is at least 1 and at least the span from start to deadline; it equals that span, or 1 when the span is below 1. |
| FadeMath.Clamp | packages/src/index.ts:109-111 | The result is at least `lo`, at most `hi` when `lo <= hi`, the value itself inside the bounds, and the crossed bound outside them. |
| FadeMath.Opacity | packages/src/index.ts:113-120 | Opacity lies in [0, 1] and is 0 exactly when the deadline has been reached. |
| FadeMath.CalculateTimeRemaining | packages/src/index.ts:88-102 | `totalMs` is the time left; `days` is its floor in days; `hours` is the floor in hours of JavaScript's remainder of `totalMs` by a day, so it lies in [0, 24) when time is left and in [-24, 0] after the deadline. |
| FadeMath.StatusAt | packages/src/index.ts:194-206 | The reported opacity is the ramp's opacity at `now`. Days and hours are reported as non-negative with hours below 24. `isActive` holds exactly while at least an hour remains, and an active instance is never fully faded. A reached deadline reports opacity 0, no days, no hours, inactive. |
| FadeMath.DaysRemaining | packages/src/index.ts:212-214 | Whole days left, never negative, the floor of the time left in days, and 0 with under a day left. |
| FadeMath.OpacityNonIncreasing | packages/src/index.ts:113-120 | For a fixed deadline and ramp length, opacity never rises as time advances. |
| FadeMath.OpacityOnRamp | packages/src/index.ts:104-120 | Between the start and the deadline, opacity is exactly the remaining share of the ramp. |
| FadeMath.OpacityAtStart | packages/src/index.ts:41-42 | A ramp started at `now` reads exactly 1 while the deadline is still ahead. |
| FadeMath.StatusSplitsRemaining | packages/src/index.ts:93-95 | The reported days and hours account for all the time left except for less than one hour. |
| Vanisher.Create | packages/src/index.ts:25-31 | Construction fails with InvalidDeadline exactly when the deadline's time is NaN, leaving the element untouched. Otherwise it yields a valid instance bound to the given element, with the given deadline and its start at `now`. |
| Vanisher.Vanisher.constructor | packages/src/index.ts:33-64 | Options take their defaults when absent. Without an element nothing is started. With one: the transition is set only if blank and one timer runs at the configured period. When `now` is at least 16 ms, the first pass is stamped, and a future deadline writes nothing, leaves no frame pending and fires nothing. A past deadline fires the callback once and cancels the frame that pass scheduled. |
| Vanisher.Vanisher.SetupElementStyles | packages/src/index.ts:66-73 | The transition is set to the fade only when it is blank; the other styles are untouched. |
| Vanisher.Vanisher.Valid | packages/src/index.ts:104-107 | The object invariant every operation keeps. Among other things, the cached ramp length is always max(1, deadline − start): the constructor, a new deadline and `reset` recompute it (lines 42, 229, 270). |
| Vanisher.Vanisher.ApplyOpacity | packages/src/index.ts:122-172 | With no target, or within 16 ms of the last pass, nothing changes. Otherwise the pass is stamped. When the opacity moved by more than 0.01, exactly one frame carrying the new opacity is left pending, replacing any earlier one. A reached deadline fires the callback once and stops the timer and any frame. The invariant holds: one timer at the configured period, at most one pending frame. |
| Vanisher.Vanisher.RunFrame | packages/src/index.ts:146-165 | The frame is consumed and no other host state changes (no timer, no other frame, no host call). With no target nothing is written. Otherwise the captured opacity is written, pointer events are "none" exactly when it is 0, and the interaction styles change only when zero is crossed. |
| Vanisher.Vanisher.StartAutoUpdater | packages/src/index.ts:174-180 | A no-op while a timer runs; otherwise exactly one timer is started at the configured period. |
| Vanisher.Vanisher.StopAutoUpdater | packages/src/index.ts:182-192 | The timer and the pending frame are cleared, one host call per handle held, and both handles become null. |
| Vanisher.Vanisher.ClearUpdater | packages/src/index.ts:183-186 | A running timer is cleared with one host call and the handle becomes null; without one nothing changes. |
| Vanisher.Vanisher.CancelPendingFrame | packages/src/index.ts:188-191 | A pending frame is cancelled with one host call and the handle becomes null; without one nothing changes. |
| Vanisher.Vanisher.GetStatus | packages/src/index.ts:194-206 | The status for the cached ramp: the opacity is the cached ramp's opacity at `now`, a reached deadline reads opacity 0 and inactive, and `isActive` holds exactly while an hour or more remains. |
| Vanisher.Vanisher.GetDaysRemaining | packages/src/index.ts:212-214 | Non-negative, and equal to the days `getStatus` reports. |
| Vanisher.Vanisher.UpdateOptions | packages/src/index.ts:216-261 | A NaN deadline fails before anything changes. Otherwise: a new deadline restarts the ramp at `now`; a new period clears the old timer once and starts one new one; a new fade rewrites the transition; one pass then runs with the same gating as `applyOpacity`. When that pass does nothing (no target, within 16 ms, or an unchanged opacity before the deadline) the pending frame is the one before the call, or none after a new period. |
| Vanisher.Vanisher.ApplyOptionFields | packages/src/index.ts:219-258 | The option steps of `updateOptions` in order. A new deadline or target re-runs the transition setup. |
| Vanisher.Vanisher.Rebind | packages/src/index.ts:219-241 | Applies the deadline, target and callback steps, and reports that setup is needed exactly when the deadline or the target changed. |
| Vanisher.Vanisher.SetDeadline | packages/src/index.ts:226-229 | The new deadline, a ramp start at `now`, and the ramp length recomputed for them. |
| Vanisher.Vanisher.RestartAutoUpdater | packages/src/index.ts:243-247 | Records the period, then leaves exactly one timer at that period and no pending frame, after one clear per handle held. |
| Vanisher.Vanisher.SetFadeDuration | packages/src/index.ts:249-254 | Records the fade duration and rewrites a bound target's transition to it. |
| Vanisher.Vanisher.Reset | packages/src/index.ts:263-274 | The target is shown fully with interaction re-enabled, and the ramp restarts at `now` with the throttle and last opacity forgotten. While the deadline is ahead the restarted ramp reads exactly 1 and the pass writes nothing. After the deadline the pass fires the callback and stops everything. |
| Vanisher.Vanisher.Destroy | packages/src/index.ts:276-285 | Timer and frame are stopped, the old target's four styles are blanked, and the target is unbound. A second call changes nothing. |
| Vanisher.DanglingFrameIsSkipped | packages/src/index.ts:146-147 | A frame left pending after the target is unbound runs without writing anything, so the element that used to be the target keeps its styles. |
| LegacyVanisher.CalculateOpacity | src/index.ts:99-114 | Opacity recomputed from the deadline and the start lies in [0, 1] and is 0 exactly when the deadline is reached. |
| LegacyVanisher.Create | src/index.ts:25-31 | Construction fails with InvalidDeadline exactly when the deadline's time is NaN; otherwise it yields a valid instance bound to the element. |
| LegacyVanisher.Vanisher.constructor | src/index.ts:33-66 | As in the current engine, without a throttle: the transition is set only if blank, one timer runs, a future deadline writes nothing, and a past deadline fires once and cancels its frame. |
| LegacyVanisher.Vanisher.ApplyOpacity | src/index.ts:116-150 | With no target nothing changes. When the opacity moved by more than 0.01, exactly one frame with the new opacity is left pending. A reached deadline fires the callback and stops everything. |
| LegacyVanisher.Vanisher.RunFrame | src/index.ts:133-143 | The frame is consumed and no other host state changes. It throws exactly when no target is bound. Otherwise it writes the opacity, and both interaction styles become "none" exactly when the opacity is 0 and "" otherwise. |
| LegacyVanisher.Vanisher.StartAutoUpdater | src/index.ts:152-158 | A no-op while a timer runs; otherwise exactly one timer is started at the configured period. |
| LegacyVanisher.Vanisher.StopAutoUpdater | src/index.ts:160-170 | The timer and the pending frame are cleared and both handles become null. |
| LegacyVanisher.Vanisher.ClearUpdater | src/index.ts:161-164 | A running timer is cleared with one host call and the handle becomes null; without one nothing changes. |
| LegacyVanisher.Vanisher.CancelPendingFrame | src/index.ts:166-169 | A pending frame is cancelled with one host call and the handle becomes null; without one nothing changes. |
| LegacyVanisher.Vanisher.GetStatus | src/index.ts:172-184 | A reached deadline reads opacity 0, no days, no hours and inactive; `isActive` holds exactly while an hour or more remains. |
| LegacyVanisher.Vanisher.GetDaysRemaining | src/index.ts:190-192 | Non-negative, and equal to the days `getStatus` reports. |
| LegacyVanisher.Vanisher.UpdateOptions | src/index.ts:194-230 | A NaN deadline fails before anything changes. Otherwise a new deadline restarts the ramp at `now`, a new period replaces the timer once, a new fade rewrites the transition, and one pass runs. When that pass does nothing (no target, or an unchanged opacity before the deadline) the pending frame is the one before the call, or none after a new period. |
| LegacyVanisher.Vanisher.Rebind | src/index.ts:195-214 | Applies the deadline, target and callback steps. |
| LegacyVanisher.Vanisher.RestartAutoUpdater | src/index.ts:216-220 | Leaves exactly one timer at the new period and no pending frame. |
| LegacyVanisher.Vanisher.SetFadeDuration | src/index.ts:222-227 | Records the fade duration and rewrites a bound target's transition. |
| LegacyVanisher.Vanisher.Reset | src/index.ts:232-241 | The target is shown fully, and the ramp restarts at `now` with the last opacity forgotten. While the deadline is ahead nothing further is written. After it the callback fires and everything stops. |
| LegacyVanisher.Vanisher.Destroy | src/index.ts:243-251 | Timer and frame are stopped and the four styles blanked; the target stays bound, and a second call changes nothing. |
| LegacyVanisher.DanglingFrameThrows | src/index.ts:133-134 | A frame scheduled before the target is replaced by one that resolves to nothing is still pending afterwards, and throws when it runs. |
| Warnings.WarningKey | packages/src/utils/warnings.ts:7 | The key is the title, a dash, then the current import. |
| Warnings.Emit | packages/src/utils/warnings.ts:30-47 | A firing warning always logs. It alerts exactly in development and test, and throws the configured error exactly in production. |
| Warnings.CallStep | packages/src/utils/warnings.ts:9-15 | A call is silent exactly when its key is registered. After any call the key is registered, including a call that throws. |
| Warnings.AtMostOncePerClear | packages/src/utils/warnings.ts:11-15 | Over any run of calls and clears, a key fires at most once more than the number of clears, and one fewer if it starts registered. |
| Warnings.WarnsAgainAfterClear | packages/src/utils/warnings.ts:74-76 | After the registry is cleared, every key fires on its next call. |
| Warnings.SameKeyShared | packages/src/utils/warnings.ts:4-7 | Two warning functions whose configs share title and current import share de-duplication: after one call of the first, the second is silent. |
| Warnings.ShippedKeysDistinct | packages/src/utils/warnings.ts:51-71 | The React and Next.js configurations have different keys, so a call of one never silences the other. |
| Warnings.Registry.Clear | packages/src/utils/warnings.ts:74-76 | The registry is empty afterwards. |
| Warnings.WarningFunction.constructor | packages/src/utils/warnings.ts:6-7 | The function captures its key, computed once from the configuration. |
| Warnings.WarningFunction.Call | packages/src/utils/warnings.ts:9-48 | The call adds its key to the shared registry. It is silent exactly when the key was already there, and otherwise emits as `Emit` says. |
| LegacyWarnings.WarningFunction.constructor | src/utils/warnings.ts:3-4 | Each function starts with its own flag unset. |
| LegacyWarnings.WarningFunction.Call | src/utils/warnings.ts:6-35 | After a call the flag is set. The call is silent when the flag was already set, and otherwise emits. |
| LegacyWarnings.Calls | src/utils/warnings.ts:6-8 | `n` successive calls give `n` effects. |
| LegacyWarnings.CallsAppend | src/utils/warnings.ts:7-8 | One more call appends one effect: silent unless it is the first call of a function whose flag is unset. |
| LegacyWarnings.CallRepeatedly | src/utils/warnings.ts:6-8 | Calling one warning function `n` times through its `Call` method yields exactly `Calls` from its flag before the first call, and the flag ends set once any call was made. |
| LegacyWarnings.SilentOnceWarned | src/utils/warnings.ts:7 | A function whose flag is set is silent on every later call; nothing clears the flag. |
| LegacyWarnings.FiresOnlyFirst | src/utils/warnings.ts:7-8 | Over any number of calls only the first emits, so in production only the first throws. |

## Left out

- The React and Next.js wrapper components: hooks, effects and markup, with no state of the engine's own.
- Environment detection (`utils/env.ts`): it only queries host globals.
  `NODE_ENV` is a parameter of the warning calls.
- The script-tag auto-initialisation and the global export blocks: DOM events and `globalThis`.
- Parsing a deadline string with `new Date(...)`.
  The model takes the parsed time as an optional integer number of milliseconds, where `None` is NaN.
  In `updateOptions` an absent or empty deadline is `None`, and a NaN one is `Some(None)`.
- Element lookup (`getElement`: `"body"`, a selector, or an element).
  The element the host resolves, or null, is passed in.
  Lookup can also throw: `document.querySelector` raises a SyntaxError on an invalid selector
  such as `"div["`. The model has no such failure.
- Vanisher.Create: construction has two failures besides InvalidDeadline that the model leaves
  out. One is the SyntaxError of an invalid selector. The other is an `onDeadlineReached` that
  throws when the deadline is already past: the first pass (packages/src/index.ts:59) calls it, and
  its error leaves the constructor (see "Callback bodies" below). The contract's "fails exactly
  when the time is NaN" holds only for a selector that resolves and a callback that returns.
- LegacyVanisher.Create: the same two failures, an invalid selector and a throwing callback on a
  past deadline (src/index.ts:61), are not modelled.
- Vanisher.Vanisher.UpdateOptions: besides InvalidDeadline, two failures are left out. An invalid
  selector throws at packages/src/index.ts:235. That happens after a new deadline has already
  replaced the deadline, the start and the cached ramp length (lines 226-229), and no pass runs.
  A throwing `onDeadlineReached` leaves from the final pass (line 260), after every option has
  been applied, and the timer keeps running. The model's only failure is InvalidDeadline.
- LegacyVanisher.Vanisher.UpdateOptions: the same selector throw happens at src/index.ts:209, after
  a new deadline and start have been stored (lines 202-204). A throwing callback leaves from the
  final pass (line 229) in the same way.
- The deadline `Date` object is kept by reference, and `getDeadlineDate` returns it.
  The model holds the deadline as an integer, so a caller mutating that `Date` in place is not
  modelled. In the source such a mutation leaves the current engine's cached ramp length stale,
  while the earlier engine recomputes it, so the two versions then read different opacities.
- `getDeadlineDate`: a plain accessor of the `deadline` field.
- The clock: each public call reads the time once, as `now`.
  The source reads it twice in the constructor, `updateOptions` and `reset`: once for the ramp start
  (`new Date()`) and again in `applyOpacity`. The model assumes both reads return the same value.
  They can differ by a millisecond or more. With a deadline under 100 ms away, the first pass
  then reads below 0.99 and schedules a frame. The constructor and Reset contracts, which say no
  frame is scheduled while the deadline is ahead, rest on that assumption.
- Floating point.
  Opacity is an exact real, so results near the 0.01 threshold or at rounding boundaries may differ
  from IEEE doubles.
  Time values are unbounded integers, so values beyond 2^53 are not modelled.
- Style strings. `opacity.toString()` and the `opacity <ms>ms ease-in-out` transition are
  abstracted as `Level(x)` and `Fade(ms)`.
- Callback bodies. Only the identity of the callback invoked is recorded, so a callback that
  re-enters the engine is not modelled. Nor is a callback that throws. In both engines the callback
  runs before `stopAutoUpdater` (packages/src/index.ts:169-170, src/index.ts:147-148). If it
  throws, the model's promises for a reached deadline do not hold:
  - the stop is skipped, so the timer keeps running and every later tick invokes the callback and
    throws again;
  - the frame carrying opacity 0 that the pass just scheduled is not cancelled. When it runs, it is
    the only route by which either engine sets `pointerEvents` and `userSelect` to "none". In the
    model every reached-deadline pass cancels that frame, so the model never reaches that state
    through a pass;
  - the error propagates to the caller: `new Vanisher(...)`, `updateOptions` and `reset` throw it.
  The ApplyOpacity, constructor, UpdateOptions and Reset contracts of both engines that say a
  reached deadline "stops everything" hold only for a callback that returns normally.
- Real scheduling of timers and animation frames. A timer tick is modelled as an `ApplyOpacity`
  call and a frame as a `RunFrame` call. Interleaving is left to the caller.
- Console output, the alert and its 100 ms `setTimeout` delay, and the message text.
  An Emission records only whether the warning logged, alerted and threw.
- The tests that disagree with the code are not modelled:
  - a one-day default interval, where the code uses one hour;
  - a transition written in seconds, where the code writes milliseconds.

## Findings

| source | as written | input that shows it | evidently intended | confidence | as-written member | corrected member |
|---|---|---|---|---|---|---|
| src/index.ts:133-143 | The frame callback reaches the target through `this.targetElement!`. `updateOptions` can set the target to null (src/index.ts:207-209) while a frame is still pending, and its own pass is then inert, so nothing cancels that frame. | Deadline 100000, started at 1000. A pass at 50000 schedules a frame (opacity about 0.5). Then `updateOptions({ targetElement: "#missing" })` runs at 50001, and the host runs the frame. | The frame does nothing when no target is bound, as the current engine's guard does (packages/src/index.ts:147). | high (not executed) | LegacyVanisher.DanglingFrameThrows | Vanisher.DanglingFrameIsSkipped |
