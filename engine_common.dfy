/** Definitions both versions of the engine share. */
module EngineCommon {
  import opened Types

  /** The resolved options other than the deadline and the target, which have fields of their own. */
  datatype Options = Options(onDeadlineReached: CallbackId, updateIntervalMs: int, fadeDurationMs: int)

  /** The handles a nullable handle field stands for. */
  function HandleSet(h: Option<nat>): set<nat> {
    if h.Some? then {h.value} else {}
  }

  /** A map with no keys is the empty map. */
  lemma NoKeysEmpty<V>(m: map<nat, V>)
    requires m.Keys == {}
    ensures m == map[]
  {
  }

  /**
   * `validateDeadlineDate`: a parsed deadline is accepted exactly when its time value is a
   * number (`None` stands for NaN); otherwise the error is InvalidDeadline.
   */
  function ValidateDeadlineDate(time: Option<int>): (r: Result<int, VanisherError>)
    ensures r.Success? <==> time.Some?
    ensures r.Success? ==> r.value == time.value
    ensures r.Failure? ==> r.error == InvalidDeadline
  {
    if time.None? then Failure(InvalidDeadline) else Success(time.value)
  }
}
