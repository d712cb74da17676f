/**
 * The misuse warning of the earlier package: every function `createWarningFunction` returns
 * has its own `hasWarned` flag and there is no way to reset it. The configurations and the
 * effect of a firing warning are those of the Warnings module (the earlier file defines the
 * same two configurations; it logs with `console.error` and alerts at once rather than after
 * a delay).
 */
module LegacyWarnings {
  import opened Warnings

  /** The closure `createWarningFunction(config)` returns, with its captured flag. */
  class WarningFunction {
    const config: WarningConfig
    var hasWarned: bool

    /** `createWarningFunction`: a fresh flag, not yet set. */
    constructor (config: WarningConfig)
      ensures this.config == config && !hasWarned
    {
      this.config := config;
      hasWarned := false;
    }

    /**
     * A call of the returned function: after the first call it does nothing; the first call
     * sets the flag before emitting, so it stays set even when the call throws.
     */
    method Call(nodeEnv: string) returns (e: Emission)
      modifies this
      ensures hasWarned
      ensures e == (if old(hasWarned) then Silent else Emit(config, nodeEnv))
    {
      if hasWarned {
        return Silent;
      }
      hasWarned := true;
      e := Emit(config, nodeEnv);
    }
  }

  /** The effects of `n` successive calls of one warning function whose flag starts at `hasWarned`. */
  function Calls(config: WarningConfig, hasWarned: bool, n: nat, nodeEnv: string): (outs: seq<Emission>)
    ensures |outs| == n
    decreases n
  {
    if n == 0 then []
    else [if hasWarned then Silent else Emit(config, nodeEnv)] + Calls(config, true, n - 1, nodeEnv)
  }

  /** One more call appends its effect: silent unless it is the very first call of a fresh function. */
  lemma {:induction false} CallsAppend(config: WarningConfig, hasWarned: bool, n: nat, nodeEnv: string)
    ensures Calls(config, hasWarned, n + 1, nodeEnv)
         == Calls(config, hasWarned, n, nodeEnv) + [if hasWarned || n > 0 then Silent else Emit(config, nodeEnv)]
    decreases n
  {
    if n > 0 {
      CallsAppend(config, true, n - 1, nodeEnv);
      var first := if hasWarned then Silent else Emit(config, nodeEnv);
      assert Calls(config, hasWarned, n + 1, nodeEnv) == [first] + Calls(config, true, n, nodeEnv);
      assert Calls(config, hasWarned, n, nodeEnv) == [first] + Calls(config, true, n - 1, nodeEnv);
    }
  }

  /**
   * Calling one warning function `n` times in a row: the effects are exactly `Calls` from the
   * function's flag before the first call, and the flag ends set once any call was made.
   */
  method CallRepeatedly(f: WarningFunction, n: nat, nodeEnv: string) returns (outs: seq<Emission>)
    modifies f
    ensures outs == Calls(f.config, old(f.hasWarned), n, nodeEnv)
    ensures f.hasWarned == (old(f.hasWarned) || n > 0)
  {
    ghost var before := f.hasWarned;
    outs := [];
    var i := 0;
    while i < n
      invariant 0 <= i <= n
      invariant outs == Calls(f.config, before, i, nodeEnv)
      invariant f.hasWarned == (before || i > 0)
    {
      var e := f.Call(nodeEnv);
      CallsAppend(f.config, before, i, nodeEnv);
      outs := outs + [e];
      i := i + 1;
    }
  }

  /** A function that has warned never warns again. */
  lemma {:induction false} SilentOnceWarned(config: WarningConfig, n: nat, nodeEnv: string)
    ensures forall i :: 0 <= i < n ==> Calls(config, true, n, nodeEnv)[i] == Silent
  {
    if n > 0 {
      SilentOnceWarned(config, n - 1, nodeEnv);
      assert Calls(config, true, n, nodeEnv) == [Silent] + Calls(config, true, n - 1, nodeEnv);
    }
  }

  /**
   * Over any number of calls, only the first emits; in production it is therefore the only
   * one that throws.
   */
  lemma FiresOnlyFirst(config: WarningConfig, n: nat, nodeEnv: string)
    requires n >= 1
    ensures Calls(config, false, n, nodeEnv)[0] == Emit(config, nodeEnv)
    ensures forall i :: 1 <= i < n ==> Calls(config, false, n, nodeEnv)[i] == Silent
  {
    SilentOnceWarned(config, n - 1, nodeEnv);
    assert Calls(config, false, n, nodeEnv) == [Emit(config, nodeEnv)] + Calls(config, true, n - 1, nodeEnv);
  }
}
