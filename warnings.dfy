/**
 * The de-duplicated misuse warning of the current package: one registry of keys shared by
 * every warning function of the module, and a function that empties it.
 * Message text and the console are outside the model; what a call does is summarised by
 * an Emission.
 */
module Warnings {
  import opened Types

  datatype WarningConfig = WarningConfig(title: string, message: string, currentImport: string,
                                         recommendedImport: string, errorMessage: string)

  /**
   * What one call of a warning function does. `Silent`: nothing at all. `Emitted`: the
   * message is logged, an alert is raised when `alert` holds, and `thrown` carries the
   * message of the error thrown, if any.
   */
  datatype Emission = Silent | Emitted(alert: bool, thrown: Option<string>)

  const REACT_WARNING_CONFIG: WarningConfig := WarningConfig(
    "REACT COMPONENT USED IN NEXT.JS PROJECT!",
    "You're trying to use the React-specific component in a Next.js project.\nThis component is designed for regular React projects and may not work properly with Next.js.",
    "vanisher/react",
    "Use the Next.js component instead: import { VanisherWrapper } from 'vanisher/next'",
    "React component should not be used in Next.js projects. Use vanisher/next instead.")

  const NEXTJS_WARNING_CONFIG: WarningConfig := WarningConfig(
    "NEXT.JS COMPONENT USED IN REGULAR REACT PROJECT!",
    "You're trying to use the Next.js-specific component in a regular React project.\nThis component requires Next.js 13+ with App Router for proper functionality.",
    "vanisher/next",
    "Use the regular React component instead: import { VanisherWrapper } from 'vanisher/react'",
    "Next.js component cannot be used in regular React projects. Use vanisher/react instead.")

  /** The de-duplication key: the title, a dash, the current import. */
  function WarningKey(config: WarningConfig): (k: string)
    ensures |k| == |config.title| + 1 + |config.currentImport|
    ensures k[..|config.title|] == config.title && k[|config.title|] == '-'
    ensures k[|config.title| + 1..] == config.currentImport
  {
    config.title + "-" + config.currentImport
  }

  /**
   * The effect of a warning that does fire under `NODE_ENV` = `nodeEnv`: it always logs,
   * alerts in development and test, and throws the configured error in production.
   */
  function Emit(config: WarningConfig, nodeEnv: string): (e: Emission)
    ensures e.Emitted?
    ensures e.alert <==> nodeEnv == "development" || nodeEnv == "test"
    ensures e.thrown.Some? <==> nodeEnv == "production"
    ensures e.thrown.Some? ==> e.thrown.value == config.errorMessage
  {
    Emitted(nodeEnv == "development" || nodeEnv == "test",
            if nodeEnv == "production" then Some(config.errorMessage) else None)
  }

  /**
   * One call of the function built from `config`, against the registry contents `registry`:
   * a key already present silences it; otherwise the key is recorded before anything is emitted,
   * so even a call that throws leaves it recorded.
   */
  function CallStep(registry: set<string>, config: WarningConfig, nodeEnv: string): (out: (set<string>, Emission))
    ensures out.0 == registry + {WarningKey(config)}
    ensures out.1.Silent? <==> WarningKey(config) in registry
    ensures out.1.Emitted? ==> out.1 == Emit(config, nodeEnv)
  {
    var key := WarningKey(config);
    if key in registry then (registry, Silent)
    else (registry + {key}, Emit(config, nodeEnv))
  }

  /** What can happen to the registry: a call of some warning function, or `clearWarningRegistry`. */
  datatype Event = Invoke(config: WarningConfig) | ClearRegistry

  function Clears(events: seq<Event>): nat {
    if events == [] then 0
    else (if events[0].ClearRegistry? then 1 else 0) + Clears(events[1..])
  }

  /** How many calls with key `key` emit, over a run of events from registry contents `registry`. */
  function CountEmitted(registry: set<string>, events: seq<Event>, nodeEnv: string, key: string): nat
    decreases |events|
  {
    if events == [] then 0
    else match events[0]
      case ClearRegistry => CountEmitted({}, events[1..], nodeEnv, key)
      case Invoke(c) =>
        var out := CallStep(registry, c, nodeEnv);
        (if WarningKey(c) == key && out.1.Emitted? then 1 else 0) + CountEmitted(out.0, events[1..], nodeEnv, key)
  }

  /**
   * Each key warns at most once, and not at all if already registered, until the registry is
   * cleared; every clear allows one more warning. In production every warning that fires
   * throws, so this also bounds the errors thrown per key.
   */
  lemma {:induction false} AtMostOncePerClear(registry: set<string>, events: seq<Event>, nodeEnv: string, key: string)
    ensures CountEmitted(registry, events, nodeEnv, key) <= (if key in registry then 0 else 1) + Clears(events)
    decreases |events|
  {
    if events != [] {
      match events[0]
      case ClearRegistry =>
        AtMostOncePerClear({}, events[1..], nodeEnv, key);
      case Invoke(c) =>
        var out := CallStep(registry, c, nodeEnv);
        AtMostOncePerClear(out.0, events[1..], nodeEnv, key);
    }
  }

  /** Clearing the registry makes every key warn again on its next call. */
  lemma WarnsAgainAfterClear(config: WarningConfig, nodeEnv: string)
    ensures CallStep({}, config, nodeEnv).1 == Emit(config, nodeEnv)
  {
  }

  /**
   * Warning functions built from configs with the same title and current import share one key,
   * so once either has fired the other is silent.
   */
  lemma SameKeyShared(registry: set<string>, first: WarningConfig, second: WarningConfig, nodeEnv: string)
    requires first.title == second.title && first.currentImport == second.currentImport
    ensures CallStep(CallStep(registry, first, nodeEnv).0, second, nodeEnv).1 == Silent
  {
  }

  /** The two shipped configurations have different keys, so neither silences the other. */
  lemma ShippedKeysDistinct(registry: set<string>, nodeEnv: string)
    requires WarningKey(NEXTJS_WARNING_CONFIG) !in registry
    ensures WarningKey(REACT_WARNING_CONFIG) != WarningKey(NEXTJS_WARNING_CONFIG)
    ensures CallStep(CallStep(registry, REACT_WARNING_CONFIG, nodeEnv).0, NEXTJS_WARNING_CONFIG, nodeEnv).1.Emitted?
  {
    assert |REACT_WARNING_CONFIG.title| + |REACT_WARNING_CONFIG.currentImport| == 54;
    assert |NEXTJS_WARNING_CONFIG.title| + |NEXTJS_WARNING_CONFIG.currentImport| == 61;
  }

  /** The module-wide `warningRegistry` set. */
  class Registry {
    var keys: set<string>

    constructor ()
      ensures keys == {}
    {
      keys := {};
    }

    /** `clearWarningRegistry`. */
    method Clear()
      modifies this
      ensures keys == {}
    {
      keys := {};
    }
  }

  /** The closure `createWarningFunction(config)` returns; it captures its key once. */
  class WarningFunction {
    const config: WarningConfig
    const key: string
    const registry: Registry

    /** `createWarningFunction`: compute the key; nothing is registered or emitted yet. */
    constructor (config: WarningConfig, registry: Registry)
      ensures this.config == config && this.registry == registry
      ensures key == WarningKey(config)
    {
      this.config := config;
      this.registry := registry;
      key := WarningKey(config);
    }

    /** A call of the returned function. */
    method Call(nodeEnv: string) returns (e: Emission)
      requires key == WarningKey(config)
      modifies registry
      ensures registry.keys == old(registry.keys) + {key}
      ensures e.Silent? <==> key in old(registry.keys)
      ensures (registry.keys, e) == CallStep(old(registry.keys), config, nodeEnv)
    {
      if key in registry.keys {
        return Silent;
      }
      registry.keys := registry.keys + {key};
      e := Emit(config, nodeEnv);
    }
  }
}
