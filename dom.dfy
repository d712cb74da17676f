/** The part of an HTML element the engine reads and writes: four inline style properties. */
module Dom {

  /**
   * The value of one inline style property.
   *   Blank        the empty string ""
   *   Keyword(w)   any other literal string, never empty, e.g. "none" or a value the page set itself
   *   Level(x)     an opacity written as the decimal form of the number x
   *   Fade(ms)     the transition "opacity <ms>ms ease-in-out"
   */
  type Word = w: string | w != "" witness "none"

  datatype StyleValue = Blank | Keyword(word: Word) | Level(level: real) | Fade(ms: int)

  const NONE: StyleValue := Keyword("none")

  /** JavaScript falsiness of a style string: only the empty string is falsy. */
  predicate IsEmpty(v: StyleValue) {
    v.Blank?
  }

  /** `element.style`, restricted to the properties the engine touches. */
  class Element {
    var opacity: StyleValue
    var transition: StyleValue
    var pointerEvents: StyleValue
    var userSelect: StyleValue

    constructor (opacity: StyleValue, transition: StyleValue, pointerEvents: StyleValue, userSelect: StyleValue)
      ensures this.opacity == opacity && this.transition == transition
      ensures this.pointerEvents == pointerEvents && this.userSelect == userSelect
    {
      this.opacity := opacity;
      this.transition := transition;
      this.pointerEvents := pointerEvents;
      this.userSelect := userSelect;
    }
  }
}
