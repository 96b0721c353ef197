/**
 * The entities the behaviour-set editor works on, as immutable values. The
 * object identity of an axis is its `id`: the broker matches controls to
 * considerations by it. Grouping by axis and enabled-set membership compare
 * whole values, which agrees with the editor's reference comparisons as long
 * as one identity denotes one value while the widget shows it.
 */
module Entities {
  import opened Wrappers

  /** How a knowledge-base record parameterises its input. Only `Enumeration`
      is distinguished by the editor; every other kind is `NonEnumeration`. */
  datatype Parameterization = Enumeration | NonEnumeration

  /** The knowledge-base record an input axis reads from (`KBRec`). */
  datatype KnowledgeRecord = KnowledgeRecord(params: Parameterization)

  /** An entry of an axis's `Parameters` list; an enumeration parameter carries
      the `ScoreOnMatch` mode. */
  datatype InputParameter = EnumerationParameter(scoreOnMatch: bool) | OtherParameter

  /** An entry of a consideration's `ParameterValues` list; an enumeration value
      carries the configured key. */
  datatype ParameterValue = EnumerationValue(key: string) | OtherValue(value: real)

  /** An input axis of the project catalogue; a clamped view and a union of views
      are input axes too. */
  datatype InputAxis = InputAxis(id: nat, kbRec: Option<KnowledgeRecord>, parameters: seq<InputParameter>)

  /** A consideration reads one axis (possibly unset) with configured values. */
  datatype Consideration = Consideration(input: Option<InputAxis>, parameterValues: seq<ParameterValue>)

  datatype Behavior = Behavior(id: nat, readableName: string, weight: real, considerations: seq<Consideration>)

  /** What an input control currently shows: `GetStringValue` and `GetRawValue`. */
  datatype Reading = Reading(text: string, raw: real)

  /** A live input control of the input panel: the axis it is tagged with, the
      unioned domain it was built for, and its current reading. */
  datatype InputControl = InputControl(tag: InputAxis, domain: InputAxis, reading: Reading)

  /**
   * Code the editor calls but whose bodies are not part of this model:
   * `clamp(axis, values)` is `axis.Clamp(values)`, `union(view, acc)` is
   * `view.Union(acc)`, `score(b, panel)` is `b.Score(broker, null).FinalScore`
   * with the broker showing `panel`, and `initialReading(domain)` is what a
   * freshly built input control shows.
   */
  datatype Collaborators = Collaborators(
    clamp: (InputAxis, seq<ParameterValue>) -> InputAxis,
    union: (InputAxis, Option<InputAxis>) -> Option<InputAxis>,
    score: (Behavior, seq<InputControl>) -> real,
    initialReading: InputAxis -> Reading)
}
