/**
 * The value the editor, acting as input broker, reports for a consideration:
 * the first live control tagged with the consideration's axis decides it; an
 * enumeration axis yields a binary match score, any other axis the control's
 * raw value; with no such control the value is 0.0.
 */
module InputScoring {
  import opened Wrappers
  import opened Entities

  /** The exceptions the lookup can raise. */
  datatype Fault = NullReference | IndexOutOfRange | NotImplemented

  /** An evaluation scope (`Scenario.Context`); only its absence is supported. */
  datatype ScenarioContext = ScenarioContext(id: nat)

  /** The binary score of an enumeration consideration, given whether the
      configured key matched the control's text. */
  function CategoricalScore(scoreOnMatch: bool, matched: bool): (r: real)
    ensures r == 0.0 || r == 1.0
    ensures r == 1.0 <==> matched == scoreOnMatch
  {
    if scoreOnMatch then
      if matched then 1.0 else 0.0
    else
      if !matched then 1.0 else 0.0
  }

  /**
   * The value read from `control`, the control tagged with `axis`, for a
   * consideration configured with `values`; `axis` is the consideration's own
   * axis, whose record and parameters are read as they are now. `sameText` is the culture-aware,
   * case-insensitive string comparison (true when it returns 0).
   */
  function ReadControl(axis: InputAxis, values: seq<ParameterValue>, control: InputControl,
                       sameText: (string, string) -> bool): (r: Result<real, Fault>)
    ensures axis.kbRec.None? ==> r == Failure(NullReference)
    ensures axis.kbRec.Some? && axis.kbRec.value.params != Enumeration ==> r == Success(control.reading.raw)
    ensures axis.kbRec.Some? && axis.kbRec.value.params == Enumeration && r.Success? ==>
              r.value == 0.0 || r.value == 1.0
  {
    match axis.kbRec
    case None => Failure(NullReference)
    case Some(rec) =>
      if rec.params == Enumeration then
        if |axis.parameters| == 0 || |values| == 0 then Failure(IndexOutOfRange)
        else if !values[0].EnumerationValue? || !axis.parameters[0].EnumerationParameter? then
          Failure(NullReference)
        else
          Success(CategoricalScore(axis.parameters[0].scoreOnMatch,
                                   sameText(values[0].key, control.reading.text)))
      else
        Success(control.reading.raw)
  }

  /** `control` is tagged with the axis `input` refers to: the same axis object,
      told apart from the others by its identity. */
  predicate TaggedWith(control: InputControl, input: Option<InputAxis>)
  {
    input.Some? && control.tag.id == input.value.id
  }

  /** The index of the first control tagged with `input`, or `|controls|` if there is none. */
  function FirstControlOn(controls: seq<InputControl>, input: Option<InputAxis>): (k: nat)
    ensures k <= |controls|
    ensures k < |controls| ==> TaggedWith(controls[k], input)
    ensures forall j :: 0 <= j < k ==> !TaggedWith(controls[j], input)
    decreases |controls|
  {
    if controls == [] then 0
    else if TaggedWith(controls[0], input) then 0
    else 1 + FirstControlOn(controls[1..], input)
  }

  /** The value the broker reports for `c` while the input panel shows `controls`. */
  function InputValue(controls: seq<InputControl>, c: Consideration,
                      sameText: (string, string) -> bool): Result<real, Fault>
  {
    var k := FirstControlOn(controls, c.input);
    if k == |controls| then Success(0.0)
    else ReadControl(c.input.value, c.parameterValues, controls[k], sameText)
  }

  /** Without a control tagged with the consideration's axis the value is 0.0. */
  lemma NoControlScoresZero(controls: seq<InputControl>, c: Consideration, sameText: (string, string) -> bool)
    requires forall j :: 0 <= j < |controls| ==> !TaggedWith(controls[j], c.input)
    ensures InputValue(controls, c, sameText) == Success(0.0)
  {
  }

  /** The first control tagged with the consideration's axis, and no later one, decides the value. */
  lemma FirstTaggedControlDecides(controls: seq<InputControl>, c: Consideration, k: nat,
                                  sameText: (string, string) -> bool)
    requires k < |controls| && TaggedWith(controls[k], c.input)
    requires forall j :: 0 <= j < k ==> !TaggedWith(controls[j], c.input)
    ensures InputValue(controls, c, sameText) == ReadControl(c.input.value, c.parameterValues, controls[k], sameText)
  {
  }

  /** A well-formed enumeration consideration on an axis in match mode scores 1.0
      exactly when its key matches the control's text, and 0.0 otherwise. */
  lemma ScoreOnMatch(axis: InputAxis, key: string, values: seq<ParameterValue>, control: InputControl,
                     sameText: (string, string) -> bool)
    requires axis.kbRec == Some(KnowledgeRecord(Enumeration))
    requires |axis.parameters| > 0 && axis.parameters[0] == EnumerationParameter(true)
    requires |values| > 0 && values[0] == EnumerationValue(key)
    ensures ReadControl(axis, values, control, sameText)
            == Success(if sameText(key, control.reading.text) then 1.0 else 0.0)
  {
  }

  /** The axis with its first parameter's mode set to `scoreOnMatch`. */
  function WithMode(axis: InputAxis, scoreOnMatch: bool): (r: InputAxis)
    requires |axis.parameters| > 0
    ensures r.id == axis.id && r.kbRec == axis.kbRec && |r.parameters| == |axis.parameters|
    ensures r.parameters[0] == EnumerationParameter(scoreOnMatch)
    ensures r.parameters[1..] == axis.parameters[1..]
  {
    axis.(parameters := [EnumerationParameter(scoreOnMatch)] + axis.parameters[1..])
  }

  /** Mismatch mode scores the complement of match mode: for the same key and
      the same control, both scores are 0.0 or 1.0 and they add up to 1.0. */
  lemma MismatchIsComplement(axis: InputAxis, values: seq<ParameterValue>, control: InputControl,
                             sameText: (string, string) -> bool)
    requires axis.kbRec == Some(KnowledgeRecord(Enumeration))
    requires |axis.parameters| > 0 && axis.parameters[0].EnumerationParameter?
    requires |values| > 0 && values[0].EnumerationValue?
    ensures var onMatch := ReadControl(WithMode(axis, true), values, control, sameText);
            var onMismatch := ReadControl(WithMode(axis, false), values, control, sameText);
            && onMatch.Success? && onMismatch.Success?
            && (onMatch.value == 0.0 || onMatch.value == 1.0)
            && onMatch.value + onMismatch.value == 1.0
            && (onMismatch.value == 1.0 <==> !sameText(values[0].key, control.reading.text))
  {
  }
}
