/** The validation orchestrator: look up the formula type's rule record,
    check the record's own pattern against the space-free formula, run the
    law's validator, and turn its outcome into a verdict and a message. */
module Validator {
  import opened Wrappers
  import opened Strings
  import opened Laws

  /** What the rule store holds for one formula type. `formulaPattern` is
      the text of a regular expression; how it matches is supplied to
      `ValidateFormula` as a predicate. */
  datatype RuleRecord = RuleRecord(
    formulaPattern: string,
    validationRules: seq<string>,
    unitConstraints: seq<string>,
    valueConstraints: seq<string>)

  /** The verdict and the message shown to the user. */
  datatype Outcome = Outcome(isValid: bool, message: string)

  const UNSUPPORTED_MESSAGE := "Unsupported formula type"
  const NO_STRATEGY_MESSAGE := "No validation strategy found"
  const PATTERN_MESSAGE := "Formula must match pattern: "
  const SUCCESS_MESSAGE := "Calculation Successful! Result = "

  /** The value constraints a law's validator reads from the store; a law
      with no record reads none. */
  function ValueConstraintsOf(rules: map<string, RuleRecord>, law: Law): seq<string> {
    if ValidatorName(law) in rules then rules[ValidatorName(law)].valueConstraints else []
  }

  /** `parse_and_validate_values`: strip spaces and hand the formula to the
      validator registered for its type; a rejection becomes its message. */
  function ParseAndValidateValues(rules: map<string, RuleRecord>, formulaType: string, formula: string)
    : (r: Result<Evaluation, string>)
    ensures LawOf(formulaType).None? ==> r == Failure(NO_STRATEGY_MESSAGE)
    ensures LawOf(formulaType).Some? ==>
      var law := LawOf(formulaType).value;
      var v := ValidateLaw(law, ValueConstraintsOf(rules, law), RemoveSpaces(formula));
      (r.Success? <==> v.Success?) &&
      (r.Success? ==> r.value == v.value) &&
      (r.Failure? ==> r.error == ErrorMessage(v.error))
  {
    var stripped := RemoveSpaces(formula);
    match LawOf(formulaType)
    case None => Failure(NO_STRATEGY_MESSAGE)
    case Some(law) =>
      match ValidateLaw(law, ValueConstraintsOf(rules, law), stripped)
      case Success(e) => Success(e)
      case Failure(err) => Failure(ErrorMessage(err))
  }

  /** The notes listed under a successful result, in the order the record
      gives them. */
  function Notes(rec: RuleRecord): seq<string> {
    rec.validationRules + rec.unitConstraints + rec.valueConstraints
  }

  /** `validate_formula`. `patternMatches(p, s)` stands for `re.match(p, s)`
      succeeding; `format(x)` for the text of x to two decimal places. */
  function ValidateFormula(
    rules: map<string, RuleRecord>,
    patternMatches: (string, string) -> bool,
    format: real -> string,
    formulaType: string,
    formula: string): (r: Outcome)
    ensures formulaType !in rules ==> r == Outcome(false, UNSUPPORTED_MESSAGE)
    ensures r.isValid <==>
      && formulaType in rules
      && patternMatches(rules[formulaType].formulaPattern, RemoveSpaces(formula))
      && ParseAndValidateValues(rules, formulaType, formula).Success?
    ensures formulaType in rules && !patternMatches(rules[formulaType].formulaPattern, RemoveSpaces(formula)) ==>
      r.message == PATTERN_MESSAGE + rules[formulaType].formulaPattern
    ensures formulaType in rules && patternMatches(rules[formulaType].formulaPattern, RemoveSpaces(formula)) ==>
      ParseAndValidateValues(rules, formulaType, formula).Failure? ==>
      r == Outcome(false, ParseAndValidateValues(rules, formulaType, formula).error)
    ensures r.isValid ==>
      r.message == SUCCESS_MESSAGE + format(ParseAndValidateValues(rules, formulaType, formula).value.result)
        + "\n" + Join(Notes(rules[formulaType]), '\n')
  {
    if formulaType !in rules then
      Outcome(false, UNSUPPORTED_MESSAGE)
    else
      var rec := rules[formulaType];
      if !patternMatches(rec.formulaPattern, RemoveSpaces(formula)) then
        Outcome(false, PATTERN_MESSAGE + rec.formulaPattern)
      else
        match ParseAndValidateValues(rules, formulaType, formula)
        case Failure(message) => Outcome(false, message)
        case Success(e) =>
          Outcome(true, SUCCESS_MESSAGE + format(e.result) + "\n" + Join(Notes(rec), '\n'))
  }

  /** A validator's rejection of a formula that passed the record's pattern
      reaches the user as an invalid verdict carrying the validator's message. */
  lemma RejectionReported(
    rules: map<string, RuleRecord>, patternMatches: (string, string) -> bool, format: real -> string,
    formulaType: string, formula: string, law: Law, e: LawError)
    requires formulaType in rules && patternMatches(rules[formulaType].formulaPattern, RemoveSpaces(formula))
    requires LawOf(formulaType) == Some(law)
    requires ValidateLaw(law, ValueConstraintsOf(rules, law), RemoveSpaces(formula)) == Failure(e)
    ensures ValidateFormula(rules, patternMatches, format, formulaType, formula) == Outcome(false, ErrorMessage(e))
  {
  }

  /** Inserting a space anywhere in a formula does not change the outcome. */
  lemma SpaceInsensitive(
    rules: map<string, RuleRecord>, patternMatches: (string, string) -> bool, format: real -> string,
    formulaType: string, front: string, back: string)
    ensures ValidateFormula(rules, patternMatches, format, formulaType, front + " " + back)
      == ValidateFormula(rules, patternMatches, format, formulaType, front + back)
  {
    RemoveSpacesInsert(front, back);
  }

  /** Formulas that agree once their spaces are removed have the same
      outcome; in particular a formula and its space-free form do. */
  lemma SameWithoutSpaces(
    rules: map<string, RuleRecord>, patternMatches: (string, string) -> bool, format: real -> string,
    formulaType: string, formula: string)
    ensures ValidateFormula(rules, patternMatches, format, formulaType, RemoveSpaces(formula))
      == ValidateFormula(rules, patternMatches, format, formulaType, formula)
  {
    RemoveSpacesIdempotent(formula);
  }

  /** A successful message is the result line followed by the record's
      notes, one per line and in order, when no note and no formatted value
      spans several lines. */
  lemma SuccessMessageLines(
    rules: map<string, RuleRecord>, patternMatches: (string, string) -> bool, format: real -> string,
    formulaType: string, formula: string)
    requires ValidateFormula(rules, patternMatches, format, formulaType, formula).isValid
    requires formulaType in rules && |Notes(rules[formulaType])| > 0
    requires forall i :: 0 <= i < |Notes(rules[formulaType])| ==> '\n' !in Notes(rules[formulaType])[i]
    requires '\n' !in format(ParseAndValidateValues(rules, formulaType, formula).value.result)
    ensures Split(ValidateFormula(rules, patternMatches, format, formulaType, formula).message, '\n')
      == [SUCCESS_MESSAGE + format(ParseAndValidateValues(rules, formulaType, formula).value.result)]
         + Notes(rules[formulaType])
  {
    SuccessMessageOneLine();
    var head := SUCCESS_MESSAGE + format(ParseAndValidateValues(rules, formulaType, formula).value.result);
    SplitLines(head, Notes(rules[formulaType]), '\n');
  }

  /** The fixed prefix of a success message holds no newline. Proved apart
      from `SuccessMessageLines`, where the unfolded outcome makes the same
      fact expensive. */
  lemma SuccessMessageOneLine()
    ensures '\n' !in SUCCESS_MESSAGE
  {
  }
}
