/** Concrete formulas and the outcomes the model is proved to give them:
    the worked results, a malformed shape, the constraint gating and the
    order of the checks. Each formula enters as a parameter fixed by a
    `requires` rather than as a literal in the `ensures`, which keeps the
    literal's unfolding out of every caller's proof and the solver cost low. */
module Scenarios {
  import opened Wrappers
  import opened Decimals
  import opened Shapes
  import opened Laws
  import opened Strings
  import opened Validator

  /** A numeral without a fractional part. */
  function Whole(digits: string): (d: Decimal)
    ensures Render(d) == digits
  {
    Decimal(digits, [])
  }

  /** The value of a one-digit numeral. */
  lemma SingleDigit(c: char)
    requires IsDigit(c)
    ensures ValidDecimal(Whole([c])) && Value(Whole([c])) == (c as int - '0' as int) as real
  {
    assert [c][..0] == [];
  }

  /** `F=2*3` gives a force of 6, whatever value constraints are active. */
  lemma NewtonSecondLawExample(valueConstraints: seq<string>, formula: string)
    requires formula == "F=2*3"
    ensures ValidateLaw(NewtonSecondLaw, valueConstraints, formula)
      == Success(Evaluation(6.0, map["mass" := 2.0, "acceleration" := 3.0]))
  {
    assert "F=" + "2" + "*" + "3" + "" == formula;
    SingleDigit('2');
    SingleDigit('3');
    NewtonSecondLawShape(valueConstraints, Whole("2"), Whole("3"), "");
    assert NewtonSecondLawBranches(valueConstraints, 2.0, 3.0) == Success(Evaluation(6.0, map["mass" := 2.0, "acceleration" := 3.0]));
  }

  /** `KE=0.5*2*3^2` gives a kinetic energy of 9. */
  lemma KineticEnergyExample(valueConstraints: seq<string>, formula: string)
    requires formula == "KE=0.5*2*3^2"
    ensures ValidateLaw(KineticEnergy, valueConstraints, formula)
      == Success(Evaluation(9.0, map["mass" := 2.0, "velocity" := 3.0]))
  {
    assert "KE=0" + ['.'] + "5*" + "2" + "*" + "3" + "^2" + "" == formula;
    SingleDigit('2');
    SingleDigit('3');
    KineticEnergyShape(valueConstraints, '.', Whole("2"), Whole("3"), "");
    assert KineticEnergyBranches(valueConstraints, 2.0, 3.0) == Success(Evaluation(9.0, map["mass" := 2.0, "velocity" := 3.0]));
  }

  /** The unescaped `.` of the kinetic-energy shape accepts any character
      but a newline in its place, and whatever follows `^2` is ignored:
      `KE=0x5*2*3^2 J` gives the same 9. */
  lemma KineticEnergyAnyCharacter(valueConstraints: seq<string>, c: char, rest: string, formula: string)
    requires c != '\n' && formula == "KE=0" + [c] + "5*2*3^2" + rest
    ensures ValidateLaw(KineticEnergy, valueConstraints, formula)
      == Success(Evaluation(9.0, map["mass" := 2.0, "velocity" := 3.0]))
  {
    assert "KE=0" + [c] + "5*" + "2" + "*" + "3" + "^2" + rest == formula;
    SingleDigit('2');
    SingleDigit('3');
    KineticEnergyShape(valueConstraints, c, Whole("2"), Whole("3"), rest);
    assert KineticEnergyBranches(valueConstraints, 2.0, 3.0) == Success(Evaluation(9.0, map["mass" := 2.0, "velocity" := 3.0]));
  }

  /** `V=2*3` gives a voltage of 6. */
  lemma OhmsLawExample(valueConstraints: seq<string>, formula: string)
    requires formula == "V=2*3"
    ensures ValidateLaw(OhmsLaw, valueConstraints, formula)
      == Success(Evaluation(6.0, map["current" := 2.0, "resistance" := 3.0]))
  {
    assert "V=" + "2" + "*" + "3" + "" == formula;
    SingleDigit('2');
    SingleDigit('3');
    OhmsLawShape(valueConstraints, Whole("2"), Whole("3"), "");
    assert OhmsLawBranches(valueConstraints, 2.0, 3.0) == Success(Evaluation(6.0, map["current" := 2.0, "resistance" := 3.0]));
  }

  /** `PV=1*8.314*300` gives n·R·T = 2494.2. */
  lemma IdealGasLawExample(valueConstraints: seq<string>, formula: string)
    requires formula == "PV=1*8.314*300"
    ensures ValidateLaw(IdealGasLaw, valueConstraints, formula)
      == Success(Evaluation(2494.2, map["n" := 1.0, "R" := 8.314, "T" := 300.0]))
  {
    var r := Decimal("8", "314");
    GasConstantNumeral();
    ThreeHundredNumeral();
    SingleDigit('1');
    assert "PV=" + "1" + "*" + "8.314" + "*" + "300" + "" == formula;
    IdealGasLawShape(valueConstraints, Whole("1"), r, Whole("300"), "");
    assert IdealGasLawBranches(valueConstraints, 1.0, 8.314, 300.0)
      == Success(Evaluation(2494.2, map["n" := 1.0, "R" := 8.314, "T" := 300.0]));
  }

  /** The numeral `8.314` and its value. */
  lemma GasConstantNumeral()
    ensures ValidDecimal(Decimal("8", "314")) && Render(Decimal("8", "314")) == "8.314"
    ensures Value(Decimal("8", "314")) == 8.314
  {
    assert "314"[..2] == "31" && "31"[..1] == "3" && "3"[..0] == "";
    assert DigitsValue("314") == 314;
    assert Pow10(3) == 1000;
    assert "8"[..0] == "" && DigitsValue("8") == 8;
  }

  /** The numeral `300` and its value. */
  lemma ThreeHundredNumeral()
    ensures ValidDecimal(Whole("300")) && Value(Whole("300")) == 300.0
  {
    assert "300"[..2] == "30" && "30"[..1] == "3" && "3"[..0] == "";
    assert DigitsValue("300") == 300;
  }

  /** Trailing text that cannot extend the last operand is ignored:
      `F=2*3kg`, `F=2*3.x` and `F=2*3` all give a force of 6. */
  lemma TrailingTextIgnored(valueConstraints: seq<string>, rest: string, formula: string)
    requires Maximal(Whole("3"), rest) && formula == "F=2*3" + rest
    ensures ValidateLaw(NewtonSecondLaw, valueConstraints, formula)
      == Success(Evaluation(6.0, map["mass" := 2.0, "acceleration" := 3.0]))
  {
    assert "F=" + "2" + "*" + "3" + rest == formula;
    SingleDigit('2');
    SingleDigit('3');
    NewtonSecondLawShape(valueConstraints, Whole("2"), Whole("3"), rest);
    assert NewtonSecondLawBranches(valueConstraints, 2.0, 3.0) == Success(Evaluation(6.0, map["mass" := 2.0, "acceleration" := 3.0]));
  }

  /** A wrong operator is reported as a malformed formula, never computed. */
  lemma WrongOperatorRejected(valueConstraints: seq<string>, formula: string)
    requires formula == "F=2+3"
    ensures ValidateLaw(NewtonSecondLaw, valueConstraints, formula) == Failure(InvalidShape(NewtonSecondLaw))
  {
    var s := formula;
    assert s[2..] == Render(Whole("2")) + "+3";
    ScanRender(Whole("2"), "+3");
    var p := Pattern(NewtonSecondLaw);
    assert p[1..] == [Num, Lit("*"), Num] && p[1..][1..] == [Lit("*"), Num];
    assert !("*" <= "+3");
    assert MatchShape(p[1..], s[2..]).None?;
  }

  /** With the mass constraint absent a zero mass passes: `F=0*5` gives 0. */
  lemma ZeroMassWithoutConstraint(valueConstraints: seq<string>, formula: string)
    requires formula == "F=0*5"
    requires Trigger(PositiveMass) !in valueConstraints
    ensures ValidateLaw(NewtonSecondLaw, valueConstraints, formula)
      == Success(Evaluation(0.0, map["mass" := 0.0, "acceleration" := 5.0]))
  {
    assert "F=" + "0" + "*" + "5" + "" == formula;
    SingleDigit('0');
    SingleDigit('5');
    NewtonSecondLawShape(valueConstraints, Whole("0"), Whole("5"), "");
    assert NewtonSecondLawBranches(valueConstraints, 0.0, 5.0) == Success(Evaluation(0.0, map["mass" := 0.0, "acceleration" := 5.0]));
  }

  /** With the mass constraint present the same formula is rejected. */
  lemma ZeroMassWithConstraint(valueConstraints: seq<string>, formula: string)
    requires formula == "F=0*5"
    requires Trigger(PositiveMass) in valueConstraints
    ensures ValidateLaw(NewtonSecondLaw, valueConstraints, formula) == Failure(Violation(PositiveMass))
  {
    assert "F=" + "0" + "*" + "5" + "" == formula;
    SingleDigit('0');
    SingleDigit('5');
    NewtonSecondLawShape(valueConstraints, Whole("0"), Whole("5"), "");
    assert NewtonSecondLawBranches(valueConstraints, 0.0, 5.0) == Failure(Violation(PositiveMass));
  }

  /** With every ideal-gas check active, `PV=0*0*5` breaks two of them and
      the moles check, which runs first, is the one reported. */
  lemma FirstViolationReported(valueConstraints: seq<string>, formula: string)
    requires formula == "PV=0*0*5"
    requires Trigger(PositiveMoles) in valueConstraints && Trigger(PositiveGasConstant) in valueConstraints
    ensures ValidateLaw(IdealGasLaw, valueConstraints, formula) == Failure(Violation(PositiveMoles))
  {
    assert "PV=" + "0" + "*" + "0" + "*" + "5" + "" == formula;
    SingleDigit('0');
    SingleDigit('5');
    IdealGasLawShape(valueConstraints, Whole("0"), Whole("0"), Whole("5"), "");
    assert IdealGasLawBranches(valueConstraints, 0.0, 0.0, 5.0) == Failure(Violation(PositiveMoles));
  }

  /** End to end: `F=2*3` submitted as Newton's second law, when the
      record's pattern accepts it, is valid with a force of 6 and the record's
      notes after the result line. */
  lemma NewtonSecondLawEndToEnd(
    rules: map<string, RuleRecord>, patternMatches: (string, string) -> bool, format: real -> string,
    formulaType: string, formula: string)
    requires formulaType == ValidatorName(NewtonSecondLaw) && formula == "F=2*3"
    requires formulaType in rules
    requires patternMatches(rules[formulaType].formulaPattern, formula)
    ensures ValidateFormula(rules, patternMatches, format, formulaType, formula)
      == Outcome(true, SUCCESS_MESSAGE + format(6.0) + "\n" + Join(Notes(rules[formulaType]), '\n'))
  {
    assert LawOf(formulaType) == Some(NewtonSecondLaw);
    assert forall i :: 0 <= i < |formula| ==> formula[i] != ' ';
    RemoveSpacesNoSpace(formula);
    NewtonSecondLawExample(ValueConstraintsOf(rules, NewtonSecondLaw), formula);
    assert ParseAndValidateValues(rules, formulaType, formula).value.result == 6.0;
  }

  /** The same submission with a space inserted anywhere has the same outcome. */
  lemma SpacedFormulaEndToEnd(
    rules: map<string, RuleRecord>, patternMatches: (string, string) -> bool, format: real -> string,
    formulaType: string, front: string, back: string)
    requires formulaType == ValidatorName(NewtonSecondLaw) && front + back == "F=2*3"
    requires formulaType in rules
    requires patternMatches(rules[formulaType].formulaPattern, front + back)
    ensures ValidateFormula(rules, patternMatches, format, formulaType, front + " " + back)
      == Outcome(true, SUCCESS_MESSAGE + format(6.0) + "\n" + Join(Notes(rules[formulaType]), '\n'))
  {
    SpaceInsensitive(rules, patternMatches, format, formulaType, front, back);
    NewtonSecondLawEndToEnd(rules, patternMatches, format, formulaType, front + back);
  }

  /** A violation reaches the user: with the mass sentence in the record,
      `F=0*5` is reported invalid with the mass message. */
  lemma ZeroMassEndToEnd(
    rules: map<string, RuleRecord>, patternMatches: (string, string) -> bool, format: real -> string,
    formulaType: string, formula: string)
    requires formulaType == ValidatorName(NewtonSecondLaw) && formula == "F=0*5"
    requires formulaType in rules && Trigger(PositiveMass) in rules[formulaType].valueConstraints
    requires patternMatches(rules[formulaType].formulaPattern, formula)
    ensures ValidateFormula(rules, patternMatches, format, formulaType, formula)
      == Outcome(false, ViolationMessage(PositiveMass))
  {
    ZeroMassParsed(rules, formulaType, formula);
    RejectionReported(rules, patternMatches, format, formulaType, formula, NewtonSecondLaw, Violation(PositiveMass));
  }

  /** `F=0*5` has no spaces, and the Newton validator rejects it on the
      record's value constraints. */
  lemma ZeroMassParsed(rules: map<string, RuleRecord>, formulaType: string, formula: string)
    requires formulaType == ValidatorName(NewtonSecondLaw) && formula == "F=0*5"
    requires formulaType in rules && Trigger(PositiveMass) in rules[formulaType].valueConstraints
    ensures LawOf(formulaType) == Some(NewtonSecondLaw) && RemoveSpaces(formula) == formula
    ensures ValidateLaw(NewtonSecondLaw, ValueConstraintsOf(rules, NewtonSecondLaw), formula) == Failure(Violation(PositiveMass))
  {
    assert LawOf(formulaType) == Some(NewtonSecondLaw);
    assert forall i :: 0 <= i < |formula| ==> formula[i] != ' ';
    RemoveSpacesNoSpace(formula);
    var constraints := ValueConstraintsOf(rules, NewtonSecondLaw);
    assert constraints == rules[formulaType].valueConstraints;
    ZeroMassWithConstraint(constraints, formula);
  }
}
