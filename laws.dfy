/** The four per-formula validators: match the formula's fixed shape at the
    start of the (space-free) text, read its operands, run the value checks
    whose trigger text is among the rule record's value constraints (first
    violation wins), and compute the formula's result. */
module Laws {
  import opened Wrappers
  import opened Decimals
  import opened Shapes

  datatype Law = NewtonSecondLaw | KineticEnergy | OhmsLaw | IdealGasLaw

  /** The formula-type identifier under which each law's rules are stored. */
  function ValidatorName(law: Law): string {
    match law
    case NewtonSecondLaw => "NewtonSecondLawValidator"
    case KineticEnergy => "KineticEnergyValidator"
    case OhmsLaw => "OhmsLawValidator"
    case IdealGasLaw => "IdealGasLawValidator"
  }

  /** The strategy table: which validator handles a formula type. */
  function LawOf(formulaType: string): (r: Option<Law>)
    ensures r.Some? ==> ValidatorName(r.value) == formulaType
    ensures r.None? ==> forall law: Law :: ValidatorName(law) != formulaType
  {
    if formulaType == "NewtonSecondLawValidator" then Some(NewtonSecondLaw)
    else if formulaType == "KineticEnergyValidator" then Some(KineticEnergy)
    else if formulaType == "OhmsLawValidator" then Some(OhmsLaw)
    else if formulaType == "IdealGasLawValidator" then Some(IdealGasLaw)
    else None
  }

  /** The regular expression each validator matches:
      `F=(num)\*(num)`, `KE=0.5\*(num)\*(num)\^2` (its `.` unescaped),
      `V=(num)\*(num)` and `PV=(num)\*(num)\*(num)`. */
  function Pattern(law: Law): seq<Token> {
    match law
    case NewtonSecondLaw => [Lit("F="), Num, Lit("*"), Num]
    case KineticEnergy => [Lit("KE=0"), AnyChar, Lit("5*"), Num, Lit("*"), Num, Lit("^2")]
    case OhmsLaw => [Lit("V="), Num, Lit("*"), Num]
    case IdealGasLaw => [Lit("PV="), Num, Lit("*"), Num, Lit("*"), Num]
  }

  function Arity(law: Law): nat {
    if law == IdealGasLaw then 3 else 2
  }

  function InvalidMessage(law: Law): string {
    match law
    case NewtonSecondLaw => "Invalid Newton's Second Law formula"
    case KineticEnergy => "Invalid Kinetic Energy formula"
    case OhmsLaw => "Invalid Ohm's Law formula"
    case IdealGasLaw => "Invalid Ideal Gas Law formula"
  }

  /** The value constraints a validator knows how to check. */
  datatype Constraint =
    | PositiveMass | NonNegativeVelocity | NonNegativeCurrent | PositiveResistance
    | PositiveMoles | PositiveGasConstant | NonNegativeTemperature

  /** The exact value-constraint text that switches a check on. */
  function Trigger(c: Constraint): string {
    match c
    case PositiveMass => "Mass (m) must be a positive number greater than 0"
    case NonNegativeVelocity => "Velocity (v) must be non-negative"
    case NonNegativeCurrent => "Current (I) must be non-negative"
    case PositiveResistance => "Resistance (R) must be a positive number greater than 0"
    case PositiveMoles => "Number of Moles (n) must be a positive number greater than 0"
    case PositiveGasConstant => "Gas Constant (R) must be a positive number greater than 0"
    case NonNegativeTemperature => "Temperature (T) must be non-negative (absolute temperature in Kelvin)"
  }

  /** The message a failed check raises. */
  function ViolationMessage(c: Constraint): string {
    match c
    case PositiveMass => "Mass must be a positive number greater than 0"
    case NonNegativeVelocity => "Velocity must be non-negative"
    case NonNegativeCurrent => "Current must be non-negative"
    case PositiveResistance => "Resistance must be a positive number greater than 0"
    case PositiveMoles => "Number of moles must be a positive number greater than 0"
    case PositiveGasConstant => "Gas constant must be a positive number greater than 0"
    case NonNegativeTemperature => "Temperature must be non-negative (absolute temperature in Kelvin)"
  }

  /** "greater than 0" checks reject zero; "non-negative" checks do not. */
  predicate Strict(c: Constraint) {
    c in {PositiveMass, PositiveResistance, PositiveMoles, PositiveGasConstant}
  }

  /** One value check: the constraint and the position of the operand it
      applies to. */
  datatype Check = Check(constraint: Constraint, operand: nat)

  /** Each validator's checks, in the order the validator runs them. */
  function Checks(law: Law): seq<Check> {
    match law
    case NewtonSecondLaw => [Check(PositiveMass, 0)]
    case KineticEnergy => [Check(PositiveMass, 0), Check(NonNegativeVelocity, 1)]
    case OhmsLaw => [Check(NonNegativeCurrent, 0), Check(PositiveResistance, 1)]
    case IdealGasLaw => [Check(PositiveMoles, 0), Check(PositiveGasConstant, 1), Check(NonNegativeTemperature, 2)]
  }

  predicate CheckFits(checks: seq<Check>, vals: seq<real>) {
    forall i :: 0 <= i < |checks| ==> checks[i].operand < |vals|
  }

  /** The check is active and the operand breaks it. */
  predicate Fires(c: Check, valueConstraints: seq<string>, vals: seq<real>)
    requires c.operand < |vals|
  {
    Trigger(c.constraint) in valueConstraints &&
    (if Strict(c.constraint) then vals[c.operand] <= 0.0 else vals[c.operand] < 0.0)
  }

  /** The position of the first check that fires, if any. */
  function FirstViolation(checks: seq<Check>, valueConstraints: seq<string>, vals: seq<real>): (r: Option<nat>)
    requires CheckFits(checks, vals)
    ensures r.Some? ==> r.value < |checks| && Fires(checks[r.value], valueConstraints, vals)
    ensures r.Some? ==> forall j :: 0 <= j < r.value ==> !Fires(checks[j], valueConstraints, vals)
    ensures r.None? ==> forall j :: 0 <= j < |checks| ==> !Fires(checks[j], valueConstraints, vals)
  {
    if checks == [] then None
    else if Fires(checks[0], valueConstraints, vals) then Some(0)
    else
      var tail := checks[1..];
      assert CheckFits(tail, vals);
      assert forall j :: 0 < j < |checks| ==> checks[j] == tail[j - 1];
      match FirstViolation(tail, valueConstraints, vals)
      case None => None
      case Some(k) => Some(k + 1)
  }

  /** The parsed operands and the computed value of one formula. */
  datatype Evaluation = Evaluation(result: real, operands: map<string, real>)

  /** Why a validator rejected a formula: the text does not start with the
      law's shape, or an active check failed. */
  datatype LawError = InvalidShape(law: Law) | Violation(constraint: Constraint)

  /** The text of the `ValueError` each rejection raises. */
  function ErrorMessage(e: LawError): string {
    match e
    case InvalidShape(law) => InvalidMessage(law)
    case Violation(c) => ViolationMessage(c)
  }

  /** Force, kinetic energy, voltage or pressure times volume. */
  function Compute(law: Law, vals: seq<real>): real
    requires |vals| == Arity(law)
  {
    match law
    case NewtonSecondLaw => vals[0] * vals[1]
    case KineticEnergy => 0.5 * vals[0] * (vals[1] * vals[1])
    case OhmsLaw => vals[0] * vals[1]
    case IdealGasLaw => vals[0] * vals[1] * vals[2]
  }

  function Operands(law: Law, vals: seq<real>): map<string, real>
    requires |vals| == Arity(law)
  {
    match law
    case NewtonSecondLaw => map["mass" := vals[0], "acceleration" := vals[1]]
    case KineticEnergy => map["mass" := vals[0], "velocity" := vals[1]]
    case OhmsLaw => map["current" := vals[0], "resistance" := vals[1]]
    case IdealGasLaw => map["n" := vals[0], "R" := vals[1], "T" := vals[2]]
  }

  function Values(nums: seq<Decimal>): (r: seq<real>)
    requires AllValid(nums)
    ensures |r| == |nums|
    ensures forall i :: 0 <= i < |nums| ==> r[i] == Value(nums[i]) && r[i] >= 0.0
  {
    seq(|nums|, i requires 0 <= i < |nums| => Value(nums[i]))
  }

  lemma PatternCounts(law: Law)
    ensures NumCount(Pattern(law)) == Arity(law)
    ensures WildCount(Pattern(law)) == if law == KineticEnergy then 1 else 0
  {
    match law
    case NewtonSecondLaw => TwoOperandCounts("F=");
    case OhmsLaw => TwoOperandCounts("V=");
    case IdealGasLaw => IdealGasLawCounts();
    case KineticEnergy => KineticEnergyCounts();
  }

  lemma TwoOperandCounts(head: string)
    ensures NumCount([Lit(head), Num, Lit("*"), Num]) == 2
    ensures WildCount([Lit(head), Num, Lit("*"), Num]) == 0
  {
    CountsCons(Num, []);
    assert [Num] + [] == [Num];
    CountsCons(Lit("*"), [Num]);
    var starNum := [Lit("*")] + [Num];
    CountsCons(Num, starNum);
    var twoNums := [Num] + starNum;
    CountsCons(Lit(head), twoNums);
    assert [Lit(head)] + twoNums == [Lit(head), Num, Lit("*"), Num];
  }

  lemma IdealGasLawCounts()
    ensures NumCount(Pattern(IdealGasLaw)) == 3 && WildCount(Pattern(IdealGasLaw)) == 0
  {
    TwoOperandCounts("*");
    var t1 := [Lit("*"), Num, Lit("*"), Num];
    CountsCons(Num, t1);
    var t2 := [Num] + t1;
    CountsCons(Lit("PV="), t2);
    assert Pattern(IdealGasLaw) == [Lit("PV=")] + t2;
  }

  lemma KineticEnergyCounts()
    ensures NumCount(Pattern(KineticEnergy)) == 2 && WildCount(Pattern(KineticEnergy)) == 1
  {
    var e := [Lit("^2")];
    CountsCons(Lit("^2"), []);
    assert [Lit("^2")] + [] == e;
    CountsCons(Num, e);
    var e1 := [Num] + e;
    CountsCons(Lit("*"), e1);
    var e2 := [Lit("*")] + e1;
    CountsCons(Num, e2);
    var e3 := [Num] + e2;
    CountsCons(Lit("5*"), e3);
    var e4 := [Lit("5*")] + e3;
    CountsCons(AnyChar, e4);
    var e5 := [AnyChar] + e4;
    CountsCons(Lit("KE=0"), e5);
    assert Pattern(KineticEnergy) == [Lit("KE=0")] + e5;
  }

  /** The facts about the four patterns and check tables the validators rely on. */
  lemma LawFacts(law: Law)
    ensures WellFormed(Pattern(law))
    ensures NumCount(Pattern(law)) == Arity(law)
    ensures WildCount(Pattern(law)) == if law == KineticEnergy then 1 else 0
    ensures forall i :: 0 <= i < |Checks(law)| ==> Checks(law)[i].operand < Arity(law)
  {
    PatternCounts(law);
    PatternWellFormed(law);
    ChecksInRange(law);
  }

  lemma PatternWellFormed(law: Law)
    ensures WellFormed(Pattern(law))
  {
    var starNum := [Lit("*"), Num];
    assert WellFormed([Num]);
    WellFormedCons(Lit("*"), [Num]);
    assert [Lit("*")] + [Num] == starNum;
    WellFormedCons(Num, starNum);
    var twoNums := [Num] + starNum;
    match law
    case NewtonSecondLaw =>
      WellFormedCons(Lit("F="), twoNums);
      assert Pattern(law) == [Lit("F=")] + twoNums;
    case OhmsLaw =>
      WellFormedCons(Lit("V="), twoNums);
      assert Pattern(law) == [Lit("V=")] + twoNums;
    case IdealGasLaw =>
      WellFormedCons(Lit("*"), twoNums);
      var t1 := [Lit("*")] + twoNums;
      WellFormedCons(Num, t1);
      var t2 := [Num] + t1;
      WellFormedCons(Lit("PV="), t2);
      assert Pattern(law) == [Lit("PV=")] + t2;
    case KineticEnergy =>
      var e := [Lit("^2")];
      WellFormedCons(Lit("^2"), []);
      assert [Lit("^2")] + [] == e;
      WellFormedCons(Num, e);
      var e1 := [Num] + e;
      WellFormedCons(Lit("*"), e1);
      var e2 := [Lit("*")] + e1;
      WellFormedCons(Num, e2);
      var e3 := [Num] + e2;
      WellFormedCons(Lit("5*"), e3);
      var e4 := [Lit("5*")] + e3;
      WellFormedCons(AnyChar, e4);
      var e5 := [AnyChar] + e4;
      WellFormedCons(Lit("KE=0"), e5);
      assert Pattern(law) == [Lit("KE=0")] + e5;
  }

  lemma ChecksInRange(law: Law)
    ensures forall i :: 0 <= i < |Checks(law)| ==> Checks(law)[i].operand < Arity(law)
  {
  }

  /** The constraint checker and the evaluator: run the checks in order on
      the operands, then compute the result. */
  function Evaluate(law: Law, valueConstraints: seq<string>, vals: seq<real>): (r: Result<Evaluation, LawError>)
    requires |vals| == Arity(law)
    ensures r.Failure? ==> r.error.Violation? && Trigger(r.error.constraint) in valueConstraints
  {
    LawFacts(law);
    assert CheckFits(Checks(law), vals);
    match FirstViolation(Checks(law), valueConstraints, vals)
    case Some(i) => Failure(Violation(Checks(law)[i].constraint))
    case None => Success(Evaluation(Compute(law, vals), Operands(law, vals)))
  }

  /** `_validate_newton_second_law` and its three siblings, on the
      space-free formula text. */
  function ValidateLaw(law: Law, valueConstraints: seq<string>, formula: string): (r: Result<Evaluation, LawError>)
    ensures r == Failure(InvalidShape(law)) <==> MatchShape(Pattern(law), formula).None?
    ensures r.Failure? && r.error.Violation? ==> Trigger(r.error.constraint) in valueConstraints
    ensures r.Failure? ==> r.error == InvalidShape(law) || r.error.Violation?
  {
    match MatchShape(Pattern(law), formula)
    case None => Failure(InvalidShape(law))
    case Some(m) =>
      LawFacts(law);
      Evaluate(law, valueConstraints, Values(m.nums))
  }

  // Each validator as a chain of branches, one per `if` and in the order the
  // validator runs them, over arbitrary real operands: the reference the
  // table of checks is proved against.

  function NewtonSecondLawBranches(valueConstraints: seq<string>, mass: real, acceleration: real): Result<Evaluation, LawError> {
    if Trigger(PositiveMass) in valueConstraints && mass <= 0.0 then Failure(Violation(PositiveMass))
    else Success(Evaluation(mass * acceleration, map["mass" := mass, "acceleration" := acceleration]))
  }

  function KineticEnergyBranches(valueConstraints: seq<string>, mass: real, velocity: real): Result<Evaluation, LawError> {
    if Trigger(PositiveMass) in valueConstraints && mass <= 0.0 then Failure(Violation(PositiveMass))
    else if Trigger(NonNegativeVelocity) in valueConstraints && velocity < 0.0 then Failure(Violation(NonNegativeVelocity))
    else Success(Evaluation(0.5 * mass * (velocity * velocity), map["mass" := mass, "velocity" := velocity]))
  }

  function OhmsLawBranches(valueConstraints: seq<string>, current: real, resistance: real): Result<Evaluation, LawError> {
    if Trigger(NonNegativeCurrent) in valueConstraints && current < 0.0 then Failure(Violation(NonNegativeCurrent))
    else if Trigger(PositiveResistance) in valueConstraints && resistance <= 0.0 then Failure(Violation(PositiveResistance))
    else Success(Evaluation(current * resistance, map["current" := current, "resistance" := resistance]))
  }

  function IdealGasLawBranches(valueConstraints: seq<string>, n: real, r: real, t: real): Result<Evaluation, LawError> {
    if Trigger(PositiveMoles) in valueConstraints && n <= 0.0 then Failure(Violation(PositiveMoles))
    else if Trigger(PositiveGasConstant) in valueConstraints && r <= 0.0 then Failure(Violation(PositiveGasConstant))
    else if Trigger(NonNegativeTemperature) in valueConstraints && t < 0.0 then Failure(Violation(NonNegativeTemperature))
    else Success(Evaluation(n * r * t, map["n" := n, "R" := r, "T" := t]))
  }

  function BranchesEvaluate(law: Law, valueConstraints: seq<string>, vals: seq<real>): Result<Evaluation, LawError>
    requires |vals| == Arity(law)
  {
    match law
    case NewtonSecondLaw => NewtonSecondLawBranches(valueConstraints, vals[0], vals[1])
    case KineticEnergy => KineticEnergyBranches(valueConstraints, vals[0], vals[1])
    case OhmsLaw => OhmsLawBranches(valueConstraints, vals[0], vals[1])
    case IdealGasLaw => IdealGasLawBranches(valueConstraints, vals[0], vals[1], vals[2])
  }

  /** The table of checks, run first-violation-wins, behaves exactly as the
      validators' written-out checks, on any operands. */
  lemma EvaluateAgreesWithBranches(law: Law, valueConstraints: seq<string>, vals: seq<real>)
    requires |vals| == Arity(law)
    ensures Evaluate(law, valueConstraints, vals) == BranchesEvaluate(law, valueConstraints, vals)
  {
    LawFacts(law);
    var checks := Checks(law);
    assert CheckFits(checks, vals);
    assert Strict(PositiveMass) && Strict(PositiveResistance) && Strict(PositiveMoles) && Strict(PositiveGasConstant);
    assert !Strict(NonNegativeVelocity) && !Strict(NonNegativeCurrent) && !Strict(NonNegativeTemperature);
    match law
    case NewtonSecondLaw =>
      assert checks[1..] == [];
    case KineticEnergy =>
      assert checks[1..] == [checks[1]] && checks[1..][1..] == [];
    case OhmsLaw =>
      assert checks[1..] == [checks[1]] && checks[1..][1..] == [];
    case IdealGasLaw =>
      assert checks[1..] == [checks[1], checks[2]];
      assert checks[1..][1..] == [checks[2]] && checks[1..][1..][1..] == [];
  }

  /** Every accepted formula has non-negative operands and a non-negative
      result, since no operand carries a sign. */
  lemma SuccessNonNegative(law: Law, valueConstraints: seq<string>, formula: string)
    ensures ValidateLaw(law, valueConstraints, formula).Success? ==>
      var e := ValidateLaw(law, valueConstraints, formula).value;
      e.result >= 0.0 && forall name :: name in e.operands ==> e.operands[name] >= 0.0
  {
    var m := MatchShape(Pattern(law), formula);
    if m.Some? {
      PatternCounts(law);
      var vals := Values(m.value.nums);
      EvaluateAgreesWithBranches(law, valueConstraints, vals);
      BranchesNonNegative(law, valueConstraints, vals);
    }
  }

  /** The written-out validators, on non-negative operands, report only
      non-negative operands and results. */
  lemma BranchesNonNegative(law: Law, valueConstraints: seq<string>, vals: seq<real>)
    requires |vals| == Arity(law)
    requires forall i :: 0 <= i < |vals| ==> vals[i] >= 0.0
    ensures BranchesEvaluate(law, valueConstraints, vals).Success? ==>
      var e := BranchesEvaluate(law, valueConstraints, vals).value;
      e.result >= 0.0 && forall name :: name in e.operands ==> e.operands[name] >= 0.0
  {
    NonNegativeProducts(vals);
    var x, y := vals[0], vals[1];
    assert x >= 0.0 && y >= 0.0;
    match law
    case NewtonSecondLaw =>
    case KineticEnergy =>
    case OhmsLaw =>
    case IdealGasLaw =>
      assert vals[2] >= 0.0;
  }

  lemma NonNegativeProducts(vals: seq<real>)
    requires forall i :: 0 <= i < |vals| ==> vals[i] >= 0.0
    ensures |vals| >= 2 ==> vals[0] * vals[1] >= 0.0 && 0.5 * vals[0] * (vals[1] * vals[1]) >= 0.0
    ensures |vals| >= 3 ==> vals[0] * vals[1] * vals[2] >= 0.0
  {
    if |vals| >= 2 {
      var x, y := vals[0], vals[1];
      assert x * y >= 0.0;
      assert y * y >= 0.0;
      assert 0.5 * x >= 0.0;
      assert 0.5 * x * (y * y) >= 0.0;
      if |vals| >= 3 {
        assert (x * y) * vals[2] >= 0.0;
      }
    }
  }

  /** On operands the grammar can produce (never negative), the
      "non-negative" checks never fail, and a "greater than 0" check fails
      only on an operand that is exactly zero. */
  lemma OnlyZeroTrips(law: Law, valueConstraints: seq<string>, vals: seq<real>)
    requires |vals| == Arity(law)
    requires forall i :: 0 <= i < |vals| ==> vals[i] >= 0.0
    ensures Evaluate(law, valueConstraints, vals).Failure? ==>
      var c := Evaluate(law, valueConstraints, vals).error.constraint;
      Strict(c) && exists i :: 0 <= i < |Checks(law)| && Checks(law)[i].constraint == c && vals[Checks(law)[i].operand] == 0.0
  {
    LawFacts(law);
    assert CheckFits(Checks(law), vals);
    var v := FirstViolation(Checks(law), valueConstraints, vals);
    if v.Some? {
      var k := v.value;
      assert Checks(law)[k].constraint == Evaluate(law, valueConstraints, vals).error.constraint;
    }
  }

  /** A validator's outcome on any text that starts with an instance of its
      shape (which cannot be lengthened at its end) is decided by the checks
      and the evaluator on that instance's operands. */
  lemma {:induction false} OutcomeOnInstance(law: Law, valueConstraints: seq<string>, nums: seq<Decimal>, wilds: seq<char>, rest: string)
    requires |nums| == NumCount(Pattern(law)) && |wilds| == WildCount(Pattern(law))
    requires AllValid(nums) && NoNewline(wilds) && EndsMaximal(Pattern(law), nums, rest)
    ensures |nums| == Arity(law)
    ensures ValidateLaw(law, valueConstraints, Text(Pattern(law), nums, wilds) + rest)
      == BranchesEvaluate(law, valueConstraints, Values(nums))
  {
    LawFacts(law);
    MatchShapeComplete(Pattern(law), nums, wilds, rest);
    EvaluateAgreesWithBranches(law, valueConstraints, Values(nums));
  }

  /** A text that starts with an instance of a validator's shape is never
      rejected as malformed, whatever follows the instance. */
  lemma InstanceNeverMalformed(law: Law, valueConstraints: seq<string>, nums: seq<Decimal>, wilds: seq<char>, rest: string)
    requires |nums| == NumCount(Pattern(law)) && |wilds| == WildCount(Pattern(law))
    requires AllValid(nums) && NoNewline(wilds)
    ensures ValidateLaw(law, valueConstraints, Text(Pattern(law), nums, wilds) + rest) != Failure(InvalidShape(law))
  {
    LawFacts(law);
    MatchShapeComplete(Pattern(law), nums, wilds, rest);
  }

  /** Conversely, a text that is not rejected as malformed starts with an
      instance of the validator's shape whose last operand is read as far as
      it goes: its operands and wildcard characters are returned, and the
      outcome is the validator's branches on those operands. */
  lemma ShapeOfAccepted(law: Law, valueConstraints: seq<string>, formula: string)
    returns (nums: seq<Decimal>, wilds: seq<char>, rest: string)
    requires ValidateLaw(law, valueConstraints, formula) != Failure(InvalidShape(law))
    ensures |nums| == NumCount(Pattern(law)) && |wilds| == WildCount(Pattern(law)) && |nums| == Arity(law)
    ensures AllValid(nums) && NoNewline(wilds)
    ensures formula == Text(Pattern(law), nums, wilds) + rest
    ensures EndsMaximal(Pattern(law), nums, rest)
    ensures ValidateLaw(law, valueConstraints, formula) == BranchesEvaluate(law, valueConstraints, Values(nums))
  {
    var m := MatchShape(Pattern(law), formula);
    assert m.Some?;
    nums, wilds, rest := ShapeOfMatch(Pattern(law), formula);
    OutcomeOnInstance(law, valueConstraints, nums, wilds, rest);
  }

  /** The text of the shapes `F=` and `V=`: head, operand, `*`, operand. */
  lemma TwoOperandText(head: string, x: Decimal, y: Decimal)
    ensures NumCount([Lit(head), Num, Lit("*"), Num]) == 2
    ensures WildCount([Lit(head), Num, Lit("*"), Num]) == 0
    ensures Text([Lit(head), Num, Lit("*"), Num], [x, y], []) == head + Render(x) + "*" + Render(y)
  {
    TwoOperandCounts(head);
    var p := [Lit(head), Num, Lit("*"), Num];
    assert p[1..] == [Num, Lit("*"), Num];
    assert [Num][1..] == [];
    assert [Lit("*"), Num][1..] == [Num];
    assert [Num, Lit("*"), Num][1..] == [Lit("*"), Num];
    assert Text([Num], [y], []) == Render(y);
    assert Text([Lit("*"), Num], [y], []) == "*" + Render(y);
    assert [x, y][1..] == [y];
    assert Text([Num, Lit("*"), Num], [x, y], []) == Render(x) + "*" + Render(y);
  }

  /** Newton's second law: `F=m*a` followed by anything that does not
      lengthen `a` is validated with operands m and a. */
  lemma NewtonSecondLawShape(valueConstraints: seq<string>, m: Decimal, a: Decimal, rest: string)
    requires ValidDecimal(m) && ValidDecimal(a) && Maximal(a, rest)
    ensures ValidateLaw(NewtonSecondLaw, valueConstraints, "F=" + Render(m) + "*" + Render(a) + rest)
      == NewtonSecondLawBranches(valueConstraints, Value(m), Value(a))
  {
    TwoOperandText("F=", m, a);
    PatternCounts(NewtonSecondLaw);
    OutcomeOnInstance(NewtonSecondLaw, valueConstraints, [m, a], [], rest);
    var vals := Values([m, a]);
    assert vals[0] == Value(m) && vals[1] == Value(a);
  }

  /** Ohm's law: `V=I*R` followed by anything that does not lengthen R is
      validated with operands I and R. */
  lemma OhmsLawShape(valueConstraints: seq<string>, i: Decimal, r: Decimal, rest: string)
    requires ValidDecimal(i) && ValidDecimal(r) && Maximal(r, rest)
    ensures ValidateLaw(OhmsLaw, valueConstraints, "V=" + Render(i) + "*" + Render(r) + rest)
      == OhmsLawBranches(valueConstraints, Value(i), Value(r))
  {
    TwoOperandText("V=", i, r);
    PatternCounts(OhmsLaw);
    OutcomeOnInstance(OhmsLaw, valueConstraints, [i, r], [], rest);
    var vals := Values([i, r]);
    assert vals[0] == Value(i) && vals[1] == Value(r);
  }

  lemma KineticEnergyTail(v: Decimal)
    ensures NumCount([Lit("*"), Num, Lit("^2")]) == 1 && WildCount([Lit("*"), Num, Lit("^2")]) == 0
    ensures Text([Lit("*"), Num, Lit("^2")], [v], []) == "*" + Render(v) + "^2"
  {
    var e := [Lit("^2")];
    assert e[1..] == [];
    assert NumCount(e) == 0 && WildCount(e) == 0;
    assert Text(e, [], []) == "^2";
    var e1 := [Num, Lit("^2")];
    assert e1[1..] == e;
    assert [v][1..] == [];
    assert Text(e1, [v], []) == Render(v) + "^2";
    var e2 := [Lit("*"), Num, Lit("^2")];
    assert e2[1..] == e1;
  }

  lemma KineticEnergyMiddle(m: Decimal, v: Decimal)
    ensures NumCount([Lit("5*"), Num, Lit("*"), Num, Lit("^2")]) == 2
    ensures WildCount([Lit("5*"), Num, Lit("*"), Num, Lit("^2")]) == 0
    ensures Text([Lit("5*"), Num, Lit("*"), Num, Lit("^2")], [m, v], []) == "5*" + Render(m) + "*" + Render(v) + "^2"
  {
    KineticEnergyTail(v);
    var e2 := [Lit("*"), Num, Lit("^2")];
    var e3 := [Num] + e2;
    assert e3[1..] == e2;
    assert [m, v][1..] == [v];
    assert Text(e3, [m, v], []) == Render(m) + ("*" + Render(v) + "^2");
    var e4 := [Lit("5*")] + e3;
    assert e4[1..] == e3;
    assert e4 == [Lit("5*"), Num, Lit("*"), Num, Lit("^2")];
  }

  /** The text of the kinetic-energy shape: `KE=0`, any one character, `5*`,
      mass, `*`, velocity, `^2`. */
  lemma KineticEnergyText(c: char, m: Decimal, v: Decimal)
    ensures NumCount(Pattern(KineticEnergy)) == 2 && WildCount(Pattern(KineticEnergy)) == 1
    ensures Text(Pattern(KineticEnergy), [m, v], [c]) == "KE=0" + [c] + "5*" + Render(m) + "*" + Render(v) + "^2"
  {
    KineticEnergyCounts();
    KineticEnergyMiddle(m, v);
    var p := Pattern(KineticEnergy);
    var e4 := [Lit("5*"), Num, Lit("*"), Num, Lit("^2")];
    var e5 := [AnyChar] + e4;
    assert e5[1..] == e4;
    assert [c][1..] == [];
    assert Text(e5, [m, v], [c]) == [c] + ("5*" + Render(m) + "*" + Render(v) + "^2");
    assert p[1..] == e5;
  }

  /** Kinetic energy: `KE=0.5*m*v^2`, where the `.` may be any character
      but a newline, followed by anything at all, is validated with operands
      m and v. */
  lemma KineticEnergyShape(valueConstraints: seq<string>, c: char, m: Decimal, v: Decimal, rest: string)
    requires c != '\n' && ValidDecimal(m) && ValidDecimal(v)
    ensures ValidateLaw(KineticEnergy, valueConstraints, "KE=0" + [c] + "5*" + Render(m) + "*" + Render(v) + "^2" + rest)
      == KineticEnergyBranches(valueConstraints, Value(m), Value(v))
  {
    KineticEnergyText(c, m, v);
    assert NoNewline([c]);
    assert !EndsMaximal(Pattern(KineticEnergy), [m, v], rest) ==> false;
    OutcomeOnInstance(KineticEnergy, valueConstraints, [m, v], [c], rest);
    var vals := Values([m, v]);
    assert vals[0] == Value(m) && vals[1] == Value(v);
  }

  /** The text of the ideal-gas shape: `PV=`, n, `*`, R, `*`, T. */
  lemma IdealGasLawText(n: Decimal, r: Decimal, t: Decimal)
    ensures NumCount(Pattern(IdealGasLaw)) == 3 && WildCount(Pattern(IdealGasLaw)) == 0
    ensures Text(Pattern(IdealGasLaw), [n, r, t], []) == "PV=" + Render(n) + "*" + Render(r) + "*" + Render(t)
  {
    PatternCounts(IdealGasLaw);
    TwoOperandText("*", r, t);
    var p := Pattern(IdealGasLaw);
    var q := [Lit("*"), Num, Lit("*"), Num];
    var q' := [Num] + q;
    assert q'[1..] == q;
    assert NumCount(q') == 3 && WildCount(q') == 0;
    assert [n, r, t][1..] == [r, t];
    assert Text(q', [n, r, t], []) == Render(n) + "*" + Render(r) + "*" + Render(t);
    assert p[1..] == q';
  }

  /** Ideal gas law: `PV=n*R*T` followed by anything that does not lengthen
      T is validated with operands n, R and T. */
  lemma IdealGasLawShape(valueConstraints: seq<string>, n: Decimal, r: Decimal, t: Decimal, rest: string)
    requires ValidDecimal(n) && ValidDecimal(r) && ValidDecimal(t) && Maximal(t, rest)
    ensures ValidateLaw(IdealGasLaw, valueConstraints, "PV=" + Render(n) + "*" + Render(r) + "*" + Render(t) + rest)
      == IdealGasLawBranches(valueConstraints, Value(n), Value(r), Value(t))
  {
    IdealGasLawText(n, r, t);
    OutcomeOnInstance(IdealGasLaw, valueConstraints, [n, r, t], [], rest);
    var vals := Values([n, r, t]);
    assert vals[0] == Value(n) && vals[1] == Value(r) && vals[2] == Value(t);
  }
}
