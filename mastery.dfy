/** The mastery level the web route keeps: a score in [0, 100] that goes up
    by 10 after a valid formula and down by 5 after an invalid one, clamped
    at both ends. */
module Mastery {
  import opened Validator

  const MAX_LEVEL := 100
  const SUCCESS_STEP := 10
  const FAILURE_STEP := 5

  /** The level after one validation: `min(level + 10, 100)` on success,
      `max(level - 5, 0)` on failure. */
  function NextLevel(level: int, isValid: bool): (r: int)
    ensures 0 <= level <= MAX_LEVEL ==> 0 <= r <= MAX_LEVEL
    ensures isValid ==> r <= MAX_LEVEL && (r == MAX_LEVEL || r == level + SUCCESS_STEP)
    ensures isValid && level <= MAX_LEVEL ==> r >= level
    ensures !isValid ==> r >= 0 && (r == 0 || r == level - FAILURE_STEP)
    ensures !isValid && level >= 0 ==> r <= level
    ensures isValid && level + SUCCESS_STEP <= MAX_LEVEL ==> r == level + SUCCESS_STEP
    ensures !isValid && level >= FAILURE_STEP ==> r == level - FAILURE_STEP
  {
    if isValid then
      if level + SUCCESS_STEP < MAX_LEVEL then level + SUCCESS_STEP else MAX_LEVEL
    else
      if level - FAILURE_STEP > 0 then level - FAILURE_STEP else 0
  }

  /** The level after a run of validations, oldest first. */
  function LevelAfter(level: int, outcomes: seq<bool>): int
    decreases |outcomes|
  {
    if outcomes == [] then level
    else LevelAfter(NextLevel(level, outcomes[0]), outcomes[1..])
  }

  /** Whatever the run of outcomes, a level that starts in range stays in range. */
  lemma {:induction false} LevelStaysInRange(level: int, outcomes: seq<bool>)
    requires 0 <= level <= MAX_LEVEL
    ensures 0 <= LevelAfter(level, outcomes) <= MAX_LEVEL
    decreases |outcomes|
  {
    if outcomes != [] {
      LevelStaysInRange(NextLevel(level, outcomes[0]), outcomes[1..]);
    }
  }

  /** k successes in a row from level 0 reach min(10·k, 100). */
  lemma {:induction false} SuccessesFromZero(k: nat)
    ensures LevelAfter(0, seq(k, _ => true)) == if SUCCESS_STEP * k < MAX_LEVEL then SUCCESS_STEP * k else MAX_LEVEL
  {
    SuccessesFrom(0, k);
  }

  lemma {:induction false} SuccessesFrom(level: int, k: nat)
    requires 0 <= level <= MAX_LEVEL
    ensures LevelAfter(level, seq(k, _ => true))
      == if level + SUCCESS_STEP * k < MAX_LEVEL then level + SUCCESS_STEP * k else MAX_LEVEL
    decreases k
  {
    if k > 0 {
      var run := seq(k, _ => true);
      assert run[0] && run[1..] == seq(k - 1, _ => true);
      SuccessesFrom(NextLevel(level, true), k - 1);
    }
  }

  /** k failures in a row from an in-range level lower it by 5·k, down to
      no less than 0. */
  lemma {:induction false} FailuresFrom(level: int, k: nat)
    requires 0 <= level <= MAX_LEVEL
    ensures LevelAfter(level, seq(k, _ => false))
      == if level - FAILURE_STEP * k > 0 then level - FAILURE_STEP * k else 0
    decreases k
  {
    if k > 0 {
      var run := seq(k, _ => false);
      assert !run[0] && run[1..] == seq(k - 1, _ => false);
      FailuresFrom(NextLevel(level, false), k - 1);
    }
  }

  /** Twenty failures bring any in-range level down to 0. */
  lemma TwentyFailuresReachBottom(level: int, k: nat)
    requires 0 <= level <= MAX_LEVEL && k >= 20
    ensures LevelAfter(level, seq(k, _ => false)) == 0
  {
    FailuresFrom(level, k);
  }

  /** Ten successes from 0 reach the top, and further successes stay there. */
  lemma TenSuccessesReachTop(k: nat)
    requires k >= 10
    ensures LevelAfter(0, seq(k, _ => true)) == MAX_LEVEL
  {
    SuccessesFromZero(k);
  }

  /** The application state: the rule store behind the validator and the
      mastery level, owned by one caller. */
  class AppState {
    const rules: map<string, RuleRecord>
    var masteryLevel: int

    ghost predicate Valid()
      reads this
    {
      0 <= masteryLevel <= MAX_LEVEL
    }

    /** A fresh state starts at level 0. */
    constructor (rules: map<string, RuleRecord>)
      ensures Valid() && this.rules == rules && masteryLevel == 0
    {
      this.rules := rules;
      masteryLevel := 0;
    }

    /** Record one validation's verdict. */
    method Record(isValid: bool)
      requires Valid()
      modifies this
      ensures Valid()
      ensures masteryLevel == NextLevel(old(masteryLevel), isValid)
    {
      if isValid {
        masteryLevel := if masteryLevel + SUCCESS_STEP < MAX_LEVEL then masteryLevel + SUCCESS_STEP else MAX_LEVEL;
      } else {
        masteryLevel := if masteryLevel - FAILURE_STEP > 0 then masteryLevel - FAILURE_STEP else 0;
      }
    }

    /** The `/validate` route: validate the submitted formula, update the
        mastery level from the verdict, and report both. */
    method Submit(patternMatches: (string, string) -> bool, format: real -> string, formulaType: string, formula: string)
      returns (isValid: bool, message: string, level: int)
      requires Valid()
      modifies this
      ensures Valid()
      ensures Outcome(isValid, message) == ValidateFormula(rules, patternMatches, format, formulaType, formula)
      ensures masteryLevel == NextLevel(old(masteryLevel), isValid) && level == masteryLevel
    {
      var outcome := ValidateFormula(rules, patternMatches, format, formulaType, formula);
      isValid, message := outcome.isValid, outcome.message;
      Record(isValid);
      level := masteryLevel;
    }
  }
}
