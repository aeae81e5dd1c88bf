# Physics formula validator — a Dafny model

This project models the checking core of the Smart Physics Tutor: `PhysicsFormulaValidator.validate_formula`, the
strategy dispatch in `parse_and_validate_values`, the four per-law validators
(Newton's second law, kinetic energy, Ohm's law and the ideal gas law), and the mastery level the `/validate`
route keeps.

The flow it models:

1. A formula type is looked up in the rule store. A type without a record gives `(False, "Unsupported formula type")`.
2. The record's own formula pattern is tried at the start of the formula with its U+0020 spaces removed. When it
   does not match, the result is `"Formula must match pattern: "` followed by the pattern.
3. The law's validator matches its fixed regular expression at the start of the space-free text. Text after the
   match is ignored.
4. The validator reads the operands as decimal numerals, then runs its value checks in a fixed order. A check runs
   only when its exact trigger sentence is among the record's value constraints, and the first failing check
   decides the message.
5. The validator computes the product that defines the law.
6. A success message is `"Calculation Successful! Result = "`, the formatted result, a newline, and then the
   record's validation rules, unit constraints and value constraints joined by newlines.
7. The mastery level starts at 0. It goes up by 10 after a valid formula and down by 5 after an invalid one, and
   is clamped to [0, 100].

Modules:

- `Wrappers`: Option and Result.
- `Strings`: space removal, `"\n".join` and, as its inverse, `split`.
- `Decimals`: the numeral `\d+(\.\d+)?`, its greedy scanner and its exact value.
- `Shapes`: the fixed regular expressions as token sequences (literal text, an operand, and the unescaped `.` of
  the kinetic-energy pattern). It contains a matcher proved sound, and complete for these shapes.
- `Laws`: the four validators as a table of checks, run first-violation-wins. They are proved equal to the checks
  written out branch by branch as the validators have them.
- `Validator`: the rule record, `parse_and_validate_values` and `validate_formula`.
- `Mastery`: the level update and the application state, as a class whose `Submit` method is the route.
- `Scenarios`: concrete formulas with their outcomes.

The record's formula pattern is a regular expression stored in the ontology. It reaches `ValidateFormula` as a
predicate `patternMatches(pattern, text)`. The two-decimal rendering of the result reaches it as a function
`format`.

## Model

| member | source | states |
|---|---|---|
| Validator.ValidateFormula | smart_physics_tutor.py:70-101 | an unknown formula type gives (false, "Unsupported formula type"); the verdict is valid exactly when the type is known, its pattern matches the space-free formula and the law's validator succeeds; a pattern mismatch reports the pattern; when the pattern matches but the validator fails, the outcome is (false, the validator's message); a valid message is the result line, a newline and the notes joined by newlines |
| Validator.ParseAndValidateValues | smart_physics_tutor.py:105-125 | a type with no strategy fails with "No validation strategy found"; otherwise it succeeds exactly when the law's validator does on the space-free formula, with its value, and a rejection carries the validator's message |
| Validator.RejectionReported | smart_physics_tutor.py:85-101 | when the pattern matches and the law's validator rejects the space-free formula, the outcome is invalid with exactly the validator's message |
| Validator.SpaceInsensitive | smart_physics_tutor.py:81 | inserting a space anywhere in a formula does not change the verdict or the message |
| Validator.SameWithoutSpaces | smart_physics_tutor.py:81 | a formula and its space-free form have the same outcome |
| Validator.Notes | smart_physics_tutor.py:89-93 | the record's validation rules, then unit constraints, then value constraints |
| Validator.ValueConstraintsOf | smart_physics_tutor.py:141-142 | the value constraints a validator reads from its own record, and none when the record is missing (the `.get(…, {})` default); the same lookup is at lines 167-168, 197-198 and 228-229 |
| Validator.SuccessMessageLines | smart_physics_tutor.py:89-98 | splitting a valid message at newlines gives the result line followed by every note, in record order, when the notes and the formatted result are single lines |
| Strings.RemoveSpaces | smart_physics_tutor.py:110 | the result holds no space and has the formula's characters with every space removed and all other characters kept (as a multiset) |
| Strings.RemoveSpacesAppend | smart_physics_tutor.py:110 | space removal distributes over concatenation |
| Strings.RemoveSpacesIdempotent | smart_physics_tutor.py:81 | removing spaces twice is removing them once (the strips at lines 81 and 110 each start from the submitted text), so a formula submitted without its spaces has the same outcome (Validator.SameWithoutSpaces) |
| Strings.Join | smart_physics_tutor.py:96 | `"\n".join`: the notes with one separator between neighbours; Strings.SplitJoin states that splitting recovers them |
| Strings.SplitJoin | smart_physics_tutor.py:96 | splitting the joined notes at the separator gives the notes back when none contains it |
| Laws.LawOf | smart_physics_tutor.py:113-123 | the strategy table: a found law's validator name is the formula type, and None means no law has that name |
| Laws.ValidateLaw | smart_physics_tutor.py:127-246 | a validator rejects a formula as malformed exactly when its shape does not match at the start of the text; any other rejection is a check whose trigger sentence is among the value constraints |
| Laws.Evaluate | smart_physics_tutor.py:144-151 | a failure is always a value-check violation whose trigger sentence is present |
| Laws.FirstViolation | smart_physics_tutor.py:231-242 | the reported check fires and no earlier check does; None means no check fires |
| Laws.Pattern | smart_physics_tutor.py:132-218 | the four regular expressions of lines 132, 158, 188 and 218 as token sequences; Laws.PatternCounts and Laws.PatternWellFormed state their operand counts and that greedy matching is exact on them |
| Laws.PatternCounts | smart_physics_tutor.py:132-225 | each shape has one operand group per value the validator reads (three for the ideal gas law, two otherwise) and one `.` only in the kinetic-energy shape |
| Laws.InvalidMessage | smart_physics_tutor.py:134-221 | the four "Invalid … formula" messages raised when the shape does not match; Laws.ValidateLaw states when |
| Laws.Trigger | smart_physics_tutor.py:145-240 | the exact value-constraint sentence that switches on each check |
| Laws.ViolationMessage | smart_physics_tutor.py:147-242 | the message each failed check raises |
| Laws.Checks | smart_physics_tutor.py:144-242 | each validator's checks in the order it runs them, with the operand each applies to; Laws.ChecksInRange states that every check names an operand the shape provides |
| Laws.ChecksInRange | smart_physics_tutor.py:137-225 | every check of a law applies to one of that law's operands |
| Laws.Compute | smart_physics_tutor.py:150-245 | force m·a, kinetic energy 0.5·m·v², voltage I·R and n·R·T; Laws.EvaluateAgreesWithBranches ties it to the branches |
| Laws.Operands | smart_physics_tutor.py:151-246 | the operand dictionaries each validator returns, by name |
| Laws.NewtonSecondLawBranches | smart_physics_tutor.py:144-151 | the mass check and m·a, one branch per `if` |
| Laws.KineticEnergyBranches | smart_physics_tutor.py:170-181 | the mass check, then the velocity check, then 0.5·m·v² |
| Laws.OhmsLawBranches | smart_physics_tutor.py:200-211 | the current check, then the resistance check, then I·R |
| Laws.IdealGasLawBranches | smart_physics_tutor.py:231-246 | the moles, gas-constant and temperature checks in that order, then n·R·T |
| Laws.BranchesEvaluate | smart_physics_tutor.py:144-246 | the four validators' branches by law |
| Laws.EvaluateAgreesWithBranches | smart_physics_tutor.py:144-246 | the table of checks, run first-violation-wins, equals the validators' own if-chains and products on any operands, for all four laws |
| Laws.SuccessNonNegative | smart_physics_tutor.py:132-246 | every accepted formula has non-negative operands and a non-negative result |
| Laws.OnlyZeroTrips | smart_physics_tutor.py:170-177 | on non-negative operands a "non-negative" check never fails, and a failing "greater than 0" check points at an operand that is exactly 0 |
| Laws.OutcomeOnInstance | smart_physics_tutor.py:132-135 | on a text that starts with an instance of a validator's shape whose last operand cannot be lengthened, the outcome is the written-out checks on that instance's operands, whatever follows |
| Laws.InstanceNeverMalformed | smart_physics_tutor.py:134-135 | a text that starts with an instance of the shape is never rejected as malformed, whatever follows |
| Laws.ShapeOfAccepted | smart_physics_tutor.py:132-138 | a text not rejected as malformed is an instance of the shape followed by text that cannot lengthen its last operand; the outcome is the validator's branches on exactly those operands |
| Laws.NewtonSecondLawShape | smart_physics_tutor.py:127-151 | `F=m*a` followed by anything that does not lengthen `a` is validated as the mass check and the product m·a on the numerals' values |
| Laws.KineticEnergyShape | smart_physics_tutor.py:153-181 | `KE=0`, any character but a newline, `5*m*v^2`, followed by anything, is validated as the mass and velocity checks and 0.5·m·v² |
| Laws.OhmsLawShape | smart_physics_tutor.py:183-211 | `V=I*R` followed by anything that does not lengthen R is validated as the current and resistance checks and I·R |
| Laws.IdealGasLawShape | smart_physics_tutor.py:213-246 | `PV=n*R*T` followed by anything that does not lengthen T is validated as the three checks in order and n·R·T |
| Decimals.Scan | smart_physics_tutor.py:132 | `\d+(\.\d+)?` at the start of a text: absent exactly when the text does not start with a digit; otherwise a valid numeral that cannot be lengthened, followed by the text after it |
| Decimals.ScanRender | smart_physics_tutor.py:132 | scanning a numeral's text followed by text that cannot extend it gives back that numeral and that text |
| Decimals.Value | smart_physics_tutor.py:137-138 | a numeral's value is non-negative, and zero exactly when all its digits are zero |
| Shapes.MatchShapeSound | smart_physics_tutor.py:132 | the prefix a match covers is the shape's text for the operands and characters the match reports |
| Shapes.ShapeOfMatch | smart_physics_tutor.py:132 | a text the matcher accepts is an instance of the shape followed by the rest of the text, which cannot lengthen the last operand |
| Shapes.MatchShapeEndsMaximal | smart_physics_tutor.py:132 | operands are read greedily: when the shape ends with an operand, the text after the match cannot lengthen it |
| Shapes.MatchShape | smart_physics_tutor.py:132 | `re.match` of a fixed shape at the start of a text; a match reports one valid numeral per operand group and one non-newline character per `.`; Shapes.MatchShapeSound and Shapes.MatchShapeComplete state what it matches |
| Shapes.MatchShapeComplete | smart_physics_tutor.py:132 | a well-formed shape matches any text that starts with one of its instances, and reports exactly that instance when it cannot be lengthened |
| Laws.PatternWellFormed | smart_physics_tutor.py:132-218 | in each of the four fixed regular expressions, every operand except one that ends the pattern is followed by text that starts with neither a digit nor `.`, so the greedy matcher and `re.match` agree on them |
| Mastery.NextLevel | smart_physics_tutor.py:283-286 | a level in [0, 100] stays there; success gives exactly level + 10 when that is at most 100, and otherwise 100; failure gives exactly level − 5 when that is at least 0, and otherwise 0 |
| Mastery.FailuresFrom | smart_physics_tutor.py:285-286 | k failures from an in-range level give max(level − 5·k, 0) |
| Mastery.TwentyFailuresReachBottom | smart_physics_tutor.py:285-286 | twenty or more failures bring any in-range level to 0 |
| Mastery.LevelStaysInRange | smart_physics_tutor.py:283-286 | any run of verdicts keeps a level that starts in [0, 100] within [0, 100] |
| Mastery.SuccessesFromZero | smart_physics_tutor.py:257 | k successes from the initial level 0 reach min(10·k, 100) |
| Mastery.TenSuccessesReachTop | smart_physics_tutor.py:283-284 | ten or more successes from level 0 reach 100 |
| Mastery.AppState.constructor | smart_physics_tutor.py:252-257 | a fresh state holds the rule store and level 0 |
| Mastery.AppState.Record | smart_physics_tutor.py:283-286 | the level becomes the next level for the verdict, and stays in [0, 100] |
| Mastery.AppState.Submit | smart_physics_tutor.py:270-293 | returns the validator's verdict and message for the formula and the updated level, which is the next level for that verdict |
| Scenarios.NewtonSecondLawExample | smart_physics_tutor.py:127-151 | `F=2*3` succeeds with force 6 and operands mass 2, acceleration 3 |
| Scenarios.KineticEnergyExample | smart_physics_tutor.py:153-181 | `KE=0.5*2*3^2` succeeds with 9 |
| Scenarios.KineticEnergyAnyCharacter | smart_physics_tutor.py:158 | `KE=0`, any character but a newline, `5*2*3^2`, then any text, succeeds with 9, because the pattern's `.` is unescaped and the match anchors only at the start |
| Scenarios.OhmsLawExample | smart_physics_tutor.py:183-211 | `V=2*3` succeeds with 6 |
| Scenarios.IdealGasLawExample | smart_physics_tutor.py:213-246 | `PV=1*8.314*300` succeeds with 2494.2 |
| Scenarios.TrailingTextIgnored | smart_physics_tutor.py:132 | `F=2*3` followed by any text that does not continue the numeral `3` (such as `kg` or `.x`) succeeds with 6, since the match anchors only at the start |
| Scenarios.WrongOperatorRejected | smart_physics_tutor.py:134-135 | `F=2+3` is rejected as an invalid Newton's second law formula |
| Scenarios.ZeroMassWithoutConstraint | smart_physics_tutor.py:145 | `F=0*5` succeeds with 0 when the mass sentence is not among the value constraints |
| Scenarios.ZeroMassWithConstraint | smart_physics_tutor.py:145-147 | `F=0*5` fails with the mass message when the mass sentence is present |
| Scenarios.FirstViolationReported | smart_physics_tutor.py:232-238 | `PV=0*0*5` with both the moles and the gas-constant sentences reports the moles violation |
| Scenarios.NewtonSecondLawEndToEnd | smart_physics_tutor.py:70-98 | a record whose pattern accepts `F=2*3` gives a valid verdict and the message with the formatted 6 and the notes |
| Scenarios.ZeroMassEndToEnd | smart_physics_tutor.py:85-101 | with the mass sentence in the record, `F=0*5` gives (false, "Mass must be a positive number greater than 0") |
| Scenarios.ZeroMassParsed | smart_physics_tutor.py:105-147 | `F=0*5` has no spaces and the Newton validator rejects it with the mass violation on the record's constraints |
| Scenarios.SpacedFormulaEndToEnd | smart_physics_tutor.py:81 | the same holds for `F=2*3` with a space inserted anywhere |

## Left out

- Flask routing, templates, the JSON response and the `__main__` server are left out. `AppState.Submit` stands for the route.
- Loading the OWL ontology (smart_physics_tutor.py:8-68) is left out. The rule store is a map given to the model, and the errors raised while loading are not modelled.
- The record's `formula_pattern` is a regular expression in the ontology. It is a predicate parameter rather than a regex engine, so a missing pattern (None) and an invalid regex, which raise before line 85, are not modelled.
- Decimals.Value: operands are exact rationals, not IEEE doubles. `float` rounding (`float("8.314")`) and the rounding of the products are not modelled. Two consequences of floating point change the verdict and are not captured:
  - Overflow in `velocity ** 2` (smart_physics_tutor.py:180). For a velocity between about 1.34e154 and the largest double (about 1.8e308), Python's `**` raises `OverflowError`, where `*` would give infinity. A longer numeral reads as infinity, and infinity squared gives infinity without raising, so those formulas succeed as in the model. An example is `KE=0.5*1*1` followed by 160 zeros and `^2`. The generic handler (smart_physics_tutor.py:102-103) then returns `(False, "Validation Error: (34, 'Numerical result out of range')")`, but the model reports success.
  - Underflow in `float`. A numeral below the smallest double, such as `0.` followed by 400 zeros and `1`, reads as 0.0. It then trips the "greater than 0" checks (smart_physics_tutor.py:146, 206, 233, 237), which the model's exact positive value does not.
- Validator.ValidateFormula: the generic `"Validation Error: ..."` branch (smart_physics_tutor.py:102-103) is not modelled. On exact reals nothing raises there. Besides the overflow above, rule data of the wrong shape reaches it: a note that is not a string makes the join at line 96 raise, and a property that is missing or single-valued rather than a list breaks the concatenation at lines 89-92. The model's rule record always holds lists of strings.
- Validator.ValidateFormula: `format` stands for the `:.2f` rendering. The model does not fix how a value is printed.
- Decimals.Scan: `\d` is ASCII 0-9. Python's `re` also accepts other Unicode decimal digits, which `float` would then read.
- Shapes.MatchShape: a greedy matcher without backtracking. It agrees with `re.match` for the four shapes because each operand, except one that ends the pattern, is followed by a literal that starts with neither a digit nor `.`; this condition is proved for each shape (Laws.PatternWellFormed). It is not a general regex engine.
- Only U+0020 spaces are removed, as `replace(' ', '')` does. Tabs and other whitespace stay and can make a formula fail to match.
- Validator.SuccessMessageLines: stated only for records with at least one note and single-line notes. With no notes the message ends in a newline, and splitting it gives an empty last line.
- Concurrent requests sharing the one global state are not modelled. `AppState` has one caller at a time.
