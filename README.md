# py-chemical-balance front end, in Dafny

This project models the part of `py-chemical-balance` that turns a chemical
equation into numbers, and the last step that turns a null-space vector
into integer coefficients:

- `preprocesseq` rewrites an equation such as `NH3 + O2 = H2NO3` into the
  fully parenthesised form `((N)(H(3)))+((O(2)))=((H(2))(N)(O(3)))`. It
  reads a 47-row table of (previous character, current character,
  insertion) and drops whitespace. This is module `Rewriter`. The table is
  a list of rows grouped into its seven blocks. `Preprocess` is the
  function, and `PreprocessEq` is the source's loop, proved equal to it.
- `parseeq` runs a state machine over that form. A 13-row jump list picks
  the next state, and the actions `new`, `push`, `write` and `merge`
  update the stack of open groups, the finished molecules and the side of
  the equation (`+1` before `=`, `-1` after it). This is modelled twice:
  - module `FormulaParser` as functions (`Step`, `Run`, `Parse`);
  - module `ParserMachine` as a class whose fields are updated in place,
    whose `ParseEq` method is proved to compute `Parse`.

  Module `JumpTable` reads the jump list as a table. `ParserProperties`
  proves what holds over any line. `ParserMirror` proves that writing `=`
  for a `+` negates exactly the counts recorded after it. `ParserExamples`
  works through concrete lines, and carries the documentation's equation
  through both stages.
- `form_coef_mat` builds the element-by-molecule matrix. This is module
  `CoefMatrix`. Its method is proved to produce exactly the counts. A
  vector is in the matrix's null space exactly when every element
  balances.
- `proc_basis`, from exact rationals on, scales a rational vector by the
  lcm of its denominators and divides by the gcd of the numerators. This
  is module `Basis`, with `NumberTheory` holding `math.gcd` and
  `math.lcm`.

Shared pieces:
- `Counts` holds one molecule's counts: a map from element symbol to
  integer, with the in-place loops of `merge` as methods.
- `CharClasses` holds the character tests.
- `Outcome` holds the `Result` type, whose errors stand for the source's
  exceptions:
  - `IllegalCharacter(pos)` is the `ValueError` of `preprocesseq`;
  - `ErrorAt(pos)` is the `RuntimeError` of `parseeq`;
  - `NoAction` is the `KeyError` of an invalid jump;
  - `EmptyStack` is the `IndexError` of `action_write`;
  - `ZeroDivision` is the `ZeroDivisionError` of `proc_basis`.

Positions follow the source. `preprocesseq` reports the index into the
line, and `len(line)` at the end. `parseeq` reports the index into
`[None] + list(line)`, so character `line[k]` is reported at `k + 1`.

## Model

| member | source | states |
|---|---|---|
| CharClasses.IsDigitDotText | parseeq.py:8-9 | definition of `isdigitdot`; used by `Rewriter.MatchesByKind` and the count branches of `FormulaParser.MergeAction` |
| CharClasses.DigitsValue | parseeq.py:206 | definition of `float()` on a digit string; stated by `CharClasses.DigitsRoundTrip` |
| Rewriter.UpperRows | parseeq.py:47-53 | definition: the rows whose previous character is uppercase; stated by `Rewriter.TableAgrees` |
| Rewriter.LowerRows | parseeq.py:54-60 | definition: the rows whose previous character is lowercase; stated by `Rewriter.TableAgrees` |
| Rewriter.DigitRows | parseeq.py:61-67 | definition: the rows whose previous character is a digit or dot; stated by `Rewriter.TableAgrees` |
| Rewriter.OpenRows | parseeq.py:68-73 | definition: the rows after `(`; stated by `Rewriter.TableAgrees` |
| Rewriter.CloseRows | parseeq.py:74-79 | definition: the rows after `)`; stated by `Rewriter.TableAgrees` |
| Rewriter.SeparatorRows | parseeq.py:80-86 | definition: the rows after `+` or `=`; stated by `Rewriter.TableAgrees` |
| Rewriter.StartRows | parseeq.py:87-93 | definition: the rows at the start of the line; stated by `Rewriter.TableAgrees` and `Rewriter.BadFirstCharacterFails` |
| Rewriter.Rules | parseeq.py:46-94 | definition: the seven blocks in the source's order; stated by `Rewriter.TableAgrees` |
| Rewriter.FirstMatch | parseeq.py:104-126 | definition of the inner `for ... else` search; stated by `Rewriter.FirstMatchByKind` and `Rewriter.MatchRule` |
| Rewriter.Rewrite | parseeq.py:96-127 | definition of the outer loop; stated by `Rewriter.PreprocessEq`, `Rewriter.PreprocessOnlyInsertsParens` and `Rewriter.PreprocessSucceedsIffAllowed` |
| Rewriter.Preprocess | parseeq.py:12-128 | definition of `preprocesseq`; stated by `Rewriter.PreprocessEq`, `Rewriter.WhitespaceIrrelevant` and the `Example` lemmas |
| FormulaParser.JumpList | parseeq.py:152-166 | definition: the 13 rows in order; stated by `JumpTable.JumpsAgree` |
| FormulaParser.InputMatches | parseeq.py:240-245 | definition of the second-column test; stated by `JumpTable.FirstJumpByKind` |
| FormulaParser.FirstJump | parseeq.py:238-250 | definition of the jump search; stated by `JumpTable.JumpsAgree` and `ParserMachine.Parser.FindJump` |
| FormulaParser.NewAction | parseeq.py:168-181 | definition of `action_new`; stated by `ParserMirror.NewMirrored` and `ParserProperties.SeparatorInsideGroupFails` |
| FormulaParser.PushAction | parseeq.py:183-186 | definition of `action_push`; stated by `ParserProperties.StepDepth` |
| FormulaParser.WriteAction | parseeq.py:189-195 | definition of `action_write`; stated by `ParserProperties.WriteSucceeds` and `ParserProperties.NeverEmptyStack` |
| FormulaParser.CountOf | parseeq.py:206-212 | definition of `float()` on a count; stated by `FormulaParser.CountRoundTrip` |
| FormulaParser.MergeAction | parseeq.py:198-227 | definition of `action_merge`; stated by `ParserProperties.MergeKeepsSigns` and `ParserMirror.MergeMirrored` |
| FormulaParser.Step | parseeq.py:236-252 | definition of one loop iteration; stated by `JumpTable.StepByTable` and `ParserProperties.StepInvariant` |
| FormulaParser.Initial | parseeq.py:138-141 | definition of the variables before the loop; stated by `ParserMachine.Parser.constructor` |
| FormulaParser.Start | parseeq.py:142-153 | definition of the turn on the missing first input; stated by `ParserProperties.StartShape` |
| FormulaParser.Run | parseeq.py:236-252 | definition of the loop; stated by `ParserProperties.RunInvariant` and `ParserMirror.EqualsNegatesProducts` |
| FormulaParser.Parse | parseeq.py:131-254 | definition of `parseeq`; stated by `ParserMachine.ParseEq` and `ParserExamples.EquationPipeline` |
| Counts.Get | parseeq.py:265 | definition of `d.get(k, 0)`; stated by `Counts.GetScale` and `Counts.GetAddInto` |
| Counts.Scale | parseeq.py:213-214 | definition of scaling a group; stated by `Counts.ScaleCounts` and `Counts.GetScale` |
| Counts.Bump | parseeq.py:216-218 | definition of one more of a symbol; stated by `Counts.BumpIsAddInto` |
| Counts.AddInto | parseeq.py:221-225 | definition of merging a group into its parent; stated by `Counts.AddCounts` and `Counts.GetAddInto` |
| CoefMatrix.AllKeys | parseeq.py:258-260 | definition of `all_ele`; stated by `CoefMatrix.AllKeysMembers` |
| CoefMatrix.Row | parseeq.py:263-265 | definition of one row; stated by `CoefMatrix.RowEntries` and `CoefMatrix.FormCoefMat` |
| NumberTheory.Gcd | solveeq.py:36 | definition of `math.gcd` on two numbers; stated by `NumberTheory.GcdDivides` and `NumberTheory.GcdGreatest` |
| NumberTheory.GcdSeq | solveeq.py:36 | definition of `math.gcd(*xs)`; stated by `NumberTheory.GcdSeqDivides`, `NumberTheory.GcdSeqGreatest` and `NumberTheory.GcdSeqZero` |
| NumberTheory.Lcm | solveeq.py:34 | definition of `math.lcm` on two numbers; stated by `NumberTheory.LcmMultiple` |
| NumberTheory.LcmSeq | solveeq.py:34 | definition of `math.lcm(*xs)`; stated by `NumberTheory.LcmSeqMultiple` |
| Basis.Multiplier | solveeq.py:34 | definition of `m`; stated by `Basis.MultiplierFacts` |
| Basis.Scaled | solveeq.py:35 | definition of `x * m`; stated by `Basis.ScaledIsExact` |
| Basis.Divisor | solveeq.py:36 | definition of `d`; stated by `Basis.DivisorZero` |
| Basis.DivideAll | solveeq.py:37-38 | definition of `x / d` and its numerator; stated by `Basis.Proportional` |
| Basis.ProcBasis | solveeq.py:32-38 | definition of `proc_basis`; stated by `Basis.ProcBasisOutcome`, `Basis.Proportional`, `Basis.Primitive` and `Basis.Idempotent` |
| Rewriter.MatchesByKind | parseeq.py:105-116 | a pattern of either column matches a character exactly when it accepts the character's kind (upper, lower, digit or dot, `(`, `)`, `+=`, boundary, other) |
| Rewriter.FirstMatchByKind | parseeq.py:104-117 | the first matching row depends only on the kinds of the previous and current character |
| Rewriter.TableAgrees | parseeq.py:46-94 | searching the 47 rows top to bottom gives, for every pair of kinds, the entry of the kind grid `Table` |
| Rewriter.RuleForIsTable | parseeq.py:104-126 | the rule chosen for a pair of characters is the grid entry of their kinds |
| Rewriter.RowExistsExactlyForKnownKinds | parseeq.py:104-126 | no row matches exactly when one of the two characters is of no known kind (the `for ... else` error) |
| Rewriter.MatchRule | parseeq.py:104-124 | the inner loop returns the insertion of the first matching row, or nothing when no row matches |
| Rewriter.PreprocessEq | parseeq.py:96-128 | the outer loop, with its `continue` on whitespace and its two errors, returns `Preprocess(line)` |
| Rewriter.PreprocessOnlyInsertsParens | parseeq.py:117-123 | removing the parentheses from the output gives the input without whitespace and parentheses; the output holds no whitespace |
| Rewriter.WhitespaceIrrelevant | parseeq.py:101-103 | whitespace changes neither whether the rewrite succeeds nor its output |
| Rewriter.PreprocessSucceedsIffAllowed | parseeq.py:100-127 | the rewrite succeeds exactly when every consulted position has a legal row, and it fails only with the positioned error |
| Rewriter.PreprocessFailsAtFirstDisallowed | parseeq.py:117-126 | the reported position is exactly the first consulted position without a legal row |
| Rewriter.BadFirstCharacterFails | parseeq.py:87-93 | a line starting (after spaces) with a lowercase letter, digit, dot, `)`, `+` or `=` fails at that character |
| Rewriter.BlankLineFails | parseeq.py:93 | an empty or all-space line fails at its end |
| Rewriter.LowercaseAfterNumberFails | parseeq.py:62 | a lowercase letter after a digit or dot makes the rewrite fail there or before |
| Rewriter.RewriteIsByGrid | parseeq.py:96-128 | the rewrite driven by the ordered rows equals the rewrite read off the kind grid |
| Rewriter.ExampleA | parseeq.py:14-15 | `A` becomes `((A))` |
| Rewriter.ExampleA2 | parseeq.py:16-17 | `A2` becomes `((A(2)))` |
| Rewriter.ExampleAB | parseeq.py:18-19 | `AB` becomes `((A)(B))` |
| Rewriter.ExampleA2B | parseeq.py:20-21 | `A2B` becomes `((A(2))(B))` |
| Rewriter.ExampleGroup | parseeq.py:22-23 | `A(A2B)3` becomes `((A)(((A(2))(B))(3)))` |
| Rewriter.ExampleGroupAfterCount | parseeq.py:24-25 | `A2(AB)3` becomes `((A(2))(((A)(B))(3)))` |
| Rewriter.ExampleLowercase | parseeq.py:26-27 | `Ah1(AhB4)2B3` becomes `((Ah(1))(((Ah)(B(4)))(2))(B(3)))` |
| Rewriter.ExampleEquation | parseeq.py:28-29 | `NH3 + O2 = H2NO3` becomes `((N)(H(3)))+((O(2)))=((H(2))(N)(O(3)))` |
| Rewriter.ExampleUnclosed | parseeq.py:53-90 | `(A` becomes `((((A))`: only the groups the rewrite opens are balanced |
| CharClasses.DigitsRoundTrip | parseeq.py:206 | the digits written for any `n` are a non-empty digit string whose value is `n` |
| FormulaParser.CountRoundTrip | parseeq.py:204-212 | a count written in decimal passes `isdigitdot` and reads back as itself |
| JumpTable.FirstJumpByKind | parseeq.py:238-248 | the first matching jump depends only on the state and the kind of input |
| JumpTable.JumpsAgree | parseeq.py:152-166 | searching the jump list gives the table `Transition`, for every state and input |
| JumpTable.StartJump | parseeq.py:153 | the missing first input in no state jumps to `NEW` |
| JumpTable.StepByTable | parseeq.py:236-252 | one turn is: no row gives `ErrorAt(i)`, an invalid jump gives `NoAction`, otherwise the new state's action |
| FormulaParser.RunTurn | parseeq.py:236-252 | the run over one more character is the run so far followed by one turn |
| FormulaParser.FailureIsFinal | parseeq.py:249-252 | once a prefix fails, the whole line fails with the same error |
| FormulaParser.RunByTurns | parseeq.py:236-252 | the run is the run over a prefix followed by the turns on the rest |
| ParserMachine.Parser.constructor | parseeq.py:138-141 | the variables start as an empty stack, no results, side `1` and no state |
| ParserMachine.Parser.FindJump | parseeq.py:238-250 | the search over the jump list returns the first matching row's next state, or nothing |
| ParserMachine.Parser.ActionNew | parseeq.py:168-181 | updates the variables exactly as `NewAction`: `=` sets the side to `-1`, a separator needs an empty stack, the missing input clears the stack, anything else fails |
| ParserMachine.Parser.ActionPush | parseeq.py:183-186 | updates the variables exactly as `PushAction`: `(` opens an empty group, anything else fails |
| ParserMachine.Parser.ActionWrite | parseeq.py:189-195 | updates the variables exactly as `WriteAction`: an empty group on top becomes the character, a text on top grows by it, a non-empty group fails |
| ParserMachine.Parser.ActionMerge | parseeq.py:198-227 | updates the variables exactly as `MergeAction`, with the in-place loops over the top group's counts |
| ParserMachine.Parser.Turn | parseeq.py:236-252 | one iteration of the main loop updates the variables exactly as `Step` |
| ParserMachine.ParseEq | parseeq.py:131-254 | the whole procedure returns `Parse(line)` |
| Counts.ScaleCounts | parseeq.py:213-214 | the loop `stack[-1][k] *= a` computes `Scale` |
| Counts.AddCounts | parseeq.py:221-225 | the loop that merges a closed group into its parent computes `AddInto` |
| Counts.GetAddInto | parseeq.py:221-225 | a merged count is the sum of the two counts, over the union of the keys |
| Counts.GetScale | parseeq.py:213-214 | a scaled count is the count times the factor, over the same keys |
| Counts.AddIntoCommutes | parseeq.py:221-225 | merging two groups does not depend on which is the parent |
| Counts.AddIntoEmpty | parseeq.py:221-225 | merging an empty group changes nothing |
| Counts.ScaleDistributes | parseeq.py:211-225 | scaling a merged group equals merging the scaled groups |
| Counts.BumpIsAddInto | parseeq.py:216-218 | one more of a symbol is a merge with a one-symbol group |
| Counts.ScaleNegated | parseeq.py:211-214 | scaling by a count and negating can be done in either order |
| Counts.BumpNegated | parseeq.py:216-218 | adding `-side` to a negated group is negating the group with `side` added |
| Counts.ScaleKeepsSign | parseeq.py:211-214 | a non-negative count keeps the counts' sign |
| Counts.AddIntoKeepsSign | parseeq.py:219-225 | merging two groups of one sign keeps that sign |
| Counts.BumpKeepsSign | parseeq.py:216-218 | adding `side` to a symbol keeps the sign of the side |
| ParserProperties.StartShape | parseeq.py:138-141 | the first turn leaves an empty stack, no results, side `1`, state `NEW`, with shape and signs |
| ParserProperties.StepKeepsShape | parseeq.py:168-227 | a turn keeps the shape (an empty group on top after `PUSH`, a text on top after `WRITE`, an empty stack after `NEW`) and never reads the top of an empty stack |
| ParserProperties.WriteSucceeds | parseeq.py:189-195 | from `PUSH` or `WRITE`, a character of no special kind always extends the text on top |
| ParserProperties.StepDepth | parseeq.py:183-227 | a turn changes the depth of the stack by `+1` on `(`, `-1` on `)` and `0` otherwise |
| ParserProperties.StepSide | parseeq.py:171-172 | a turn sets the side to `-1` on `=` and keeps it otherwise |
| ParserProperties.StepResults | parseeq.py:201-202 | a turn either keeps the results or appends one molecule signed by the side |
| ParserProperties.MergeKeepsSigns | parseeq.py:198-227 | every case of `merge` keeps the counts signed by the side |
| ParserProperties.StepKeepsSigns | parseeq.py:168-227 | a turn keeps the sign invariant of open groups and finished molecules |
| ParserProperties.RunInvariant | parseeq.py:236-252 | after any line that parses: shape and signs hold, the depth is `#( - #)`, and the side is `-1` exactly when the line holds `=` |
| ParserProperties.NeverEmptyStack | parseeq.py:190 | no line makes `action_write` read the top of an empty stack |
| ParserProperties.RunPrefix | parseeq.py:236-252 | every prefix of a line that parses also parses, and its molecules are a prefix of the line's |
| ParserProperties.BalancedPrefixes | parseeq.py:198-227 | in a line that parses, no prefix closes more groups than it opens |
| ParserProperties.StepAfterEquals | parseeq.py:201-207 | after `=`, a turn adds only molecules with non-positive counts |
| ParserProperties.LaterNonPositive | parseeq.py:171-172 | every molecule finished after an `=` has only non-positive counts |
| ParserProperties.SeparatorKeepsResults | parseeq.py:168-177 | a turn on `+` or `=` finishes no molecule |
| ParserProperties.SidesOfEquation | parseeq.py:140-218 | the molecules before the first `=` (reactants) are non-negative and those after it (products) non-positive |
| ParserMirror.StepMirrored | parseeq.py:168-252 | a turn on any character but `=` keeps two runs that differ only in the side related: the same error, or the same state and texts with every group count and every later molecule negated |
| ParserMirror.MergeMirrored | parseeq.py:198-227 | every case of `action_merge` multiplies the side in linearly: on the opposite side it gives the negated groups and molecules |
| ParserMirror.SeparatorMirrored | parseeq.py:168-177 | on the left-hand side, `+` and `=` fail alike or differ only in the side |
| ParserMirror.EqualsNegatesProducts | parseeq.py:140-218 | with no other `=`, writing `=` for a `+` changes neither whether the line parses nor the molecules before it, and negates every count of each molecule after it |
| ParserProperties.RepeatedEquals | parseeq.py:165-172 | a second `=` between molecules is accepted and keeps the side at `-1` |
| ParserProperties.SeparatorInsideGroupFails | parseeq.py:173-177 | a `+` or `=` while a group is open fails at its position |
| ParserProperties.SeparatorInsideTextFails | parseeq.py:157-161 | a `+` or `=` right after `(` or inside a symbol is the invalid jump |
| ParserProperties.NoJumpFails | parseeq.py:249-250 | a character without a row fails at its position; after `NEW` only `(` has one |
| ParserExamples.OpenGroup | parseeq.py:154-186 | from any state but the first, `(` enters `PUSH` and opens an empty group |
| ParserExamples.StartText | parseeq.py:158-193 | a plain character after `(` enters `WRITE` and replaces the empty group by a one-character text |
| ParserExamples.ExtendText | parseeq.py:162-195 | a plain character after a text appends to it |
| ParserExamples.CloseMolecule | parseeq.py:164-202 | `)` closing the outermost group appends it to the results and empties the stack |
| ParserExamples.CloseSubgroup | parseeq.py:164-225 | `)` closing a subgroup adds its counts into the parent's |
| ParserExamples.CloseCount | parseeq.py:160-207 | `)` after a symbol and its count replaces both by the group `{symbol: count * side}` |
| ParserExamples.MergeSymbol | parseeq.py:160-218 | `)` after a symbol without a count adds `side` to that symbol in the group below |
| ParserExamples.Separator | parseeq.py:165-177 | `+` or `=` between molecules enters `NEW`; `=` sets the side to `-1` |
| ParserExamples.EquationPipeline | parseeq.py:28-29 | `NH3 + O2 = H2NO3` rewritten and then parsed gives `{N:1,H:3}`, `{O:2}`, `{H:-2,N:-1,O:-3}` |
| ParserExamples.ParseEquation | parseeq.py:131-254 | the rewritten `NH3 + O2 = H2NO3` parses into `{N:1,H:3}`, `{O:2}`, `{H:-2,N:-1,O:-3}` |
| ParserExamples.ParseUnclosed | parseeq.py:201-202 | `((((A))` leaves its outer groups open and gives no molecule |
| ParserExamples.ParseRepeatedEquals | parseeq.py:171-172 | `((A))=((B))=((C))` gives `{A:1}`, `{B:-1}`, `{C:-1}` |
| ParserExamples.ParseBareSymbol | parseeq.py:153-154 | `A` fails at input 1: `NEW` has a row only for `(` |
| ParserExamples.ParseSeparatorInGroup | parseeq.py:175-177 | `((A)+` fails at input 5 |
| ParserExamples.ParseSeparatorAfterOpen | parseeq.py:157 | `(+` is the invalid jump |
| CoefMatrix.AllKeysMembers | parseeq.py:258-260 | an element is in the union exactly when some molecule names it |
| CoefMatrix.RowEntries | parseeq.py:263-265 | a row holds one count per molecule, `0` where the molecule lacks the element |
| CoefMatrix.FormCoefMat | parseeq.py:257-268 | the rows are the elements of all molecules, each once, and row `r` is `d.get(e, 0)` for each molecule `d` in order |
| CoefMatrix.Entries | parseeq.py:265 | entry `[r][s]` is the count of element `r` in molecule `s`, non-zero only if the molecule names it |
| CoefMatrix.DotRow | parseeq.py:262-266 | a row applied to a vector is the balance of its element |
| CoefMatrix.BalanceOfAbsent | parseeq.py:258-260 | an element no molecule names balances |
| CoefMatrix.NullSpaceIsBalance | parseeq.py:257-268 | a vector is in the null space of the matrix exactly when every element balances |
| NumberTheory.GcdDivides | solveeq.py:36 | `gcd(a, b)` divides both |
| NumberTheory.GcdGreatest | solveeq.py:36 | every common divisor divides `gcd(a, b)` |
| NumberTheory.GcdSeqDivides | solveeq.py:36 | `gcd(*xs)` divides every entry |
| NumberTheory.GcdSeqGreatest | solveeq.py:36 | every common divisor of the entries divides `gcd(*xs)` |
| NumberTheory.GcdSeqZero | solveeq.py:36 | `gcd(*xs)` is `0` exactly when every entry is `0` |
| NumberTheory.LcmMultiple | solveeq.py:34 | `lcm(a, b)` of positive numbers is positive and a multiple of both |
| NumberTheory.LcmSeqMultiple | solveeq.py:34 | `lcm(*xs)` of positive numbers is positive and a multiple of each |
| NumberTheory.LcmSeqOnes | solveeq.py:34 | `lcm` of ones is one |
| Basis.MultiplierFacts | solveeq.py:34 | the multiplier is positive and a multiple of every denominator |
| Basis.ScaledIsExact | solveeq.py:35 | `x * m` is an integer equal to `x` times `m`, with the sign and zeros of `x` |
| Basis.DivisorZero | solveeq.py:36 | the divisor is zero exactly when every entry is zero |
| Basis.ProcBasisOutcome | solveeq.py:32-38 | an empty vector gives `[]`; a non-empty one raises `ZeroDivisionError` exactly when all entries are zero; otherwise the result has the input's length |
| Basis.Proportional | solveeq.py:34-37 | entry by entry, the result is the input times the positive ratio `m / d`, so signs and zeros are kept |
| Basis.QuotientsCoprime | solveeq.py:36-37 | integers divided by their gcd have gcd `1` |
| Basis.Primitive | solveeq.py:36-38 | the result has no common factor |
| Basis.IntegersUnchanged | solveeq.py:32-38 | an integer vector without common factor comes back unchanged |
| Basis.Idempotent | solveeq.py:32-38 | applying the procedure to its own result changes nothing |
| Basis.Example | solveeq.py:32-38 | `[1/2, 3/2, 2]` gives `[1, 3, 4]` |

## Left out

- `solveeq`, `nullspace_basis` and the calls into `ext` (Gaussian elimination, `find_opt_basis_transform`) are numerical code on floating-point matrices and are not part of this model. The same goes for the command line (`make_parser`, `main`) and `setup.py`.
- Basis.ProcBasis: starts from exact rationals. `Fraction(x).limit_denominator(10000)` of a float is floating-point rounding and is not modelled.
- FormulaParser.MergeAction: counts are integers. A count text holding a `.` (such as `1.5`) is reported as `DecimalCount` instead of being read by `float()`, because floating point is not modelled. Counts and the side are `float` in the source and `int` here.
- CoefMatrix.FormCoefMat: the row order is any enumeration of the elements without repetition, returned beside the matrix. The source takes it from the iteration order of a Python `set`, which is not specified. The matrix is a sequence of rows of integers rather than a NumPy array of floats.
- CharClasses: `str.isupper`, `str.islower`, `str.isalpha` and `str.isspace` are read on ASCII only. Unicode letters and spaces beyond ASCII are not modelled.
- FormulaParser.Initial: the stack starts as `[]` rather than `None`. The first turn always runs `action_new` on the missing input, which sets it to `[]` before anything reads it.
- FormulaParser.WriteAction: takes a character. `action_write` cannot receive the missing input, which only ever reaches `action_new`.
- FormulaParser.InputMatches: treats the missing input against a string pattern as no match. In Python that comparison would raise `TypeError`, but the first row of the jump list always catches the missing input first.
- Error messages are not modelled, only the kind of error and its position.
