# Monte Carlo dice simulator — a verified model

This project models `montecarlo.py`, a small dice simulator, in Dafny. The
simulator has three parts:

- a weighted `Die`: a face column fixed at construction and a weight column
  that `change_weight` overwrites in place;
- a `Game`: it rolls a list of dice some number of times and appends one
  (roll number, die number, face) row per die and roll to its results table,
  and it shows that table wide (pivoted: one row per roll, one column per die)
  or narrow (keyed by roll number and die number);
- an `Analyzer`: it computes three statistics over the game's wide table and
  caches each one in a field. The statistics are the jackpot count, the count
  of each combination, and the face counts per roll.

Modules:

- `Outcomes` (outcomes.dfy): the exceptions the code raises, as an `Error`
  datatype, with the `Result` and `Option` wrappers.
- `Dice` (dice.dfy): class `Die`. The face column is a `seq` and the weight
  column an `array<real>`. `ChangeWeight` updates the array in a loop,
  row by row. `Roll` is nondeterministic: it may return any face whose row has
  a nonzero weight.
- `Games` (games.dfy): the `Row` datatype, the pivot from the narrow to the
  wide layout, and class `Game`. `Play` has the source's two nested loops.
- `Analysis` (analysis.dfy): jackpot, combination and face-count functions over
  the wide table, their properties, and class `Analyzer` with its three cache
  fields.
- `Arith` (arith.dfy): facts about row-major indices that the pivot needs.

What is proved, in the system's terms:

- A new die has weight 1.0 on every face, in the given order.
- `change_weight` with an unknown face fails and leaves every weight as it
  was. Otherwise it gives the new weight to exactly the rows showing that
  face. A weight of 0 makes the face impossible to draw.
- `roll(n)` fails exactly when numpy would refuse the probability vector
  `weight / sum(weight)`, or when n is negative. Otherwise it returns n faces,
  each one the die can show, and it changes nothing.
- `play(r)` keeps every earlier row and appends rows roll by roll, then die
  by die. Each appended row holds a face its die can show. On success it
  returns the whole table, which has gained exactly `max(r, 0) * |dice|` rows
  (a negative r appends nothing, as `range(r)` is empty). If a die
  cannot be rolled, the call stops in roll 1 at that die. The rows for the
  dice before it have already been appended.
- The results table is always in one of three states. It is empty, or it is a
  grid of complete rolls numbered from 1, or it repeats some
  (roll number, die number) key. A later `play` on a nonempty table that
  appends at least one row always repeats a key. Rows are never removed, so
  after that every pivot fails. A later call that appends nothing (a count of
  0 or less, no dice, or die 0 unrollable) leaves the table as it was.
- The pivot fails exactly when some key is repeated. Otherwise every narrow
  entry is found in the wide cell for its key, and every wide cell is the
  narrow entry for its key. For r complete rolls of w dice the wide table is
  r by w.
- `jackpot` flags a roll exactly when its row equals the first roll's row. Its
  count equals the number of times the first roll's row occurs, so it lies
  between 1 and the number of rolls.
- `combo` lists each distinct per-roll tuple once. A tuple's count is the
  number of rolls that produced it. Counts do not increase down the table and
  they add up to the number of rolls.
- `face_counts_roll` has one column for each face seen in some roll. Each cell
  is the number of dice in that roll showing that face, so each row adds up to
  the number of dice.

## Where the code and its documentation differ

The model follows the code. Where the code does not do what its docstrings
describe, the model states the code's behaviour and proves the difference:

- Jackpot. The class docstring calls a jackpot a roll whose faces are all the
  same (montecarlo.py:145-146). The code instead compares every roll with the
  first roll's row (montecarlo.py:169). `Analysis.Uniform` and
  `Analysis.UniformFlags` state the documented definition.
  `Analysis.JackpotWithinUniform` proves that the code never counts more than
  the documented definition when the first roll is uniform.
  `Analysis.JackpotDiffersFromUniform` gives inputs where the two counts
  differ.
- Combinations. The docstring says combinations should be sorted
  (montecarlo.py:176). The code groups ordered per-roll tuples
  (montecarlo.py:180), so rolls [1, 2] and [2, 1] are two combinations
  (`Analysis.CombosKeepDieOrder`).
- Roll numbers. Every `play` call numbers its rolls from 1
  (montecarlo.py:107-110). So a later call on a nonempty table that appends
  at least one row
  repeats a key, and every later pivot raises (`Games.ReplayRepeatsKey`, `Games.Game.Play`). The roll numbers do not
  continue from the earlier calls.
- Validation. The code accepts empty or repeated face lists, an empty dice
  list and negative weights (montecarlo.py:31, 47, 93), and so does the model.
  The only weight check is numpy's check on the normalised vector. It accepts
  all-nonpositive weights whose sum is negative, and the model does too
  (`Dice.Rollable`).

## Model

| member | source | states |
|---|---|---|
| Dice.Die.constructor | montecarlo.py:18-31 | the face column is the given list in order, and there is one weight 1.0 per face |
| Dice.FreshDieRollable | montecarlo.py:31 | a newly built die with at least one face can be rolled, because its weights sum to the number of faces |
| Dice.SumOfOnes | montecarlo.py:31 | the default weight column of n faces sums to n |
| Dice.Die.ChangeWeight | montecarlo.py:35-49 | an unknown face raises and leaves every weight unchanged; otherwise exactly the rows with that face get the new weight and the faces stay as they were |
| Dice.Reweighted | montecarlo.py:49 | rows with the given face carry the new weight, all other rows keep theirs, and the column keeps its length |
| Dice.ReweightUnknownFace | montecarlo.py:45-49 | reweighting a face the die does not have changes no weight |
| Dice.ReweightOverrides | montecarlo.py:49 | a later change_weight of the same face overrides an earlier one |
| Dice.ReweightedShows | montecarlo.py:49-64 | after change_weight the face keeps a row with nonzero weight exactly when its new weight is nonzero; it comes up only when the die as a whole is also accepted by numpy (`Rollable`) |
| Dice.Die.Roll | montecarlo.py:53-67 | raises when weight / sum(weight) is not a probability vector or n is negative; otherwise returns exactly n faces, each with a nonzero weight, and leaves the die unchanged |
| Dice.NonzeroWeight | montecarlo.py:64 | a weight column with a nonzero sum has a nonzero weight |
| Dice.RollableCanShow | montecarlo.py:64 | a die numpy accepts has at least one face that can come up |
| Dice.Snapshot | montecarlo.py:70-76 | the shown table pairs each face with its weight, in construction order |
| Dice.Die.Show | montecarlo.py:70-76 | show returns one (face, weight) pair per face row with the current weights |
| Games.Game.constructor | montecarlo.py:89-94 | stores the dice list as given with an empty results table |
| Games.Game.Play | montecarlo.py:96-111 | keeps earlier rows; appends (i + 1, x, face) roll by roll and die by die, each face one its die can show; returns the whole table with max(rolls, 0) times dice new rows; an unrollable die raises in roll 1 after the rows of the dice before it; a later call on a nonempty table that appends at least one row repeats a key |
| Games.FirstPlayIsGrid | montecarlo.py:107-110 | the first play on an empty table leaves complete rolls numbered from 1, or a partial roll 1 when a die raised |
| Games.ReplayRepeatsKey | montecarlo.py:107-110 | a later play on a nonempty table that appends at least one row repeats a key, because roll numbers restart at 1 |
| Games.AppendKeepsRecorded | montecarlo.py:107-110 | whatever one play appends keeps the table empty, a grid of complete rolls, or holding a repeated key |
| Games.KeepsShape | montecarlo.py:107-110 | the rows play has appended so far, in play order after the earlier table, keep the results table in one of those shapes |
| Games.Game.RollDice | montecarlo.py:108-110 | one pass of the inner loop: keeps earlier rows; appends (roll, x, face) for die x = 0, 1, ... with a face that die can show; completes exactly when every die is rollable; otherwise stops at the first unrollable die |
| Games.AppendRoll | montecarlo.py:107-110 | after i complete rolls, the rows of roll i + 1, die by die, extend the play order |
| Games.ShowableAppend | montecarlo.py:109-110 | joining two runs of rows that hold faces their dice can show gives such a run |
| Games.PlayStep | montecarlo.py:107-110 | one more pass of the inner loop keeps the rows of the current play in play order, each a face its die can show, and keeps the earlier table |
| Games.GridHasNoDuplicate | montecarlo.py:107-110 | rows numbered by play within one call never repeat a (roll number, die number) key |
| Games.GridPosition | montecarlo.py:130 | in a grid of width w, position k holds roll k / w + 1 and die k % w, within the complete rolls |
| Games.GridCell | montecarlo.py:130 | in a grid of width w, roll i + 1 of die j sits at position i * w + j |
| Games.GridWidth | montecarlo.py:130 | the pivot's column count is one more than the last die number of a grid |
| Games.Chunks | montecarlo.py:130 | the wide form of r complete rolls of w dice is r rows of w cells; each narrow entry sits in its key's cell and each cell is its key's entry |
| Games.Pivot | montecarlo.py:130 | fails exactly on a repeated key; otherwise each narrow entry is in the cell of its key, each cell is the entry of its key, and the shape is rolls by dice |
| Games.Game.Show | montecarlo.py:113-134 | a form other than "wide" or "narrow" raises; "wide" is the pivot (raising on repeated keys), "narrow" the rows keyed by roll and die number |
| Analysis.Analyzer.constructor | montecarlo.py:150-158 | stores the game with all three caches empty |
| Analysis.Matches | montecarlo.py:169 | one flag per element, set exactly when the element equals the given value |
| Analysis.JackpotMask | montecarlo.py:169 | one flag per roll, set exactly when the roll's row equals the first roll's row; the first roll is always flagged |
| Analysis.CountTrue | montecarlo.py:171 | the sum of a flag column is at most its length, equals it exactly when all flags are set, and is 0 exactly when none is |
| Analysis.CountMatches | montecarlo.py:169-171 | counting the rows equal to a value counts its occurrences |
| Analysis.JackpotCount | montecarlo.py:168-171 | the jackpot count is the number of rolls identical to the first roll, between 1 and the number of rolls |
| Analysis.Analyzer.Jackpot | montecarlo.py:161-171 | a repeated key or an empty table raises and keeps the cache; otherwise it stores the flag column, returns its count and changes neither the game nor the other caches |
| Analysis.UniformFlags | montecarlo.py:145-146 | the documented jackpot: one flag per roll, set exactly when all its faces are equal |
| Analysis.CountImplied | montecarlo.py:171 | a flag column set wherever another one is set has at least its count |
| Analysis.JackpotWithinUniform | montecarlo.py:145-169 | when the first roll is uniform, the code's jackpot count is at most the documented one |
| Analysis.JackpotDiffersFromUniform | montecarlo.py:145-169 | two rolls [1, 2] count 2 in the code and 0 by the documentation; rolls [1, 1], [2, 2] count 1 and 2 |
| Analysis.ConstantTableJackpots | montecarlo.py:168-171 | ten complete rolls of three dice all showing 2 are ten jackpots |
| Analysis.OnlyTwos | montecarlo.py:49-64 | rows rolled with dice [1, 2, 3] weighted [0, 1, 0] all show 2 |
| Analysis.BumpExpand | montecarlo.py:180 | recording a roll adds exactly that roll to the rolls the table stands for |
| Analysis.BumpKeys | montecarlo.py:180 | recording a roll adds its tuple to the listed tuples and keeps all others |
| Analysis.BumpDistinct | montecarlo.py:180 | recording a roll never lists a tuple twice nor a zero count |
| Analysis.TallySpec | montecarlo.py:180 | grouping stands for exactly the rolls of the table, lists exactly the rolled tuples, each once, with positive counts |
| Analysis.InsertPermutes | montecarlo.py:180 | inserting a line by count adds that line and nothing else |
| Analysis.InsertExpand | montecarlo.py:180 | inserting a line adds its rolls and its tuple |
| Analysis.InsertDistinct | montecarlo.py:180 | inserting a new tuple keeps the tuples distinct |
| Analysis.InsertBound | montecarlo.py:180 | inserting keeps every count under a bound that the new line and the table respect |
| Analysis.InsertOrdered | montecarlo.py:180 | inserting into a table ordered by count keeps it ordered |
| Analysis.SortSpec | montecarlo.py:180 | sorting by count only reorders lines and leaves counts non-increasing |
| Analysis.ExpandOutside | montecarlo.py:180 | a tuple not listed stands for no roll |
| Analysis.ExpandAt | montecarlo.py:180 | with distinct tuples, a line's count is the number of rolls with its tuple |
| Analysis.TotalIsCard | montecarlo.py:180 | the counts of a table add up to the number of rolls it stands for |
| Analysis.TableCounts | montecarlo.py:180 | each line's tuple was rolled and its count is the number of rolls with that tuple |
| Analysis.TableCovers | montecarlo.py:180 | every rolled tuple has a line |
| Analysis.TableDistinct | montecarlo.py:180 | no two lines list the same tuple |
| Analysis.Combos | montecarlo.py:179-182 | each distinct per-roll tuple listed once with the number of rolls producing it; every rolled tuple listed; counts non-increasing; counts add up to the number of rolls |
| Analysis.CombosOfDistinctRolls | montecarlo.py:179-182 | when no two rolls are alike, there is one line per roll and every count is 1 |
| Analysis.CombosKeepDieOrder | montecarlo.py:176-180 | rolls [1, 2], [2, 1], [3, 3] give three combinations of count 1: tuples are not sorted |
| Analysis.Analyzer.Combo | montecarlo.py:173-182 | a repeated key raises and keeps the cache; otherwise it stores and returns the combination table of the wide table, which is empty for a game with no rolls |
| Analysis.Flatten | montecarlo.py:191 | the faces seen are exactly the faces of some roll |
| Analysis.Dedup | montecarlo.py:191 | the column faces are the seen faces, each listed once |
| Analysis.CountsOf | montecarlo.py:191 | each cell of a row is the multiplicity of its column's face |
| Analysis.DropAll | montecarlo.py:191 | removing every copy of a face removes as many dice as showed it |
| Analysis.CountsAgree | montecarlo.py:191 | rolls that agree on the column faces give equal count rows |
| Analysis.TotalOfCounts | montecarlo.py:191 | counting every face of a covering column list without repeats adds up to the number of dice |
| Analysis.FaceCounts | montecarlo.py:190-192 | the columns are exactly the faces seen in some roll, each once; a cell is the number of dice showing that face in that roll (0 if none); each row adds up to the number of dice |
| Analysis.FaceCountsOfTwoRolls | montecarlo.py:190-192 | one die rolling 1 then 3 gives columns 1 and 3 only, with rows [1, 0] and [0, 1] |
| Dice.ChangeWeightScenario | montecarlo_tests.py:25-34 | on a die [1, 2, 3], change_weight(1, 2.5) shows weights 2.5, 1.0, 1.0 and change_weight(4, ...) is refused with the weights unchanged |
| Games.WideShapeAfterTwoRolls | montecarlo_tests.py:80-91 | two fair dice played twice show a wide table of 2 rows and 2 columns, and show("bogus") raises |
| Analysis.ForcedJackpot | montecarlo.py:49-171 | three uses of one die [1, 2, 3] with faces 1 and 3 weighted 0, played 10 times, give a jackpot count of 10 |
| Analysis.NoRollsEmptyTables | montecarlo.py:179-191 | a game with no rolls pivots to the empty wide table, and both its combination table and its face-count table are empty |
| Analysis.Analyzer.FaceCountsRoll | montecarlo.py:184-192 | a repeated key raises and keeps the cache; otherwise it stores and returns the face-count table of the wide table |

## Left out

- Dice.Die.Roll: states which faces can come up and how many are drawn, not
  their probabilities. The draw with probabilities `weight / sum(weight)`
  (montecarlo.py:64) is random and uses floating point, so the model makes a
  nondeterministic choice among faces with nonzero weight.
- Weights are exact reals. Floating-point rounding, NaN and infinities are not
  modelled. numpy's tolerance when it checks that the probabilities sum to 1
  is not modelled either.
- The weight type check `np.can_cast(type(weight), 'float')`
  (montecarlo.py:47) is not modelled: `ChangeWeight` takes a real.
- `Die(1.5)` raising `TypeError` (montecarlo_tests.py:22-23) comes from
  Python's `len()` on a float. Here faces are always a sequence.
- Die.show returns the die's own DataFrame, which the caller can then mutate.
  The model returns a copy of the (face, weight) pairs.
- pandas representation details are not modelled: dtypes, index and column
  names, the float cells that `fillna(0)` produces, and `DataFrame` versus
  `Series`. Tables are sequences: wide row i is roll number i + 1 and column
  j is die number j.
- Games.Pivot: defined only for tables `play` can produce (empty, complete
  rolls numbered from 1, or holding a repeated key). pandas fills gaps in
  other tables with NaN, and that is not modelled.
- Analysis.Combos: pandas' `value_counts` leaves the order of equal counts
  unspecified. The model keeps such lines in the order their tuples first
  appear.
- Analysis.FaceCounts: pandas orders the face columns by its own index
  union. The model lists faces in the order they first appear, row by row.
- Games.Game.constructor: the code stores the caller's list object
  (montecarlo.py:93), so dice added to or removed from that list afterwards
  take part in later plays. The model copies the list into a `seq` at
  construction. Only the `Die` objects themselves stay shared, so a weight
  changed after construction is seen by later plays.
- The unit-test runner that appends results to a file
  (montecarlo_tests.py:144-153) is I/O. `setup.py` is packaging metadata.
  Neither is part of this model.
