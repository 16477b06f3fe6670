# Numbers game: a verified model

This project models the core of a browser game of number puzzles. A player signs in with a
name, picks a difficulty (easy, medium or hard) and plays nine timed sub-levels. There are
three levels of three sub-levels each:

- **Level 1.** Click the numbers of a grid in the announced order: all even numbers, all
  multiples of k, a step-2 progression, or all primes, ascending or descending.
- **Level 2.** Catch falling numbers in the order of a short run: doubling, consecutive, or
  multiples of k. A spawn scheduler guarantees that every number of the run appears.
- **Level 3.** Drag numbers and operators into five typed slots so that `a op1 b op2 c`
  evaluates to the target. The evaluator uses the usual precedence of `*` and `/` over `+`
  and `-`.

Correct answers earn points times the difficulty multiplier. Wrong answers cost a penalty that
never takes the score below zero. Time left at the end of a sub-level is paid as a bonus. At
the end of the game the result goes to a leaderboard kept in the browser's key-value store:
one entry per player, the best score kept, and the list sorted by score.

Every `Math.random()` of the program is a parameter here: a real draw in [0, 1). Every
generator is therefore a function of its draws, and every property below holds for all draws.
Rejection loops read a list of draws, and their termination is a precondition: the list
contains a draw that the loop accepts. Scores and evaluator values are exact reals.

Modules, one per area of the program:

- `Utils`: `randomInt`, `shuffle`, `formatTime`, `clamp` and `isPrime`.
- `Tuning`: the difficulty table and the scoring constants.
- `Expression`: the evaluator and the printer of Level 3.
- `Answers`: the verdict shared by the Level-1 click and the Level-2 hit.
- `Lists`: de-duplication, filtering and sorting of number lists.
- `LevelOne`, `LevelTwo` and `LevelThree`: the task generators.
- `Spawner`: the Level-2 spawn interval.
- `SlotBoard`: the Level-3 board.
- `Session`: the game state and its handlers.
- `Records`: the leaderboard entry and its comparator.
- `LocalStorage`: the storage helper.
- `RatingPage`: the leaderboard sort.
- `NameCheck`: the name validator.
- `Wrappers`: `Option`.

Where the program updates state in place, the model does too. These are classes with
`modifies` clauses:

- the game state: `Session.GameSession`, with its `Card` and `FallingNode`;
- the spawn scheduler: `Spawner.SpawnScheduler`;
- the slot board: `SlotBoard.Board`;
- the store: `LocalStorage.LocalStore`;
- the sort state: `RatingPage.SortControl`.

Each method states its whole new state through a `Snap()` or field equalities. The loops of
the program are methods with loop invariants:

- `shuffle`, `isPrime`, the divisor search, the 50-attempt retry, the decoy loops and the
  extra-operator loop;
- each of these is proved equal to a specification function, and lemmas state the program's
  promises about that function.

## Model

| member | source | states |
|---|---|---|
| Utils.Round | js/game.js:128 | `Math.round` lands within half a unit of its argument, halves going up |
| Utils.Scaled | js/utils.js:3-5 | the product of a draw and a count lies in [0, count), and is 0 for count 0 |
| Utils.ScaledIsProduct | js/utils.js:3-5 | the repeated-addition form equals the real product `r * n` |
| Utils.RandomInt | js/utils.js:3-5 | `randomInt(min, max)` lies in [min, max] for every draw in [0, 1) |
| Utils.RandomIntHits | js/utils.js:3-5 | every value of [min, max] is produced by some draw |
| Utils.Swap | js/utils.js:10 | the destructuring swap keeps the length |
| Utils.SwapWrites | js/utils.js:10 | the swap is the two element writes of the destructuring assignment, in order |
| Utils.SwapPermutes | js/utils.js:10 | a swap is a permutation |
| Utils.Passes | js/utils.js:8-11 | any number of passes of the loop keeps the length |
| Utils.PassesPermute | js/utils.js:8-11 | any number of passes of the loop is a permutation |
| Utils.PassWrites | js/utils.js:8-11 | the two writes of one more pass on the array extend the passes done so far by one |
| Utils.FisherYates | js/utils.js:6-13 | `shuffle` returns a permutation of its input, of the same length |
| Utils.Shuffle | js/utils.js:6-13 | the swapping loop over the copy computes `FisherYates`; the input is a value and cannot change |
| Utils.ClockFields | js/utils.js:14-18 | seconds field below 60, and 60·minutes + seconds = floor(max(0, s)); negatives count as 0 |
| Utils.DigitChar | js/utils.js:17-18 | a digit's character denotes that digit |
| Utils.DecimalString | js/utils.js:17-18 | `String(n)` is non-empty, and at most two characters below 100 |
| Utils.DecimalStringValue | js/utils.js:17-18 | reading `String(n)` back as decimal digits gives n |
| Utils.PadTwo | js/utils.js:17-18 | `padStart(2, '0')` adds one leading zero to a single character and leaves longer strings alone |
| Utils.PadTwoValue | js/utils.js:17-18 | padding with zeros keeps the value the digits denote |
| Utils.FormatTime | js/utils.js:14-20 | the text ends in `:` followed by two characters |
| Utils.FormatTimeReadsBack | js/utils.js:14-20 | reading "mm:ss" back gives the minutes and seconds of `ClockFields`, with a two-digit seconds field |
| Utils.Clamp | js/utils.js:32-34 | the result lies in [lo, hi] when lo <= hi; a value inside is kept; below gives lo; above gives hi |
| Utils.NoDivisorAboveRoot | js/utils.js:37-39 | when nothing below i divides n and n < i·i, nothing between 1 and n divides n, so the loop may stop at the root |
| Utils.IsPrime | js/utils.js:35-41 | true iff n is prime, and iff n >= 2 with no divisor d where 2 <= d and d·d <= n |
| Tuning.ScoreMultiplier | js/game.js:97 | the multiplier lies in [1, 2], and is 1 before a difficulty is chosen |
| Tuning.BonusMultiplier | js/game.js:1148-1149 | the time-bonus multiplier, with its fallback to the easy row, equals the scoring multiplier |
| Tuning.PoolMax | js/game.js:174 | the Level-1 maximum lies in [60, 150] |
| Tuning.SublevelTime | js/game.js:1181-1182 | the clock is max(25, time − 5·(level − 1)): at least 25, and otherwise the table time less five per level |
| Expression.Round2 | js/game.js:712 | rounding to two places moves a value by at most half a hundredth |
| Expression.Round2Idempotent | js/game.js:712 | rounding to two places twice is rounding once |
| Expression.Apply | js/game.js:670-708 | one step fails exactly on an unknown operator or a zero divisor |
| Expression.Rounded | js/game.js:712 | the result is the value rounded to two places, and rounding it again changes nothing |
| Expression.Parse | js/game.js:661-710 | the precedence reading of five slots is always an operation |
| Expression.Evaluate | js/game.js:649-713 | a value is produced only for two known operators, and it is already rounded to two places |
| Expression.EvaluateIsTreeValue | js/game.js:649-713 | the evaluator equals the value of the precedence tree rounded to two places, failing on the same inputs |
| Expression.EvaluateExample | js/game.js:649-713 | (6, `*`, 3, `-`, 4) evaluates to 14 |
| Expression.HighThenLow | js/game.js:667-678 | `*` or `/` before `+` or `-` computes `(a op1 b) op2 c` |
| Expression.LowThenHigh | js/game.js:680-691 | `+` or `-` before `*` or `/` computes `a op1 (b op2 c)` |
| Expression.SamePriorityLeftToRight | js/game.js:693-710 | equal priorities compute left to right |
| Expression.EvaluateFails | js/game.js:650-655 | `null` exactly for an unknown operator or a zero divisor that the evaluation reaches |
| Expression.IntString | js/game.js:722 | a printed integer is non-empty and holds no parenthesis or space |
| Expression.DigitsPlain | js/game.js:722 | a printed non-negative integer is all decimal digits |
| Expression.Format | js/game.js:716-732 | the printed form is the three numbers, two operators and four spaces, plus two characters exactly when the parentheses are needed |
| Expression.FormatShowsTree | js/game.js:716-732 | the printed solution is exactly the tree the evaluator computes, with the parentheses exactly where the tree needs them |
| Expression.FormatParenthesises | js/game.js:716-732 | parentheses appear exactly when op1 is low-priority and op2 high-priority |
| Expression.DropBracket | js/game.js:726 | removing the parentheses of a bracketed tail leaves the unbracketed text |
| Expression.JoinAssoc | js/game.js:722 | joining with single spaces is associative |
| Expression.StripParens | js/game.js:726 | the bracketed form, with its two parentheses removed, is the plain infix form |
| Answers.Classify | js/game.js:366-385 | correct iff the value is the expected one; out of order iff not expected but in the sequence; wrong iff not in the sequence |
| Answers.OutOfOrderIsElsewhere | js/game.js:381 | an out-of-order value sits at another position of the sequence |
| Answers.EarlierValueIsOutOfOrder | js/game.js:381 | a value already taken earlier is reported out of order, not wrong |
| Lists.Dedup | js/game.js:194 | `[...new Set(xs)]` has no repeats, is no longer than xs, and holds exactly the values of xs |
| Lists.DedupOfDistinct | js/game.js:194 | a list without repeats is its own de-duplication |
| Lists.Pigeonhole | js/game.js:194 | a list holding every value of a repeat-free list is at least as long |
| Lists.DistinctCounts | js/game.js:194 | no repeats iff no value occurs twice |
| Lists.PermutationKeepsDistinct | js/utils.js:6-13 | a permutation of a repeat-free list is repeat-free |
| Lists.Insert | js/game.js:196 | inserting adds exactly one occurrence of the value |
| Lists.InsertFrom | js/game.js:196 | inserting brings in no value but the inserted one |
| Lists.InsertSorted | js/game.js:196 | inserting into an ordered list keeps it ordered |
| Lists.InsertStrictlySorted | js/game.js:196 | inserting a new value into a strictly ordered list keeps it strictly ordered |
| Lists.SortNums | js/game.js:196 | the numeric sort is a permutation of its input |
| Lists.DistinctTail | js/game.js:194 | the tail of a repeat-free list is repeat-free and lacks the head |
| Lists.SortNumsSorted | js/game.js:184 | the sort is ordered by the comparator, and strictly so on repeat-free input |
| Lists.StrictlySortedIsDistinct | js/game.js:196 | a strictly ordered list has no repeats |
| Lists.AtMost | js/game.js:313 | `filter(p => p <= maxNum)` keeps exactly the values up to the bound, without adding repeats |
| Lists.AtMostKeepsAll | js/game.js:313 | a filter every value passes keeps the list as it is |
| Lists.Reversed | js/game.js:278 | `reverse` reads the list from its far end |
| Lists.ReversedFacts | js/game.js:278 | reversing keeps the values and turns an ascending order into a descending one |
| Lists.SameMembers | js/utils.js:6-13 | a permutation holds the same values |
| LevelOne.Filter | js/game.js:196 | the filter keeps exactly the values that pass the rule's test, without adding repeats |
| LevelOne.Pick | js/game.js:196 | filter-then-sort gives exactly the passing values, ordered in the announced direction, strictly when the pool has no repeats |
| LevelOne.RandomInts | js/game.js:192 | n draws of `randomInt(lo, hi)` give n values in [lo, hi] |
| LevelOne.EvenUps | js/game.js:187-190 | rounding up to even gives an even value at most one above the draw |
| LevelOne.EvenUpsBounds | js/game.js:187-190 | the even guaranteed values stay within [lo, hi + 1] |
| LevelOne.AssembleCorrect | js/game.js:196-217 | the sequence is strictly ordered and non-empty once a value passes; the grid holds only pool and extra values; with four or more passing pool values the grid has no repeats and the sequence is every passing value |
| LevelOne.Assemble | js/game.js:196-217 | the grid is the pool's values, with or without the extras, as a multiset |
| LevelOne.FilterRuleCorrect | js/game.js:196-217 | for a pool within [lo, hi], the sequence is ordered, non-empty and every grid value lies in [lo, hi] |
| LevelOne.DedupPool | js/game.js:194 | the merged pool keeps the bounds of its parts and the first guaranteed value |
| LevelOne.EvensPoolFacts | js/game.js:187-194 | the evens pool lies in [2, maxNum] and holds an even value |
| LevelOne.EvensCorrect | js/game.js:179-218 | the evens rule gives an ordered non-empty sequence and a grid within [2, maxNum] |
| LevelOne.EvensTask | js/game.js:179-218 | the task's rule is the evens and its direction follows the direction draw |
| LevelOne.Scale | js/game.js:231-234 | each guaranteed value is its factor times k |
| LevelOne.ScaledFactors | js/game.js:230-234 | a factor up to min(15, floor(maxNum / k)) gives a multiple of k within [4, maxNum] |
| LevelOne.ScaledFactor | js/game.js:230-233 | one factor within the bound gives a multiple of k within [4, maxNum] |
| LevelOne.MultiplesPoolFacts | js/game.js:223-238 | the multiples pool holds a multiple of k |
| LevelOne.MultiplesCorrect | js/game.js:221-262 | the sequence is exactly the grid's multiples of k, ordered and non-empty, and the grid lies in [4, maxNum] |
| LevelOne.MultiplesTask | js/game.js:221-262 | the task's rule is multiples of a factor from 2 to 9 and its direction follows the direction draw |
| LevelOne.ProgressionStart | js/game.js:268-269 | the start of the progression lies in [1, 8] |
| LevelOne.ProgressionOfCorrect | js/game.js:269-298 | five step-2 values in the announced direction, all in the grid; every other grid value lies above them; no repeats |
| LevelOne.ProgressionSteps | js/game.js:270-279 | the literal values, reversed when descending, form the step-2 progression, strictly ordered |
| LevelOne.ProgressionGrid | js/game.js:286-293 | noise strictly above the progression makes the grid values up to the maximum exactly the progression |
| LevelOne.ProgressionCorrect | js/game.js:265-300 | the progression rule's promise for every draw, with noise all above the progression's maximum |
| LevelOne.ProgressionTask | js/game.js:265-300 | the task's rule is a progression starting from 1 to 8 and its direction follows the direction draw |
| LevelOne.PrimeList | js/game.js:309-312 | the hard-coded list holds 15 to 35 values |
| LevelOne.TrialDivision | js/game.js:309-312 | passing trial division from 2 up makes a list value prime |
| LevelOne.BasePrimesPass | js/game.js:309 | the fifteen base values pass trial division |
| LevelOne.MediumPrimesPass | js/game.js:311 | the values added above 60 pass trial division |
| LevelOne.HardPrimesPass | js/game.js:312 | the values added above 100 pass trial division |
| LevelOne.ChainIncreasing | js/game.js:309-312 | neighbour order of the list extends to every pair |
| LevelOne.PrimeListPrime | js/game.js:309-313 | every listed value is prime |
| LevelOne.PrimeListIncreasing | js/game.js:309-312 | the list is increasing |
| LevelOne.PrimeListFacts | js/game.js:309-313 | the list holds only primes, no repeats, and all fifteen base primes |
| LevelOne.ShuffledPrefix | js/game.js:315 | the first five of a shuffled repeat-free list are repeat-free and come from that list |
| LevelOne.GuaranteedFacts | js/game.js:313 | the guaranteed primes are primes within [2, maxNum] |
| LevelOne.SelectedFacts | js/game.js:315 | five distinct selected primes within [2, maxNum] |
| LevelOne.RepickFacts | js/game.js:324 | the fallback extras are primes within [2, maxNum] |
| LevelOne.SelectedReachSequence | js/game.js:319-321 | the selected primes all reach the sorted primes of the pool |
| LevelOne.PrimesCorrect | js/game.js:302-340 | the primes rule gives an ordered sequence of at least five values, so its fallback never runs, and a repeat-free grid within [2, maxNum] |
| LevelOne.PrimesTask | js/game.js:302-340 | the task's rule is the primes and its direction follows the direction draw |
| LevelOne.Level1TaskCorrect | js/game.js:172-347 | for every draw: grid within [1, maxNumber]; a filter rule's sequence is exactly the grid's passing values; the progression's sequence is exactly the grid values up to its largest |
| LevelOne.GenerateLevel1Task | js/game.js:172-347 | the chosen rule's direction follows the direction draw; a multiples factor is from 2 to 9 and a progression start from 1 to 8 |
| LevelTwo.CanAvoidTail | js/game.js:411-413 | a rejected draw leaves a stream that still ends |
| LevelTwo.FirstAvoiding | js/game.js:409-414 | the accepted draw is the first whose value is outside the run |
| LevelTwo.Avoided | js/game.js:409-414 | the loop settles on a value of the range outside the run |
| LevelTwo.DrawAvoiding | js/game.js:409-414 | the rejection loop computes `Avoided`, a value of the range outside the run |
| LevelTwo.ExtraValues | js/game.js:408-415 | twelve extras, each in the range and outside the run |
| LevelTwo.DrawExtras | js/game.js:408-415 | the loop over the twelve streams computes `ExtraValues` |
| LevelTwo.Run | js/game.js:406 | a run has at most four values |
| LevelTwo.RuleOf | js/game.js:402-489 | every rule the draws choose has its parameters in the ranges the program draws from |
| LevelTwo.GenerateLevel2Task | js/game.js:401-493 | the generator computes `Level2Task` for its draws |
| LevelTwo.DoublingRun | js/game.js:405-406 | the filter `n <= 100` drops nothing: the run is start, 2·start, 4·start, 8·start, ascending |
| LevelTwo.MultiplesRunSorted | js/game.js:457-462 | the multiples run ascends strictly |
| LevelTwo.RunFacts | js/game.js:405-462 | each run holds four values ascending, with its rule's shape |
| LevelTwo.MultiplesReversed | js/game.js:465 | the descending multiples run reads (f+3−i)·k |
| LevelTwo.GridFacts | js/game.js:478-492 | the falling numbers hold the whole run, every other one is an extra of the range, no repeats, 5 to 16 values |
| LevelTwo.AnnouncedShape | js/game.js:465-483 | the announced sequence has its rule's shape in the announced direction |
| LevelTwo.Announced | js/game.js:465-483 | the announced sequence has the run's length and exactly the run's values |
| LevelTwo.FallingGrid | js/game.js:408-492 | the falling numbers contain the announced sequence, and every other number is a distinct extra of the rule's range |
| LevelTwo.Falling | js/game.js:408-492 | the falling numbers are the run and the extras with repeats removed, as a multiset |
| LevelTwo.Level2TaskCorrect | js/game.js:401-493 | every task the generator can hand back keeps its shape and grid promise |
| LevelTwo.Level2Task | js/game.js:401-493 | the task uses the drawn rule, whose parameters are in range; only the multiples rule, with the direction draw at 0.5 or above, is descending |
| Spawner.CountMissing | js/game.js:598 | the count of unseen positions is 0 exactly when every value of the sequence has appeared |
| Spawner.CountMissingShrinks | js/game.js:591 | recording a value never adds an unseen position, and removes one when the value was unseen |
| Spawner.NotSpawned | js/game.js:608 | the unseen values are exactly those of the sequence not yet spawned, empty iff all appeared |
| Spawner.PendingDrops | js/game.js:588-631 | each kind of spawning tick lowers the progress measure |
| Spawner.OrdinaryPick | js/game.js:597-631 | a needed spawn is an unseen value of the sequence, any other spawn a grid value that is not new; nothing is needed once every value appeared; with the 60% coin an unseen expected value is the one spawned; with the 30% coin, while a value is unseen, the spawn is needed |
| Spawner.SpawnScheduler.constructor | js/game.js:564-572 | the counters start at zero with nothing spawned |
| Spawner.SpawnScheduler.Step | js/game.js:574-641 | a tick counts; at six falling numbers it spawns nothing and changes nothing else; it forces the next queued value after three ticks without one or on every fifth tick, advancing the queue and resetting the counter; any other tick spawns `OrdinaryPick`, keeps the queue position and resets or bumps the counter; it stops iff 100 ticks passed and every value appeared; it keeps the scheduler invariant and lowers the progress measure while the queue has entries |
| Spawner.SpawnScheduler.OrdinarySpawn | js/game.js:594-631 | an unforced tick spawns `OrdinaryPick`; a needed value is recorded and resets the counter, any other value bumps it; the tick count, queue position and running flag are unchanged |
| SlotBoard.OutcomeOf | js/game.js:1053-1087 | incomplete iff some slot is empty; solved iff all slots are full and the value is within 0.01 of the target |
| SlotBoard.SolutionSolves | js/game.js:1084 | laying out the hidden expression solves the board |
| SlotBoard.FarResultIsWrong | js/game.js:1084-1089 | a value off by 0.01 or more is wrong |
| SlotBoard.Board.Values | js/game.js:1053 | the five slot values are each empty or of the slot's type |
| SlotBoard.Board.ValueAt | js/game.js:1053 | a filled slot's value has the slot's type |
| SlotBoard.Board.constructor | js/game.js:900-926 | one enabled card per number, then per operator, and five empty slots |
| SlotBoard.Board.ReturnCard | js/game.js:929-943 | returning a card enables it again; an unknown id changes nothing |
| SlotBoard.Board.Drop | js/game.js:994-1021 | a card of the wrong type changes nothing; otherwise the previous card is enabled again and the new card fills the slot, disabled; board invariant kept |
| SlotBoard.Board.ClearSlot | js/game.js:1025-1033 | clearing empties the slot and enables its card; board invariant kept |
| SlotBoard.Board.DropOnRow | js/game.js:954-980 | a placed card dropped on a row leaves every slot and is enabled again; any other drop changes nothing |
| SlotBoard.Board.Check | js/game.js:1052-1095 | the outcome is `OutcomeOf`; a solution earns the base points, a wrong result costs one penalty, and the other outcomes change nothing |
| Session.AfterSuccessAdvances | js/game.js:1154-1164 | a success moves one sub-level forward and never locks a level; it unlocks every level it enters; it ends the game exactly after sub-level 3 of level 3 |
| Session.AfterSuccess | js/game.js:1154-1164 | the game ends exactly after the last sub-level of level 3; otherwise the next stage stays on the level or moves one up and never locks a level |
| Session.SuccessesToWin | js/game.js:1154-1164 | from any sub-level, exactly the successes up to the ninth lead to the win, with all levels unlocked |
| Session.Rewarded | js/game.js:96-100 | `addScore` adds between base and 2·base, and exactly base before a difficulty is chosen |
| Session.Penalised | js/game.js:102-106 | the penalty result is never negative, is 0 or at least ten below the old score, and is max(0, score − 10·mult) |
| Session.TimeBonus | js/game.js:1149 | the bonus is never negative and lies between the seconds left and twice that |
| Session.Scale | js/game.js:98 | a factor in [1, 2] keeps an amount between itself and its double |
| Session.RoundedScale | js/game.js:1149 | the rounded bonus stays between the seconds left and twice that |
| Session.HardBonusCountsTwice | js/game.js:1149-1151 | the multiplier applies twice to the bonus: on hard every second left is worth four points |
| Session.SpawnMark | js/game.js:504 | a falling number remembers the expected value exactly when the index is in range and that value is not 0 |
| Session.MissUsesSpawnTime | js/game.js:508-513 | a needed number that appeared while another value was expected is never penalised |
| Session.MissPenalised | js/game.js:510 | a number that is not needed, or that appeared when no value was expected, is never penalised when it leaves the screen |
| Session.Card.constructor | js/game.js:358-360 | a new card carries its value and is not yet correct |
| Session.FallingNode.constructor | js/game.js:496-504 | a new falling number carries its value, needed flag and spawn-time mark, unprocessed |
| Session.GameSession.ResultRecord | js/game.js:126-133 | the saved record carries the player, the level, the reason and the date, with the score rounded to the nearest integer |
| Session.GameSession.constructor | js/game.js:34-48 | the initial state: level 1, sub-level 1, score 0, level 1 unlocked, no difficulty |
| Session.GameSession.AddScore | js/game.js:96-100 | only the score changes, by `Rewarded` |
| Session.GameSession.ApplyPenalty | js/game.js:102-106 | only the score changes, by `Penalised`, so it stays non-negative |
| Session.GameSession.StartTimer | js/game.js:82-86 | the clock is set and runs; nothing else changes |
| Session.GameSession.Advance | js/game.js:1154-1164 | the success step moves the game as `AfterSuccess` says, or schedules the win; only level, sub-level and unlocked levels change |
| Session.GameSession.Tick | js/game.js:86-92 | a tick takes one second off; at zero the clock stops and the sub-level fails |
| Session.GameSession.CompleteSublevel | js/game.js:1133-1165 | the timers stop and the index resets to 0; a failure schedules the same sub-level; a success adds the time bonus and moves as `AfterSuccess` says, or schedules the win |
| Session.GameSession.StartSublevel | js/game.js:1167-1192 | a locked level changes nothing; otherwise the sub-level is set, the sequence installed, difficulty defaults to easy, and the clock is `SublevelTime` |
| Session.GameSession.SelectDifficulty | js/game.js:1194-1210 | a new game: the difficulty is set; score, level, sub-level and unlocked levels reset; the first sub-level is scheduled |
| Session.GameSession.DevSkip | js/game.js:1229-1235 | every level is unlocked and the difficulty is kept or set to easy; a level from 1 to 3 starts at its first sub-level with that level's time, the timer running and the task's sequence expected from its start; any other level changes nothing else |
| Session.GameSession.FinishGame | js/game.js:120-147 | the timers stop; the rounded result is added to the leaderboard and saved as the last result exactly when a difficulty was chosen |
| Session.GameSession.Answer | js/game.js:366-387 | the expected value advances the index by exactly one and earns the points; anything else leaves the index and costs one penalty |
| Session.GameSession.ClickCard | js/game.js:361-387 | a card already correct is ignored; otherwise the answer step with a third of the base points, marking the card on success |
| Session.GameSession.Spawn | js/game.js:495-504 | a new number remembers the value expected at this moment |
| Session.GameSession.HandleFallingHit | js/game.js:519-549 | the first hit is answered for half the base points; later hits on the same number change nothing |
| Session.GameSession.Missed | js/game.js:508-513 | a number that falls out of view costs one penalty exactly when it was needed and was the expected value at spawn time |
| Records.LexCompare | js/rating.js:48-50 | the text order returns −1, 0 or 1, and 0 exactly for equal strings |
| Records.LexCompareAntisymmetric | js/rating.js:48-50 | swapping the strings negates the comparison |
| Records.Compare | js/rating.js:43-50 | for the score and level columns the comparator is non-positive exactly when the first record comes first in the chosen direction; for the text columns it is −1, 0 or 1, and 0 exactly for equal texts |
| Records.CompareTotal | js/rating.js:43-51 | of two entries one may always come first |
| Records.Insert | js/rating.js:43 | inserting adds exactly one occurrence of the entry |
| Records.SortBy | js/rating.js:43 | the sort keeps the length |
| Records.InsertSorted | js/rating.js:43 | inserting into a sorted list keeps it sorted |
| Records.SortByCorrect | js/rating.js:41-51 | the sorted copy is ordered by the comparator and holds the same entries |
| Records.SortBySorted | js/rating.js:41-51 | neighbours of the sorted copy are in comparator order |
| Records.SortByPermutes | js/rating.js:41-51 | the sorted copy is a permutation of the input |
| Records.SortedNumeric | js/rating.js:44-45 | for score and level, a sorted list is non-decreasing ascending and non-increasing descending at every pair |
| LocalStorage.SafeParse | js/storage.js:9-15 | a missing key reads as `null`, an unparseable text gives the fallback, and a parseable one its value |
| LocalStorage.RatingOf | js/storage.js:36-41 | a non-empty rating comes from a stored text that parses to exactly that list |
| LocalStorage.RatingFallback | js/storage.js:36-41 | `getRating` is `[]` whenever the key is missing, fails to parse or is not an array |
| LocalStorage.FindByName | js/storage.js:69 | the index of the first entry with the name, or −1 when there is none |
| LocalStorage.UpsertExisting | js/storage.js:69-73 | a listed player's first entry is replaced only by a strictly higher score; every other entry is kept |
| LocalStorage.UpsertNew | js/storage.js:74-76 | a new player is appended, so the list grows by one |
| LocalStorage.UpsertMultiset | js/storage.js:69-76 | the edit adds the record, exchanges the player's entry, or changes nothing |
| LocalStorage.Upsert | js/storage.js:69-76 | the list keeps its length or grows by one, and the player is listed afterwards |
| LocalStorage.Filter | js/storage.js:90-92 | exactly the entries with the name |
| LocalStorage.FilterAppend | js/storage.js:90-92 | filtering keeps list order |
| LocalStorage.FilterCounts | js/storage.js:90-92 | each entry of the player is kept as often as it occurs, and no other entry |
| LocalStorage.LocalStore.constructor | js/storage.js:3-7 | a store with none of the three keys |
| LocalStorage.LocalStore.CurrentPlayerName | js/storage.js:30-32 | the name reads '' exactly when the key is missing or empty |
| LocalStorage.LocalStore.SetCurrentPlayerName | js/storage.js:18-29 | the name key holds the name and reads back; the other keys are unchanged |
| LocalStorage.LocalStore.ClearCurrentPlayer | js/storage.js:33-35 | the name key is removed and reads ''; the other keys are unchanged |
| LocalStorage.LocalStore.SaveRating | js/storage.js:42-59 | what is written reads back unchanged; the other keys are unchanged |
| LocalStorage.LocalStore.AddRatingRecord | js/storage.js:60-79 | the stored list becomes the upserted list sorted by score descending: ordered, and a permutation of the upsert |
| LocalStorage.LocalStore.ClearRating | js/storage.js:80-82 | the leaderboard key is removed and reads `[]` |
| LocalStorage.LocalStore.SaveLastResult | js/storage.js:83-85 | the last result is written and reads back as that record |
| LocalStorage.LocalStore.PlayerRecords | js/storage.js:90-92 | exactly the stored entries with the name |
| LocalStorage.LocalStore.ClearAllData | js/storage.js:93-98 | all three keys are removed; then the name reads '', the leaderboard `[]`, the last result `null` |
| RatingPage.ApplySort | js/rating.js:40-52 | a sorted copy: a permutation of the input, ordered by the current column |
| RatingPage.ApplySortNumeric | js/rating.js:44-45 | for score and level the copy is monotone in the announced direction |
| RatingPage.NextSort | js/rating.js:88-92 | a click on the current column flips the direction; on another column it sorts that column ascending |
| RatingPage.NextSortTwice | js/rating.js:88-92 | two clicks on the current column restore the sort |
| RatingPage.NewColumnThenFlip | js/rating.js:88-92 | a new column clicked twice sorts descending |
| RatingPage.SortControl.constructor | js/rating.js:7 | the page opens sorted by score, highest first |
| RatingPage.SortControl.HandleSort | js/rating.js:84-94 | the sort state becomes `NextSort`, and the shown list is the sorted copy |
| NameCheck.LeadingSpaces | js/auth.js:21 | the count of opening whitespace characters, stopping at the first visible one |
| NameCheck.TrailingSpaces | js/auth.js:21 | the count of closing whitespace characters, stopping at the last visible one |
| NameCheck.Trim | js/auth.js:21-24 | `trim` gives the middle slice that neither starts nor ends with whitespace, and is empty iff the input is all whitespace |
| NameCheck.TrimmedSlice | js/auth.js:21-24 | the slice between the leading and the trailing whitespace starts and ends on a non-space, leaves only whitespace behind it, and is empty iff the input is all whitespace |
| NameCheck.AllSpacesWhenTrimmedAway | js/auth.js:21 | the trim is everything iff every character is whitespace |
| NameCheck.TrimIdempotent | js/auth.js:21-24 | trimming twice is trimming once |
| NameCheck.Utf16Length | js/auth.js:22-23 | `.length` counts characters outside the Basic Multilingual Plane twice |
| NameCheck.BmpLength | js/auth.js:22-23 | for characters of the Basic Multilingual Plane `.length` counts characters |
| NameCheck.ValidateNameOk | js/auth.js:20-28 | a name passes exactly when its trimmed form has 2 to 15 code units, all of them allowed |
| NameCheck.ValidateName | js/auth.js:20-28 | an accepted name's trimmed form has 2 to 15 code units, all of them allowed |
| NameCheck.EmptyFirst | js/auth.js:21 | the empty-name error comes first, exactly for whitespace-only input |
| NameCheck.OneCharacterIsTooShort | js/auth.js:22 | a single visible character gets the length error, whatever its class |
| NameCheck.AstralCharacterIsBadCharacters | js/auth.js:22-26 | one character outside the Basic Multilingual Plane counts as two and fails the class check |
| NameCheck.ValidateTrimmed | js/auth.js:20-28 | surrounding whitespace never changes the verdict |
| LevelThree.RangesOf | js/game.js:739-756 | the per-difficulty range is non-empty, and division is allowed exactly on medium and hard |
| LevelThree.AllOps | js/game.js:766-771 | the operators drawn are valid, and `/` only when division is allowed |
| LevelThree.DivisorsUpTo | js/game.js:779-784 | exactly the divisors of a within [1, a] and within the range |
| LevelThree.ListDivisors | js/game.js:779-784 | the divisor loop computes `DivisorsUpTo` |
| LevelThree.DivisorsHoldSelf | js/game.js:785-789 | a number of the range divides itself, so the divisor list is never empty |
| LevelThree.JudgeAccepts | js/game.js:798-830 | an accepted attempt's target is the expression's value, in [0, 3·maxNumRange] |
| LevelThree.Judge | js/game.js:798-830 | a target is accepted only when the expression evaluates, and only as a whole number or a value with at most two decimal places |
| LevelThree.FirstAccepted | js/game.js:763-831 | the attempt found lies before the fiftieth and passes every check |
| LevelThree.Decoys | js/game.js:851-859 | one decoy per stream |
| LevelThree.DecoysCorrect | js/game.js:853-859 | every decoy lies in the range, differs from a, b and c, and from every other decoy |
| LevelThree.DecoysStep | js/game.js:855-858 | one turn of the loop takes the first stream's accepted value, and the remaining decoys also avoid it |
| LevelThree.DrawDecoys | js/game.js:853-859 | the do-while loops compute `Decoys` |
| LevelThree.ExtraOpsFrom | js/game.js:866-872 | at most one extra operator per draw, from the pool, neither op1 nor op2, and no two alike |
| LevelThree.DrawExtraOps | js/game.js:866-872 | the extra-operator loop computes `ExtraOpsFrom` |
| LevelThree.DrawCandidate | js/game.js:765-795 | one attempt's draws compute `CandidateOf` |
| LevelThree.CandidateOf | js/game.js:765-795 | the first and last numbers are within the level's range and both operators are known |
| LevelThree.Check | js/game.js:798-830 | the checks of one attempt compute `Judge` |
| LevelThree.Solve | js/game.js:758-847 | the retry loop and the fallback compute `SolutionOf` |
| LevelThree.GenerateExpressionTask | js/game.js:734-882 | the generator computes `ExpressionTaskOf` |
| LevelThree.CandidateFacts | js/game.js:765-795 | each draw lies in the range and uses an allowed operator; a divided a is divided exactly by b |
| LevelThree.FallbackFacts | js/game.js:834-840 | the fallback uses only + and − and always evaluates |
| LevelThree.FallbackOf | js/game.js:834-840 | the fallback draws a from 2 to 10 and b and c from 1 to 9 |
| LevelThree.FallbackSolution | js/game.js:834-840 | the fallback solution keeps those ranges |
| LevelThree.DrawFallback | js/game.js:834-840 | the fallback's draws compute `FallbackSolution` |
| LevelThree.SolutionOf | js/game.js:758-847 | an accepted attempt yields the target the check accepted for it; without one, the solution is the fallback with its ranges |
| LevelThree.SolutionCorrect | js/game.js:758-847 | the target is always the value of the hidden expression; an accepted attempt lies in [0, 3·maxNumRange] and divides exactly; the fallback uses + and − only |
| LevelThree.ExpressionTaskCorrect | js/game.js:734-882 | the whole task: the solution evaluates to the target; the numbers are a, b, c and the distinct decoys; the operators are op1, op2 and up to two distinct extras |
| LevelThree.ExpressionTaskOf | js/game.js:734-882 | the task has three numbers plus the level's decoys, and two to four operators |

## Left out

- User interface: the DOM, the messages, hover and error styling, the context-menu position, the
  splash screen and rules modal, and rendering the leaderboard and the player block.
- Navigation: `window.location`, `alert` and `confirm`. `exitToMenu` only stops the timers and
  navigates, so it is not modelled separately.
- `setInterval` and `setTimeout`: ticks and `animationend` are explicit method calls.
  - Work the program schedules is returned as a `Scheduled` value.
  - The program has no guard against a stale timer firing after the sub-level changed, and the
    model claims none.
- `Math.random`: every draw is a parameter in [0, 1). The 60% and 30% spawn chances are two
  booleans, so nothing is said about probabilities.
- Rejection loops with no upper bound (the Level-2 extras and the Level-3 decoys) are
  modelled over a list of draws. They require the list to hold an acceptable draw, so their
  termination is assumed, not proved.
- IEEE-754 arithmetic: scores, the 1.5 multiplier, `BASE_POINTS / 3` and the evaluator's values
  are exact reals.
  - `Math.round(x * 100) / 100` is rounding to two places on reals.
  - The 0.01 tolerance of the check compares exact values.
- LevelThree.Judge: the `Number.isInteger` and `% 1` fraction checks are stated on exact reals.
  The model does not prove that an accepted target is a whole number.
- `JSON.parse` and `JSON.stringify`: a stored text is described only by whether it parses and
  to what. Storage quota errors are not modelled.
- A stored rating is a list of records only. An array holding `null` cannot be represented, so
  the `item &&` guard of the name search and the sort that such an entry would make throw are
  not modelled.
- `Utils.nowDateTime` reads the clock: the date is a parameter of `FinishGame`.
- `localeCompare`: replaced by code-point lexicographic order.
- `trim` and the regular expression: the whitespace set and the letter class are written out.
  Unicode case mapping is not involved.
- The drag payload: a drop is a card id. A payload that fails to parse is not modelled.
- The card row order: `returnCardToSource` appends the card at the end of its row, and that
  order is not modelled.
- The number check of the board is not modelled. Slot values always come from number cards, so
  the `parseFloat` / `isNaN` branch cannot trigger.
- The rule and message texts: only the announced direction and first value are kept.
- Dead branches that the model proves unreachable, so they carry no behaviour:
  - the empty divisor list (`DivisorsHoldSelf`);
  - the `null` result of the Level-3 fallback (`FallbackFacts`);
  - the empty `notSpawned` list, since the 30% branch runs only while a value is unseen.
- Session.GameSession.StartSublevel: requires a level of at least 1 and a sub-level from 1 to 3. Every caller passes such values.
- Session.GameSession.DevSkip: requires a target level of at least 1, as the level picker offers.
- Session.GameSession.StartTimer: requires at least one second. Its only caller passes at least 25.
- Session.GameSession.AddScore: requires a non-negative amount. Every caller passes one.
- Session.GameSession.Answer: requires non-negative points, as both callers pass.
- SlotBoard.Board.Drop: requires an enabled card.
  - A placed card has `draggable = false`, so it cannot start a drag.
  - A drop of a disabled card onto a row is `DropOnRow`.
- LevelOne.Level1TaskCorrect: says nothing about the length of a filter rule's sequence.
  - The fallback of the evens and multiples rules can still give fewer than four values and a
    grid with repeats.
  - The primes rule is proved to give at least five values.
- LevelThree.SolutionCorrect: states no bound on the fallback's target, which can be negative.
- LevelOne.GuaranteedMax: `Math.floor(maxNum * 0.7)` is computed as `maxNum * 7 / 10`, which is
  exact for the three table values.
