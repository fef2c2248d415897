# MathForge practice engine, modelled in Dafny

MathForge is a client-side arithmetic-practice app. This project models the
logic inside it, not its user interface:

- the fact tables: multiplication tables, squares, cubes and powers;
- the quiz-question generator for the integer categories, including the
  multiple-choice option builder;
- the per-mode difficulty adapter;
- the statistics ledger of the game context;
- the currency, rank and inventory ledger;
- the mental-math question generator.

Everything is a pure function or method over immutable values. Each
`Math.random()` draw is an integer the caller passes in. It must lie in the
range the source's expression can produce (`Draws.InDrawRange`). The
`while` loop of `generateOptions` consumes a finite sequence of such draws.
It reports `None` when the draws run out before the option set is full; the
source would keep drawing. The comparator shuffle is modelled as any
sequence of swaps, so its result is some permutation. "Today" is an abstract
day number, and the mental-math clock is a parameter.

Modules: `Wrappers` (Option), `Decimal` (how `${n}` renders an integer, and
its parser), `Draws`, `Categories`, `MathTables`, `QuizOptions`,
`QuizQuestion`, `Difficulty`, `GameStats`, `Progress`, `MentalMath`.

The model follows the code, including these quirks:

- `generateQuizQuestion` takes three parameters and no difficulty level.
  The mixed quiz passes a fourth, a level, and it is ignored. The operand
  ranges come only from `config.min`/`config.max` and fixed defaults, and
  nothing stops the same question being drawn twice in a row.
- Questions carry no option ids and no correct-option reference.
- `generateOptions` has no retry cap. The model shows when it can never
  finish: for more than 21 options, and for an answer of -10 or less.
- The history is capped at 30 entries only by `addXP`. `recordAnswer`
  appends without a cap (`GameStats.RecordAnswerHistoryUncapped`).
- A configured `min`/`max` of 0 falls back to the default, because of `||`.
- The rank is the one the total deserves only while every amount added is
  non-negative. The scan never moves down.

## Model

| member | source | states |
|---|---|---|
| `MathTables.GetTable` | lib/math-utils.ts:13-22 | exactly `limit` rows; row i is n × (i+1) with its product; consecutive results differ by n |
| `MathTables.GetSquares` | lib/math-utils.ts:25-30 | `limit` rows with n = i+1 and result n²; consecutive squares differ by 2n+1 |
| `MathTables.GetCubes` | lib/math-utils.ts:33-38 | `limit` rows with n = i+1 and result n³; consecutive cubes differ by 3n²+3n+1 |
| `MathTables.GetPowers` | lib/math-utils.ts:55-64 | row i has exponent i+1 and result base^(i+1); the first row is the base and each next row is the previous one times the base |
| `MathTables.GetAllPowers` | lib/math-utils.ts:66-74 | keys are exactly bases 2, 3, 5, 6, 7, with power tables of lengths 25, 12, 10, 8, 8 |
| `QuizOptions.CollectOptions` | lib/math-utils.ts:79-92 | the loop completes exactly when count ≤ 1 or the offsets supply at least count-1 distinct plausible wrong answers; then the set starts with the correct answer and has max(count,1) pairwise distinct values; every wrong value is positive, differs from the answer, lies within 10 of it and is the answer plus a drawn offset; an answer ≤ -10 never completes 2+ options |
| `QuizOptions.Shuffle` | lib/math-utils.ts:108 | the result is a permutation of the input (same length and multiset) and keeps distinct values distinct |
| `QuizOptions.GenerateOptions` | lib/math-utils.ts:78-109 | completes exactly when the offsets supply enough distinct plausible wrong answers; a completed result contains the correct answer, has max(count,1) distinct values, all wrong ones plausible and drawn, and needs count ≤ 21 |
| `QuizOptions.DistinctInRangeBound` | lib/math-utils.ts:84-92 | pairwise distinct values from lo..hi number at most hi-lo+1 |
| `QuizOptions.OptionCountAtMostTwentyOne` | lib/math-utils.ts:84-92 | distinct options within 10 of the answer number at most 21, so a larger count makes the loop run forever |
| `QuizQuestion.GenerateQuizQuestion` | lib/math-utils.ts:111-178 | tables: num drawn from [min‖2, max‖20], mult from 1..10, answer num·mult; squares: num from [min‖2, max‖30], answer num²; cubes: num from [min‖2, max‖15], answer num³; powers: base ∈ {2,3,5}, exp ∈ 2..6, answer base^exp whatever the config; the id is exactly `${num}x${mult}`, `sq${num}`, `cb${num}` or `pw${base}^${exp}` of the drawn operands, and the text is `${num} × ${mult} = ?`, `${num}² = ?`, `${num}³ = ?` or `${base}^${exp} = ?`; a question is produced exactly when the offsets supply optionCount-1 distinct plausible wrong answers to the drawn answer, and then the answer is among distinct, plausible options |
| `QuizQuestion.IdRoundTrips` | lib/math-utils.ts:120-172 | the ids `${num}x${mult}`, `sq${num}`, `cb${num}` and `pw${base}^${exp}` parse back to exactly their operands |
| `QuizQuestion.IdsInjective` | lib/math-utils.ts:120-172 | two ids of one category are equal only when their operands are |
| `QuizQuestion.IdsNameTheirCategory` | lib/math-utils.ts:120-172 | the first character of an id tells its category, so ids of different categories would never collide as heatmap keys (no game passes a question id to `recordAnswer` today, so the heatmap stays empty in the app) |
| `Decimal.ParseIntRoundTrip` | lib/math-utils.ts:120 | the decimal text of an integer reads back as that integer |
| `Decimal.IntToStringInjective` | lib/math-utils.ts:120 | distinct integers render as distinct text |
| `Draws.DrawLandsBetween` | lib/math-utils.ts:116 | `floor(random·(max-min+1)) + min` lands in min..max, or in max+1..min when the range is inverted |
| `Difficulty.GetDifficulty` | store/difficultyStore.ts:24-27 | 1 for a mode with no state; otherwise the stored level; always within 1..5 for reachable states |
| `Difficulty.Step` | store/difficultyStore.ts:37-57 | the adapter's invariant is preserved; the level moves by at most one; at least one run is zero; a correct answer never lowers the level and clears the incorrect run; an incorrect answer never raises it and clears the correct run; a level change clears both runs; the level rises exactly when the correct run reaches 3 below level 5 and falls exactly when the incorrect run reaches 2 above level 1; otherwise the answer's run grows by one |
| `Difficulty.UpdateDifficulty` | store/difficultyStore.ts:29-69 | the answered mode's entry takes one step from its current state (level 1 with empty runs when unseen); no other entry changes; all entries stay valid |
| `Difficulty.UpdateRunReplays` | store/difficultyStore.ts:29-69 | after any run of `updateDifficulty` calls for one mode, its entry is the replay of the run from where it started and other modes keep theirs |
| `Difficulty.ReplayKeepsValid` | store/difficultyStore.ts:39-57 | after any run of answers the level is within 1..5 and the runs are consistent |
| `Difficulty.ReplayLevelDrift` | store/difficultyStore.ts:44-56 | n answers move the level by at most n |
| `Difficulty.ThreeCorrectClimb` | store/difficultyStore.ts:39-47 | below level 5, three correct answers in a row raise the level by exactly one |
| `Difficulty.TwoIncorrectDrop` | store/difficultyStore.ts:48-56 | above level 1, two incorrect answers in a row lower the level by exactly one |
| `Difficulty.TopLevelRunGrows` | store/difficultyStore.ts:40-47 | at level 5, n correct answers grow the correct run by n with no reset |
| `Difficulty.BottomLevelRunGrows` | store/difficultyStore.ts:49-56 | at level 1, n incorrect answers grow the incorrect run by n with no reset |
| `Progress.Ranks` | store/progressStore.ts:4-15 | ten ranks; the first threshold is 0 and thresholds strictly increase |
| `Progress.InitialProgress` | store/progressStore.ts:41-50 | no petals, embers or total, first rank, flag down, and exactly the three power-ups each stocked at zero |
| `Progress.HighestReached` | store/progressStore.ts:59-63 | reference definition: the largest index whose threshold the total meets |
| `Progress.ClimbRank` | store/progressStore.ts:60-63 | the scan never lowers the rank, passes only thresholds that are met and stops below the first unmet one or at the last rank |
| `Progress.Credit` | store/progressStore.ts:57-69 | the total grows by the amount; rank never drops; the flag rises on a rank-up and is otherwise untouched |
| `Progress.AddPetals` | store/progressStore.ts:54-70 | petals and total grow by the amount; embers and inventory unchanged; flag = rank rose or flag was set; a non-negative amount keeps the rank the one the total deserves |
| `Progress.AddEmbers` | store/progressStore.ts:72-88 | embers and total grow by the amount; petals and inventory unchanged; same rank and flag rules as petals |
| `Progress.BuyItem` | store/progressStore.ts:90-116 | succeeds iff the chosen balance covers the cost; then that balance pays, the item count (absent = 0) grows by one, nothing else moves; a refusal changes nothing; with cost ≥ 0 no balance goes negative |
| `Progress.ConsumeItem` | store/progressStore.ts:118-130 | succeeds iff the item is held; then only that count drops by one; otherwise nothing changes; counts stay non-negative |
| `Progress.CloseRankUpModal` | store/progressStore.ts:52 | the flag is down and every other field is unchanged |
| `Progress.Earn` | store/progressStore.ts:54-88 | a reward in either currency: that balance and the total grow by the amount, the other balance and the inventory stay, the rank never drops and the flag follows the rescan rule |
| `Progress.RewardsKeepRankConsistent` | store/progressStore.ts:54-88 | any run of non-negative rewards never lowers the rank and keeps it the one the total deserves |
| `GameStats.DefaultStats` | context/GameContext.tsx:47-64 | the five fact categories are seeded at zero; no questions, no history, fastest time unset, level 1 |
| `GameStats.LevelFor` | context/GameContext.tsx:123 | the level is the thousand-point band that holds the xp (floor(xp/1000)+1) |
| `GameStats.FindDate` | context/GameContext.tsx:128 | the first entry dated today, or -1 when there is none |
| `GameStats.CreditHistory` | context/GameContext.tsx:125-136 | today's entry gains the xp and the length is unchanged, or {today, amount, 0} is appended and the oldest entry dropped past 30; ≤ 30 entries stay ≤ 30; dates stay unique |
| `GameStats.CountQuestion` | context/GameContext.tsx:185-193 | today's entry counts one more question, or {today, 0, 1} is appended with no cap; dates stay unique |
| `GameStats.AddXP` | context/GameContext.tsx:120-140 | xp grows by the amount, the level is floor(xp/1000)+1, the history is credited, nothing else changes |
| `GameStats.UpdateStreak` | context/GameContext.tsx:142-159 | same day: no change; the day after the last play: streak+1; otherwise streak 1; last played becomes today |
| `GameStats.CountCategory` | context/GameContext.tsx:173-206 | the answered category's entry, created at zero if absent, gains an attempt and a correct iff correct; other categories unchanged; correct ≤ attempted preserved |
| `GameStats.CountAttempt` | context/GameContext.tsx:176-183 | the heatmap changes only for a present, non-empty question id, and only at that key: one more attempt, one more correct iff correct |
| `GameStats.Quicker` | context/GameContext.tsx:199 | the fastest time changes only on a correct answer that is strictly faster (Infinity = unset), so it only improves |
| `GameStats.RecordStats` | context/GameContext.tsx:172-210 | one more question, one more correct iff correct; category, heatmap, fastest time and history updated as above; xp, level and streak untouched; ledger invariant preserved |
| `GameStats.TierCurrency` | components/game/TierSelection.tsx:10-47 | only the dragon tier pays in embers |
| `GameStats.TierReward` | components/game/TierSelection.tsx:10-47 | every tier pays between 1 and 3 |
| `GameStats.TierRewardTable` | components/game/TierSelection.tsx:10-47 | gentle pays 1 petal, focused 2 petals, trial 3 petals, dragon 2 embers; the petal tiers pay more the further down the list they come |
| `GameStats.RecordAnswer` | context/GameContext.tsx:161-212 | a correct answer under a tier pays that tier's reward in its currency and only there, with the rank and flag rules of the currency ledger; otherwise the currency ledger is unchanged; the stats are the `recordAnswer` updater followed by `updateStreak`: category, heatmap, fastest time and history counted, streak by the day rule, xp and level untouched |
| `GameStats.ResetProgress` | context/GameContext.tsx:218-221 | exactly the default stats whatever came before: level 1, five seeded categories, all counters zero |
| `GameStats.AnswersKeepLedgerConsistent` | context/GameContext.tsx:172-211 | over any run of answers the question total grows by the run length, correct answers by the correct ones, and correct ≤ attempted holds throughout |
| `GameStats.ConsecutiveDaysStreak` | context/GameContext.tsx:144-157 | playing on n consecutive days after a break gives a streak of n |
| `GameStats.SameDayIdempotent` | context/GameContext.tsx:145 | a second play on the same day leaves the streak alone |
| `GameStats.CreditHistoryStaysOrdered` | context/GameContext.tsx:126-136 | with days that never go backwards, crediting xp keeps dates strictly increasing, also when the oldest entry is dropped |
| `GameStats.CountQuestionStaysOrdered` | context/GameContext.tsx:186-193 | with days that never go backwards, counting a question keeps dates strictly increasing |
| `GameStats.RecordAnswerHistoryUncapped` | context/GameContext.tsx:189-193 | thirty entries plus an answer on a new day give thirty-one entries |
| `MentalMath.GenerateQuestion` | components/features/MentalMathGame.tsx:36-80 | the operation is the drawn one of + - * % (never /); the operands are the draws shifted into their ranges and the text shows them with the operator; answers lie in 0..210 and are whole numbers or halves; the id is `mm-` and the clock |
| `MentalMath.MulReachesTen` | components/features/MentalMathGame.tsx:58-62 | the largest multiplication draw gives 21 × 10 = 210, so a multiplier of 10 occurs |
| `MentalMath.EveryOperationReachable` | components/features/MentalMathGame.tsx:37-38 | each of + - * % is produced by some draw, and / by none |
| `MentalMath.AddQuestion` | components/features/MentalMathGame.tsx:44-50 | shows exactly a and b, with a, b ∈ 10..99, as `a + b`; the answer is a+b |
| `MentalMath.SubQuestion` | components/features/MentalMathGame.tsx:51-57 | shows exactly a and b as `a - b`, with a ∈ 10..99 and b ∈ 0..a-1, so the answer a-b is at least 1 |
| `MentalMath.MulQuestion` | components/features/MentalMathGame.tsx:58-64 | shows exactly a and b as `a × b`, with a ∈ 2..21 and b ∈ 2..10; the answer a·b ≤ 210 |
| `MentalMath.PercentQuestion` | components/features/MentalMathGame.tsx:65-72 | shows exactly p and base = 10·k as `p% of base`, with p ∈ {10,20,25,50,75} and base a multiple of 10 in 0..190; the answer is exactly p·base/100, which is 0 for base 0 |
| `MentalMath.PercentOf` | components/features/MentalMathGame.tsx:70 | p% of 10k is the exact rational p·10k/100, within 0..142.5 and a whole number or a half |

## Left out

- Rendering, hooks, timers, confetti, sound, particles, pages and modals: user interface and event-loop plumbing.
- Persistence and sync: the `persist` middleware, `localStorage` load, merge and save, and Supabase. These are I/O.
- `getReciprocals`, the reciprocals question and the decimal and string branches of `generateOptions`: floating-point rounding with `toFixed`.
- QuizQuestion.GenerateQuizQuestion: its precondition excludes the reciprocals category, whose branch is floating point. The `'err'` default branch cannot be reached with a typed category.
- MathTables.GetPowers: results are exact integers. `Math.pow` is floating point and agrees with them only up to 2^53. Every table built by `getAllPowers` is within that bound.
- MentalMath.PercentOf: the answer is the exact rational. The source computes `(p / 100) * base` in floating point, which can be off in the last bit (10% of 30). The answer check's 0.01 tolerance absorbs this, and that check is itself left out.
- The distribution of `Math.random` and of the comparator sort. Only the ranges, and "some permutation", are modelled.
- Calendar arithmetic. Days are integers. The streak uses local dates and the history uses UTC dates; the model uses one day number for both.
- Session scores and XP formulas inside the game components: tangled with component state.
- The mixed quiz compares answers against a `correctOptionId` that questions do not have, so it never matches. This lies in a user-interface component.
- Numbers are unbounded integers. Fractional or NaN amounts, and exponent notation for integers of 10^21 or more in `${n}`, are not modelled.
- `resetDaily`: its body is empty.
- Shared history entries: `addXP` and `recordAnswer` copy the history array but bump today's entry object in place (`history[i].xp += amount`, `history[i].questions += 1`). That object is also in the previous state, so the old state is changed too, and an updater run twice (as React's development mode does) counts twice. The model is a pure function of the previous state and credits once.
