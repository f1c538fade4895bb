# Risk battle win probabilities

A model of `risk_probability.py`, which computes the chance that an attacker
wins a battle of the board game Risk. The computation has five layers:

1. **The one-turn enumerator** (`compute_possibilities_one_turn`). It rolls
   every combination of the attacker's dice against every combination of the
   defender's dice, with faces 1 to 6. It compares the strongest die of each
   side. A higher attacker die is a win, an equal one a tie, and a lower one a
   loss. The counts go into a `PossibilityResult` record.
2. **The multi-turn rate** (`compute_win_rate_after_n_turns`). A tied turn is
   fought again, up to `turns` turns. The attacker's rate is the truncated
   series win + tie·win + … + tie^(turns-1)·win over the one-turn rates.
3. **The dice allocation** (`dices_for_fight`).
   - The attacker rolls one die per unit, at most 3.
   - The defender rolls one die per unit, at most 2.
   - A fortress gives a lone defending unit a second die.
4. **The whole-fight resolver** (`compute_win_rate_whole_fight`). It recurses
   on the units left on each side. Each exchange, fought for six turns,
   removes one defender with the exchange's rate and one attacker otherwise.
5. **The conditional resolver**
   (`compute_win_rate_whole_fight_with_n_remaining`). It is the same
   recursion, but it counts only wins with exactly `remaining` attacking units
   left.

The project has five modules:

| module | file | models |
|---|---|---|
| `Dice` | `dice.dfy` | the enumerator |
| `DiceCounts` | `dice_counts.dfy` | the closed form of the enumerator's counts |
| `Turns` | `turns.dfy` | the multi-turn rate |
| `Allocation` | `allocation.dfy` | the dice rule |
| `Fight` | `fight.dfy` | the clamp and the two resolvers |

How the code is modelled:

- **The enumerator** is imperative, like the source: an outer loop over the
  attacker's rolls (`CountOutcomes`) calls a method holding the inner loop
  over the defender's rolls (`CountAgainstDefender`), which bumps `wins`,
  `tie` or `lose` of a running result. It is proved
  equal to `Tally(Rolls(a), Rolls(d))`. `Rolls(n)` lists every roll of n dice
  in Cartesian-product order. It is proved to hold each roll exactly once.
- **The multi-turn loop** is a method proved equal to the series function
  `TieRetrySeries`.
- **Rates** are exact rationals (`real`).
- **The resolvers** are pure recursive functions, as in the source. They are
  written over any table of exchange rates that are probabilities, so their
  generic lemmas do not unfold the dice. `WholeFight` and
  `WholeFightWithNRemaining` instantiate them with the program's own table:
  the six-turn rate for the allocated dice.

## Model

| member | source | states |
|---|---|---|
| Dice.MaxDieIsMaximum | risk_probability.py:21 | the strongest die of a roll is one of its faces and no face is higher (so a one-die roll's strongest die is that die) |
| Dice.RollsCoverEachRollOnce | risk_probability.py:20 | the enumeration of n dice holds every roll of n faces in 1..6 exactly once, and nothing else |
| Dice.RollsAreRolls | risk_probability.py:20 | every enumerated roll has n dice with faces 1 to 6 |
| Dice.RollsLength | risk_probability.py:20 | there are 6^n rolls of n dice |
| Dice.TallyTotal | risk_probability.py:24-29 | every roll pair is counted once: wins + tie + lose of the tally is the product of the two roll counts |
| Dice.TallyNonNegative | risk_probability.py:19-29 | the counts start at 0 and only grow, so none is negative |
| Dice.OneTurnTotal | risk_probability.py:13-30 | wins + tie + lose == 6^attackerDices * 6^defenderDices, which is positive; (3,2) gives 7776 |
| Dice.ComputePossibilitiesOneTurn | risk_probability.py:18-30 | the enumerator returns the tally of every attacker roll against every defender roll, with total 6^a * 6^d |
| Dice.CountOutcomes | risk_probability.py:20-21 | the outer loop adds, for each attacker roll in order, its strongest die against every defender roll |
| Dice.CountAgainstDefender | risk_probability.py:22-29 | the inner loop adds exactly one win, tie or loss per defender roll, by the comparison of the maxima |
| DiceCounts.OneTurnIsClosedForm | risk_probability.py:20-29 | the counts depend only on the maxima: wins are the sum over j of (j^a - (j-1)^a)(j-1)^d, ties of (j^a - (j-1)^a)(j^d - (j-1)^d), losses of (j^a - (j-1)^a)(6^d - j^d) |
| DiceCounts.OneTurnCounts | risk_probability.py:18-30 | the exact counts for the six dice pairs a fight uses, e.g. (1,1) gives 15 wins, 6 ties, 15 losses |
| DiceCounts.EqualDiceWinsEqualLosses | risk_probability.py:20-29 | with equal dice counts on both sides, wins == lose |
| Turns.OneTurnTotalPositive | risk_probability.py:39-40 | the divisions by total() are defined for every dice count of at least 1 |
| Turns.AddTieRetries | risk_probability.py:42-44 | the `for turn` loop computes the series win·Σ_{k<turns} tie^k, and the one-turn rate when turns is 0 or 1 |
| Turns.ComputeWinRateAfterNTurns | risk_probability.py:34-46 | the multi-turn rate equals the series over the enumerator's rates and lies in [0, 1] |
| Turns.TieRetryClosedForm | risk_probability.py:42-44 | (1 - tie)·series == win·(1 - tie^n), the geometric sum |
| Turns.TieRetryBounds | risk_probability.py:42-44 | when win + tie <= 1, the series lies between 0 and 1 - tie^n |
| Turns.TieRetryMonotone | risk_probability.py:43-44 | each extra turn adds a non-negative term |
| Turns.RatesOfCounts | risk_probability.py:39-40 | both rates of non-negative counts lie in [0, 1], they add up to at most 1, and the tie rate is below 1 exactly when some roll is won or lost |
| Turns.WinRateAfterNTurnsBounds | risk_probability.py:34-46 | the multi-turn rate is a probability for every turn count |
| Turns.WinRateAfterNTurnsMonotone | risk_probability.py:34-46 | allowing one more turn never lowers the multi-turn rate |
| Turns.NoRetryIsOneTurn | risk_probability.py:42-43 | with turns of 0 or 1 the loop does not run and the rate is wins / total |
| Turns.SixTurnRates | risk_probability.py:70 | the exact six-turn rates for the six dice pairs a fight uses |
| Allocation.DicesForFight | risk_probability.py:53-59 | the method returns the capped attacker count and the capped defender count, raised to 2 for a lone defender behind a fortress |
| Allocation.DiceRuleCases | risk_probability.py:54-57 | the rule case by case: the attacker gets min(units, 3); the defender gets 0, 1 (2 behind a fortress) or 2 |
| Allocation.DiceRuleRange | risk_probability.py:53-59 | with at least one unit each, the attacker rolls 1..3 dice, never more than its units, and the defender 1..2 |
| Allocation.FortressOnlyForLoneDefender | risk_probability.py:56-57 | a fortress changes the dice exactly when the defender has one unit, and never the attacker's |
| Fight.ClampProbability | risk_probability.py:49-50 | the result lies in [0, 1], is p itself when p is already there, 0 below and 1 above |
| Fight.ExchangeRateBounds | risk_probability.py:69-70 | the six-turn rate of the allocated dice is a probability |
| Fight.ExchangeRates | risk_probability.py:69-70 | the fight's table of exchange rates holds only probabilities |
| Fight.WinChance | risk_probability.py:62-75 | the resolver's result is a probability, for any rate table |
| Fight.WinChanceWithNRemaining | risk_probability.py:79-97 | the conditional resolver's result is a probability, for any rate table |
| Fight.WinChanceRecurrence | risk_probability.py:72-75 | with probabilities as rates the clamp never cuts: each exchange splits the chance exactly between one defender fewer and one attacker fewer |
| Fight.WithNRemainingRecurrence | risk_probability.py:94-97 | the same exact split for the conditional resolver, with `remaining` passed on unchanged |
| Fight.WholeFightCases | risk_probability.py:62-75 | 0 attackers gives 0 (even against 0 defenders); attackers against 0 defenders give 1; every result is in [0, 1]; otherwise the exact one-exchange recurrence with the allocated dice's six-turn rate |
| Fight.WholeFightWithNRemainingCases | risk_probability.py:79-97 | against 0 defenders the result is 1 iff attackers == remaining >= 1, and 0 otherwise; attackers < remaining gives 0; remaining <= 0 gives 0; every result is in [0, 1]; otherwise the exact recurrence with `remaining` unchanged |
| Fight.NoSurvivorsNeverCount | risk_probability.py:80-88 | a fight is never won with 0 (or fewer) attackers left |
| Fight.SurvivorsPartition | risk_probability.py:62-97 | the chances of winning with exactly 1, …, a units left add up to the chance of winning |
| Fight.WithNRemainingAtMostWinChance | risk_probability.py:62-97 | no survivor count's chance exceeds the whole-fight chance |
| Fight.WholeFightPartition | risk_probability.py:62-97 | for the program's own rates, the per-survivor breakdown sums to the whole-fight chance and each entry is at most that chance |
| Fight.WinChanceBetween | risk_probability.py:72-75 | for any table of probabilities, each chance lies between the chance with one attacker fewer and the chance with one defender fewer |
| Fight.WinChanceMonotone | risk_probability.py:62-75 | for any table of probabilities, one more attacker never lowers the chance and one more defender never raises it |
| Fight.WinChanceRateMonotone | risk_probability.py:72-75 | a table whose rates are all at most another's never gives a higher chance of winning the fight |
| Fight.WholeFightMonotone | risk_probability.py:62-75 | with the program's rates, one more attacker never lowers the whole-fight chance and one more defender never raises it |
| Fight.FortressLowersRate | risk_probability.py:56-57 | a fortress never raises the six-turn exchange rate, and strictly lowers it for a lone defender |
| Fight.FortressNeverHelps | risk_probability.py:62-75 | a fortress never raises the attacker's whole-fight chance, for any numbers of units |
| Fight.OneOnOne | risk_probability.py:62-75 | one unit against one wins with chance 46655/93312, just under one half, and 513205/1679616 behind a fortress |

## Left out

- Memoisation with `functools.lru_cache` (risk_probability.py:17, 33, 61, 78) is not modelled. It only changes performance, so the resolvers are plain recursive functions.
- The report loop that prints every fight from 1..6 against 1..6 (risk_probability.py:99-105) is not modelled. It is console output. Its per-survivor breakdown is covered by `Fight.WholeFightPartition`.
- Floating point: rates are exact rationals, so rounding is not modelled. The clamp is modelled as written even though, with exact rates, it is proved never to cut.
- `itertools.product` and the `max(*...)` idiom are not modelled as library calls. `Dice.Rolls` enumerates the rolls in the same order, and `Dice.MaxDie` takes the maximum.
- The unused `lose_rate` locals (risk_probability.py:71, 93) are not modelled. They have no effect on the results.
- Dice counts of 0: the source would fail indexing an empty roll (risk_probability.py:21, 23). The enumerator and the multi-turn rate therefore require at least one die per side, which the allocation always provides (`Allocation.DiceRuleRange`).
- Unit counts are `nat`; the source does not guard against negative counts. `remaining` is an `int`, as it is untyped in the source.
- Negative `turns` is not modelled. The source treats it like 0, and the model takes `turns` as a `nat`.
- Turn counts other than six for the resolvers are not modelled. The source hard-codes `turns=6` (risk_probability.py:70, 92), and the model does the same as `Turns.FightTurns`.
- The exact loops of the source were split into separate methods, as a modelling choice. The enumerator's inner loop over defender rolls is `Dice.CountAgainstDefender`. The tie-retry loop is `Turns.AddTieRetries`. Each is a loop of its caller in the source.
- Recursion depth: the source's resolvers recurse once per unit removed, so for very large unit counts Python's recursion limit would raise `RecursionError`; `Fight.WinChance` is defined for every count. The report uses only counts 1 to 6.
