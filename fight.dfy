/**
 * The two fight resolvers. Each exchange of dice, fought for up to six
 * turns, removes one unit: a defender with the multi-turn win rate, an
 * attacker otherwise. The whole-fight resolver gives the chance that the
 * attacker eliminates the defender; the conditional one the chance that
 * it does so with exactly `remaining` units left.
 */
module Fight {
  import opened Allocation
  import opened Turns

  /** clamp_probability: p cut down to [0, 1]. */
  function ClampProbability(p: real): (r: real)
    ensures 0.0 <= r <= 1.0
    ensures 0.0 <= p <= 1.0 ==> r == p
    ensures p < 0.0 ==> r == 0.0
    ensures p > 1.0 ==> r == 1.0
  {
    var below := if 1.0 <= p then 1.0 else p;
    if 0.0 >= below then 0.0 else below
  }

  /** The multi-turn rate for the dice the two sides roll in this exchange. */
  function ExchangeRate(attackerBataillons: nat, defenderBataillons: nat, fortress: bool): real
    requires attackerBataillons >= 1 && defenderBataillons >= 1
  {
    var (attackerDices, defenderDices) := DiceRule(attackerBataillons, defenderBataillons, fortress);
    DiceRuleRange(attackerBataillons, defenderBataillons, fortress);
    WinRateAfterNTurns(attackerDices, defenderDices, FightTurns)
  }

  lemma ExchangeRateBounds(attackerBataillons: nat, defenderBataillons: nat, fortress: bool)
    requires attackerBataillons >= 1 && defenderBataillons >= 1
    ensures 0.0 <= ExchangeRate(attackerBataillons, defenderBataillons, fortress) <= 1.0
  {
    var (attackerDices, defenderDices) := DiceRule(attackerBataillons, defenderBataillons, fortress);
    DiceRuleRange(attackerBataillons, defenderBataillons, fortress);
    WinRateAfterNTurnsBounds(attackerDices, defenderDices, FightTurns);
  }

  /** The weight w puts on x, the rest on y. */
  function Mix(w: real, x: real, y: real): real {
    w * x + (1.0 - w) * y
  }

  /**
   * The resolvers below are written over any table of exchange rates,
   * indexed by the units left on each side; the fight's own table is
   * ExchangeRates. Against a table whose rates are only known to be
   * probabilities, their proofs need not look into the dice.
   */
  type RateTable = (nat, nat) -> real

  ghost predicate IsRateTable(rate: RateTable) {
    forall a: nat, d: nat :: 0.0 <= rate(a, d) <= 1.0
  }

  /** The fight's table: the exchange rate wherever both sides still have units. */
  function ExchangeRates(fortress: bool): (rate: RateTable)
    ensures IsRateTable(rate)
  {
    ExchangeRatesBounds(fortress);
    (a: nat, d: nat) => if a >= 1 && d >= 1 then ExchangeRate(a, d, fortress) else 0.0
  }

  lemma ExchangeRatesBounds(fortress: bool)
    ensures IsRateTable((a: nat, d: nat) => if a >= 1 && d >= 1 then ExchangeRate(a, d, fortress) else 0.0)
  {
    forall a: nat, d: nat | a >= 1 && d >= 1 {
      ExchangeRateBounds(a, d, fortress);
    }
  }

  /**
   * The recursion of compute_win_rate_whole_fight over a rate table:
   * no attacker left loses, no defender left wins, otherwise one
   * exchange removes a defender with the table's rate and an attacker
   * with the rest.
   */
  function WinChance(rate: RateTable, attackerBataillons: nat, defenderBataillons: nat): (r: real)
    ensures 0.0 <= r <= 1.0
    decreases attackerBataillons + defenderBataillons
  {
    if attackerBataillons == 0 then 0.0
    else if defenderBataillons == 0 then 1.0
    else
      ClampProbability(Mix(rate(attackerBataillons, defenderBataillons),
                           WinChance(rate, attackerBataillons, defenderBataillons - 1),
                           WinChance(rate, attackerBataillons - 1, defenderBataillons)))
  }

  /** The recursion of compute_win_rate_whole_fight_with_n_remaining over a rate table. */
  function WinChanceWithNRemaining(rate: RateTable, attackerBataillons: nat, defenderBataillons: nat,
                                   remaining: int): (r: real)
    ensures 0.0 <= r <= 1.0
    decreases attackerBataillons + defenderBataillons
  {
    if attackerBataillons == 0 then 0.0
    else if defenderBataillons == 0 then (if attackerBataillons == remaining then 1.0 else 0.0)
    else if attackerBataillons < remaining then 0.0
    else
      ClampProbability(Mix(rate(attackerBataillons, defenderBataillons),
                           WinChanceWithNRemaining(rate, attackerBataillons, defenderBataillons - 1, remaining),
                           WinChanceWithNRemaining(rate, attackerBataillons - 1, defenderBataillons, remaining)))
  }

  /** compute_win_rate_whole_fight: the chance that the attacker takes the territory. */
  function WholeFight(attackerBataillons: nat, defenderBataillons: nat, fortress: bool): real {
    WinChance(ExchangeRates(fortress), attackerBataillons, defenderBataillons)
  }

  /**
   * compute_win_rate_whole_fight_with_n_remaining: the chance that the
   * attacker takes the territory with exactly `remaining` units left.
   */
  function WholeFightWithNRemaining(attackerBataillons: nat, defenderBataillons: nat, fortress: bool,
                                    remaining: int): real {
    WinChanceWithNRemaining(ExchangeRates(fortress), attackerBataillons, defenderBataillons, remaining)
  }

  // ---------------------------------------------------------------------
  // With exact rates the clamp never cuts.

  /** A weighted mean of two probabilities is a probability between them. */
  lemma MixInUnitInterval(w: real, x: real, y: real)
    requires 0.0 <= w <= 1.0 && 0.0 <= x <= 1.0 && 0.0 <= y <= 1.0
    ensures 0.0 <= Mix(w, x, y) <= 1.0
    ensures x <= y ==> x <= Mix(w, x, y) <= y
    ensures y <= x ==> y <= Mix(w, x, y) <= x
  {
    if x <= y {
      MixBetween(w, x, y);
    } else {
      MixBetween(1.0 - w, y, x);
      assert Mix(1.0 - w, y, x) == Mix(w, x, y);
    }
  }

  lemma MixBetween(w: real, x: real, y: real)
    requires 0.0 <= w <= 1.0 && x <= y
    ensures x <= Mix(w, x, y) <= y
  {
    assert Mix(w, x, y) == x + (1.0 - w) * (y - x);
    assert Mix(w, x, y) == y - w * (y - x);
    ProductNonNegative(1.0 - w, y - x);
    ProductNonNegative(w, y - x);
  }

  lemma ProductNonNegative(x: real, y: real)
    requires 0.0 <= x && 0.0 <= y
    ensures 0.0 <= x * y
  {
  }

  /**
   * Each exchange splits the chance of winning the fight exactly: the
   * exchange rate times the chance with one defender fewer, plus the rest
   * times the chance with one attacker fewer.
   */
  lemma WinChanceRecurrence(rate: RateTable, attackerBataillons: nat, defenderBataillons: nat)
    requires IsRateTable(rate)
    requires attackerBataillons >= 1 && defenderBataillons >= 1
    ensures WinChance(rate, attackerBataillons, defenderBataillons)
            == Mix(rate(attackerBataillons, defenderBataillons),
                   WinChance(rate, attackerBataillons, defenderBataillons - 1),
                   WinChance(rate, attackerBataillons - 1, defenderBataillons))
  {
    MixInUnitInterval(rate(attackerBataillons, defenderBataillons),
                      WinChance(rate, attackerBataillons, defenderBataillons - 1),
                      WinChance(rate, attackerBataillons - 1, defenderBataillons));
  }

  /** The same split for the conditional resolver while `remaining` units are still possible. */
  lemma WithNRemainingRecurrence(rate: RateTable, attackerBataillons: nat, defenderBataillons: nat,
                                 remaining: int)
    requires IsRateTable(rate)
    requires attackerBataillons >= 1 && defenderBataillons >= 1 && remaining <= attackerBataillons
    ensures WinChanceWithNRemaining(rate, attackerBataillons, defenderBataillons, remaining)
            == Mix(rate(attackerBataillons, defenderBataillons),
                   WinChanceWithNRemaining(rate, attackerBataillons, defenderBataillons - 1, remaining),
                   WinChanceWithNRemaining(rate, attackerBataillons - 1, defenderBataillons, remaining))
  {
    MixInUnitInterval(rate(attackerBataillons, defenderBataillons),
                      WinChanceWithNRemaining(rate, attackerBataillons, defenderBataillons - 1, remaining),
                      WinChanceWithNRemaining(rate, attackerBataillons - 1, defenderBataillons, remaining));
  }

  // ---------------------------------------------------------------------
  // The per-survivor breakdown.

  /** A fight is never won with no attacker left (nor with a negative number). */
  lemma {:induction false} NoSurvivorsNeverCount(rate: RateTable, attackerBataillons: nat,
                                                 defenderBataillons: nat, remaining: int)
    requires IsRateTable(rate) && remaining <= 0
    ensures WinChanceWithNRemaining(rate, attackerBataillons, defenderBataillons, remaining) == 0.0
    decreases attackerBataillons + defenderBataillons
  {
    if attackerBataillons >= 1 && defenderBataillons >= 1 {
      NoSurvivorsNeverCount(rate, attackerBataillons, defenderBataillons - 1, remaining);
      NoSurvivorsNeverCount(rate, attackerBataillons - 1, defenderBataillons, remaining);
      WithNRemainingRecurrence(rate, attackerBataillons, defenderBataillons, remaining);
      MixOfZeros(rate(attackerBataillons, defenderBataillons));
    }
  }

  lemma MixOfZeros(w: real)
    ensures Mix(w, 0.0, 0.0) == 0.0
  {
  }

  /** The chances of winning with 1, 2, ..., n units left, added up. */
  function SurvivorSum(rate: RateTable, attackerBataillons: nat, defenderBataillons: nat, n: int): real
    decreases n
  {
    if n <= 0 then 0.0
    else SurvivorSum(rate, attackerBataillons, defenderBataillons, n - 1)
         + WinChanceWithNRemaining(rate, attackerBataillons, defenderBataillons, n)
  }

  /**
   * The breakdown the report prints partitions the whole-fight chance:
   * winning with exactly 1, 2, ..., attackers units left are disjoint
   * outcomes that together make up winning the fight.
   */
  lemma {:induction false} SurvivorsPartition(rate: RateTable, attackerBataillons: nat, defenderBataillons: nat)
    requires IsRateTable(rate)
    ensures SurvivorSum(rate, attackerBataillons, defenderBataillons, attackerBataillons)
            == WinChance(rate, attackerBataillons, defenderBataillons)
    decreases attackerBataillons + defenderBataillons
  {
    var a, d := attackerBataillons, defenderBataillons;
    if a == 0 {
    } else if d == 0 {
      NoDefenderSum(rate, a, a);
    } else {
      SurvivorsPartition(rate, a, d - 1);
      SurvivorsPartition(rate, a - 1, d);
      SurvivorSumSplit(rate, a, d, a);
      assert WinChanceWithNRemaining(rate, a - 1, d, a) == 0.0;
      WinChanceRecurrence(rate, a, d);
    }
  }

  /** Against no defender, only the attacker's own count of survivors has chance 1. */
  lemma {:induction false} NoDefenderSum(rate: RateTable, attackerBataillons: nat, n: int)
    requires attackerBataillons >= 1
    ensures SurvivorSum(rate, attackerBataillons, 0, n) == if n >= attackerBataillons then 1.0 else 0.0
    decreases n
  {
    if n > 0 {
      NoDefenderSum(rate, attackerBataillons, n - 1);
    }
  }

  /** Up to the attacker's count, the sum splits like each of its terms. */
  lemma {:induction false} SurvivorSumSplit(rate: RateTable, attackerBataillons: nat, defenderBataillons: nat, n: int)
    requires IsRateTable(rate)
    requires attackerBataillons >= 1 && defenderBataillons >= 1 && n <= attackerBataillons
    ensures SurvivorSum(rate, attackerBataillons, defenderBataillons, n)
            == Mix(rate(attackerBataillons, defenderBataillons),
                   SurvivorSum(rate, attackerBataillons, defenderBataillons - 1, n),
                   SurvivorSum(rate, attackerBataillons - 1, defenderBataillons, n))
    decreases n
  {
    var a, d := attackerBataillons, defenderBataillons;
    var w := rate(a, d);
    if n <= 0 {
      MixOfZeros(w);
    } else {
      SurvivorSumSplit(rate, a, d, n - 1);
      WithNRemainingRecurrence(rate, a, d, n);
      MixAdd(w, SurvivorSum(rate, a, d - 1, n - 1), SurvivorSum(rate, a - 1, d, n - 1),
             WinChanceWithNRemaining(rate, a, d - 1, n), WinChanceWithNRemaining(rate, a - 1, d, n));
    }
  }

  lemma MixAdd(w: real, x1: real, y1: real, x2: real, y2: real)
    ensures Mix(w, x1, y1) + Mix(w, x2, y2) == Mix(w, x1 + x2, y1 + y2)
  {
  }

  /** Each survivor count's chance is part of the whole-fight chance. */
  lemma WithNRemainingAtMostWinChance(rate: RateTable, attackerBataillons: nat, defenderBataillons: nat,
                                      remaining: int)
    requires IsRateTable(rate)
    ensures WinChanceWithNRemaining(rate, attackerBataillons, defenderBataillons, remaining)
            <= WinChance(rate, attackerBataillons, defenderBataillons)
  {
    if remaining <= 0 {
      NoSurvivorsNeverCount(rate, attackerBataillons, defenderBataillons, remaining);
    } else if remaining <= attackerBataillons {
      SurvivorsPartition(rate, attackerBataillons, defenderBataillons);
      SumHoldsTerm(rate, attackerBataillons, defenderBataillons, attackerBataillons, remaining);
    }
  }

  lemma {:induction false} SumHoldsTerm(rate: RateTable, attackerBataillons: nat, defenderBataillons: nat,
                                        n: int, remaining: int)
    requires 1 <= remaining <= n
    ensures WinChanceWithNRemaining(rate, attackerBataillons, defenderBataillons, remaining)
            <= SurvivorSum(rate, attackerBataillons, defenderBataillons, n)
    decreases n
  {
    SumNonNegative(rate, attackerBataillons, defenderBataillons, n - 1);
    if remaining < n {
      SumHoldsTerm(rate, attackerBataillons, defenderBataillons, n - 1, remaining);
    }
  }

  lemma {:induction false} SumNonNegative(rate: RateTable, attackerBataillons: nat, defenderBataillons: nat, n: int)
    ensures 0.0 <= SurvivorSum(rate, attackerBataillons, defenderBataillons, n)
    decreases n
  {
    if n > 0 {
      SumNonNegative(rate, attackerBataillons, defenderBataillons, n - 1);
    }
  }

  // ---------------------------------------------------------------------
  // Monotonicity.

  /**
   * Each chance lies between its two successors: losing an attacker never
   * helps and losing a defender never hurts, whatever the rates.
   */
  lemma {:induction false} WinChanceBetween(rate: RateTable, attackerBataillons: nat, defenderBataillons: nat)
    requires IsRateTable(rate)
    requires attackerBataillons >= 1 && defenderBataillons >= 1
    ensures WinChance(rate, attackerBataillons - 1, defenderBataillons)
            <= WinChance(rate, attackerBataillons, defenderBataillons)
            <= WinChance(rate, attackerBataillons, defenderBataillons - 1)
    decreases attackerBataillons + defenderBataillons
  {
    var a, d := attackerBataillons, defenderBataillons;
    if a >= 2 && d >= 2 {
      WinChanceBetween(rate, a - 1, d);
      WinChanceBetween(rate, a, d - 1);
    }
    assert WinChance(rate, a - 1, d) <= WinChance(rate, a, d - 1);
    WinChanceRecurrence(rate, a, d);
    MixInUnitInterval(rate(a, d), WinChance(rate, a, d - 1), WinChance(rate, a - 1, d));
  }

  /** One more attacker never lowers the chance, one more defender never raises it. */
  lemma WinChanceMonotone(rate: RateTable, attackerBataillons: nat, defenderBataillons: nat)
    requires IsRateTable(rate)
    ensures WinChance(rate, attackerBataillons, defenderBataillons)
            <= WinChance(rate, attackerBataillons + 1, defenderBataillons)
    ensures WinChance(rate, attackerBataillons, defenderBataillons + 1)
            <= WinChance(rate, attackerBataillons, defenderBataillons)
  {
    var a, d := attackerBataillons, defenderBataillons;
    if d >= 1 {
      WinChanceBetween(rate, a + 1, d);
    }
    if a >= 1 {
      WinChanceBetween(rate, a, d + 1);
    }
  }

  /** Every rate of `low` is at most the matching rate of `high`. */
  ghost predicate Dominated(low: RateTable, high: RateTable) {
    forall a: nat, d: nat :: low(a, d) <= high(a, d)
  }

  /** Lower exchange rates never give a higher chance of winning the fight. */
  lemma {:induction false} WinChanceRateMonotone(low: RateTable, high: RateTable,
                                                 attackerBataillons: nat, defenderBataillons: nat)
    requires IsRateTable(low) && IsRateTable(high) && Dominated(low, high)
    ensures WinChance(low, attackerBataillons, defenderBataillons)
            <= WinChance(high, attackerBataillons, defenderBataillons)
    decreases attackerBataillons + defenderBataillons
  {
    var a, d := attackerBataillons, defenderBataillons;
    if a >= 1 && d >= 1 {
      WinChanceRateMonotone(low, high, a, d - 1);
      WinChanceRateMonotone(low, high, a - 1, d);
      WinChanceRecurrence(low, a, d);
      WinChanceRecurrence(high, a, d);
      WinChanceBetween(high, a, d);
      assert low(a, d) <= high(a, d);
      MixGrows(low(a, d), high(a, d),
               WinChance(low, a, d - 1), WinChance(high, a, d - 1),
               WinChance(low, a - 1, d), WinChance(high, a - 1, d));
    }
  }

  /**
   * A mix grows with its parts, and with its weight when the weighted part
   * is the larger one.
   */
  lemma MixGrows(w1: real, w2: real, x1: real, x2: real, y1: real, y2: real)
    requires 0.0 <= w1 <= w2 <= 1.0 && x1 <= x2 && y1 <= y2 && y2 <= x2
    ensures Mix(w1, x1, y1) <= Mix(w2, x2, y2)
  {
    ProductNonNegative(w1, x2 - x1);
    ProductNonNegative(1.0 - w1, y2 - y1);
    ProductNonNegative(w2 - w1, x2 - y2);
    assert Mix(w2, x2, y2) - Mix(w1, x1, y1)
           == w1 * (x2 - x1) + (1.0 - w1) * (y2 - y1) + (w2 - w1) * (x2 - y2);
  }

  // ---------------------------------------------------------------------
  // The two resolvers of the program, over the fight's own rates.

  lemma ExchangeRatesAt(fortress: bool, attackerBataillons: nat, defenderBataillons: nat)
    requires attackerBataillons >= 1 && defenderBataillons >= 1
    ensures ExchangeRates(fortress)(attackerBataillons, defenderBataillons)
            == ExchangeRate(attackerBataillons, defenderBataillons, fortress)
  {
  }

  /**
   * No attacker (even against no defender) gives 0, attackers against no
   * defender give 1, every chance is a probability, and otherwise one
   * exchange splits it exactly between one defender fewer and one
   * attacker fewer.
   */
  lemma WholeFightCases(attackerBataillons: nat, defenderBataillons: nat, fortress: bool)
    ensures 0.0 <= WholeFight(attackerBataillons, defenderBataillons, fortress) <= 1.0
    ensures attackerBataillons == 0 ==> WholeFight(attackerBataillons, defenderBataillons, fortress) == 0.0
    ensures attackerBataillons >= 1 && defenderBataillons == 0 ==>
              WholeFight(attackerBataillons, defenderBataillons, fortress) == 1.0
    ensures attackerBataillons >= 1 && defenderBataillons >= 1 ==>
              WholeFight(attackerBataillons, defenderBataillons, fortress)
              == Mix(ExchangeRate(attackerBataillons, defenderBataillons, fortress),
                     WholeFight(attackerBataillons, defenderBataillons - 1, fortress),
                     WholeFight(attackerBataillons - 1, defenderBataillons, fortress))
  {
    if attackerBataillons >= 1 && defenderBataillons >= 1 {
      WinChanceRecurrence(ExchangeRates(fortress), attackerBataillons, defenderBataillons);
      ExchangeRatesAt(fortress, attackerBataillons, defenderBataillons);
    }
  }

  /**
   * The guards of the conditional resolver: against no defender the
   * chance is 1 exactly when the attacker has `remaining` units (and at
   * least one), otherwise 0; fewer attackers than `remaining`, or a
   * `remaining` of 0 or less, give 0; every chance is a probability; and
   * otherwise one exchange splits it exactly, with `remaining` passed on
   * unchanged.
   */
  lemma WholeFightWithNRemainingCases(attackerBataillons: nat, defenderBataillons: nat, fortress: bool,
                                      remaining: int)
    ensures var r := WholeFightWithNRemaining(attackerBataillons, defenderBataillons, fortress, remaining);
            0.0 <= r <= 1.0 &&
            (defenderBataillons == 0 ==> (r == 1.0 <==> attackerBataillons == remaining && remaining >= 1)) &&
            (defenderBataillons == 0 ==> (r == 0.0 <==> !(attackerBataillons == remaining && remaining >= 1))) &&
            (attackerBataillons < remaining ==> r == 0.0) &&
            (remaining <= 0 ==> r == 0.0)
    ensures attackerBataillons >= 1 && defenderBataillons >= 1 && remaining <= attackerBataillons ==>
              WholeFightWithNRemaining(attackerBataillons, defenderBataillons, fortress, remaining)
              == Mix(ExchangeRate(attackerBataillons, defenderBataillons, fortress),
                     WholeFightWithNRemaining(attackerBataillons, defenderBataillons - 1, fortress, remaining),
                     WholeFightWithNRemaining(attackerBataillons - 1, defenderBataillons, fortress, remaining))
  {
    var rate := ExchangeRates(fortress);
    if remaining <= 0 {
      NoSurvivorsNeverCount(rate, attackerBataillons, defenderBataillons, remaining);
    }
    if attackerBataillons >= 1 && defenderBataillons >= 1 && remaining <= attackerBataillons {
      WithNRemainingRecurrence(rate, attackerBataillons, defenderBataillons, remaining);
      ExchangeRatesAt(fortress, attackerBataillons, defenderBataillons);
    }
  }

  /**
   * The survivor breakdown of the report adds up to the whole-fight
   * chance, and no entry of it exceeds that chance.
   */
  lemma WholeFightPartition(attackerBataillons: nat, defenderBataillons: nat, fortress: bool, remaining: int)
    ensures SurvivorSum(ExchangeRates(fortress), attackerBataillons, defenderBataillons, attackerBataillons)
            == WholeFight(attackerBataillons, defenderBataillons, fortress)
    ensures WholeFightWithNRemaining(attackerBataillons, defenderBataillons, fortress, remaining)
            <= WholeFight(attackerBataillons, defenderBataillons, fortress)
  {
    SurvivorsPartition(ExchangeRates(fortress), attackerBataillons, defenderBataillons);
    WithNRemainingAtMostWinChance(ExchangeRates(fortress), attackerBataillons, defenderBataillons, remaining);
  }

  /**
   * One unit against one: the attacker's chance is the six-turn rate of a
   * single die against a single die, just under one half, and lower still
   * when a fortress gives the defender a second die.
   */
  lemma OneOnOne()
    ensures WholeFight(1, 1, false) == 46655.0 / 93312.0
    ensures WholeFight(1, 1, true) == 513205.0 / 1679616.0
    ensures WholeFight(1, 1, false) < 0.5
  {
    var attackerBataillons, defenderBataillons := 1, 1;
    WholeFightCases(attackerBataillons, defenderBataillons, false);
    WholeFightCases(attackerBataillons, defenderBataillons, true);
    var plainDefender := DiceRule(attackerBataillons, defenderBataillons, false);
    var fortressDefender := DiceRule(attackerBataillons, defenderBataillons, true);
    SixTurnRates(plainDefender.0, plainDefender.1);
    SixTurnRates(fortressDefender.0, fortressDefender.1);
  }

  /** One more attacker never lowers the chance of taking the territory, one more defender never raises it. */
  lemma WholeFightMonotone(attackerBataillons: nat, defenderBataillons: nat, fortress: bool)
    ensures WholeFight(attackerBataillons, defenderBataillons, fortress)
            <= WholeFight(attackerBataillons + 1, defenderBataillons, fortress)
    ensures WholeFight(attackerBataillons, defenderBataillons + 1, fortress)
            <= WholeFight(attackerBataillons, defenderBataillons, fortress)
  {
    WinChanceMonotone(ExchangeRates(fortress), attackerBataillons, defenderBataillons);
  }

  /** A fortress lowers the exchange rate of a lone defender for every number of attacking dice. */
  lemma FortressLowersRate(attackerBataillons: nat, defenderBataillons: nat)
    requires attackerBataillons >= 1 && defenderBataillons >= 1
    ensures ExchangeRate(attackerBataillons, defenderBataillons, true)
            <= ExchangeRate(attackerBataillons, defenderBataillons, false)
    ensures defenderBataillons == 1 ==>
              ExchangeRate(attackerBataillons, defenderBataillons, true)
              < ExchangeRate(attackerBataillons, defenderBataillons, false)
  {
    FortressOnlyForLoneDefender(attackerBataillons, defenderBataillons);
    var withFortress := DiceRule(attackerBataillons, defenderBataillons, true);
    var without := DiceRule(attackerBataillons, defenderBataillons, false);
    DiceRuleRange(attackerBataillons, defenderBataillons, true);
    DiceRuleRange(attackerBataillons, defenderBataillons, false);
    if defenderBataillons == 1 {
      SixTurnRates(withFortress.0, withFortress.1);
      SixTurnRates(without.0, without.1);
    }
  }

  /** Behind a fortress every exchange rate is at most the plain one. */
  lemma FortressRatesDominated()
    ensures Dominated(ExchangeRates(true), ExchangeRates(false))
  {
    forall a: nat, d: nat
      ensures ExchangeRates(true)(a, d) <= ExchangeRates(false)(a, d)
    {
      if a >= 1 && d >= 1 {
        FortressLowersRate(a, d);
        ExchangeRatesAt(true, a, d);
        ExchangeRatesAt(false, a, d);
      }
    }
  }

  /** A fortress never raises the attacker's chance of taking the territory. */
  lemma FortressNeverHelps(attackerBataillons: nat, defenderBataillons: nat)
    ensures WholeFight(attackerBataillons, defenderBataillons, true)
            <= WholeFight(attackerBataillons, defenderBataillons, false)
  {
    FortressRatesDominated();
    WinChanceRateMonotone(ExchangeRates(true), ExchangeRates(false), attackerBataillons, defenderBataillons);
  }
}
