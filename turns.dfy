/**
 * The multi-turn win rate: a tied turn is fought again, up to a fixed
 * number of turns, so the attacker's rate is the truncated series
 * win + tie * win + tie^2 * win + ... over the one-turn rates.
 * Rates are exact rationals.
 */
module Turns {
  import opened Dice
  import opened DiceCounts

  function Pow(x: real, k: nat): real {
    if k == 0 then 1.0 else x * Pow(x, k - 1)
  }

  /** The share of the rolls the attacker wins in one turn. */
  function WinRate(r: PossibilityResult): real
    requires r.Total() > 0
  {
    r.wins as real / r.Total() as real
  }

  /** The share of the rolls that end in a tie. */
  function TieRate(r: PossibilityResult): real
    requires r.Total() > 0
  {
    r.tie as real / r.Total() as real
  }

  /** win * (1 + tie + ... + tie^(n-1)): a win at the first turn or after k ties, for k < n. */
  function TieRetrySeries(win: real, tie: real, n: nat): real {
    if n == 0 then 0.0 else TieRetrySeries(win, tie, n - 1) + Pow(tie, n - 1) * win
  }

  /**
   * compute_win_rate_after_n_turns as a value: the series over the
   * enumerator's rates, with at least the first turn counted even when
   * turns is 0 or 1.
   */
  function WinRateAfterNTurns(attackerDices: nat, defenderDices: nat, turns: nat): real
    requires attackerDices >= 1 && defenderDices >= 1
  {
    var r := Tally(Rolls(attackerDices), Rolls(defenderDices));
    OneTurnTotalPositive(attackerDices, defenderDices);
    TieRetrySeries(WinRate(r), TieRate(r), if turns == 0 then 1 else turns)
  }

  /** The divisions of compute_win_rate_after_n_turns are defined: the total is never 0. */
  lemma OneTurnTotalPositive(attackerDices: nat, defenderDices: nat)
    requires attackerDices >= 1 && defenderDices >= 1
    ensures Tally(Rolls(attackerDices), Rolls(defenderDices)).Total() > 0
  {
    OneTurnTotal(attackerDices, defenderDices);
  }

  // ---------------------------------------------------------------------
  // The loop of compute_win_rate_after_n_turns.

  method ComputeWinRateAfterNTurns(attackerDices: nat, defenderDices: nat, turns: nat)
    returns (winRate: real)
    requires attackerDices >= 1 && defenderDices >= 1
    ensures winRate == WinRateAfterNTurns(attackerDices, defenderDices, turns)
    ensures 0.0 <= winRate <= 1.0
  {
    var possibilities := ComputePossibilitiesOneTurn(attackerDices, defenderDices);
    OneTurnTotal(attackerDices, defenderDices);
    var winRateOneTurn := possibilities.wins as real / possibilities.Total() as real;
    var tieRateOneTurn := possibilities.tie as real / possibilities.Total() as real;
    winRate := AddTieRetries(winRateOneTurn, tieRateOneTurn, turns);
    WinRateAfterNTurnsBounds(attackerDices, defenderDices, turns);
  }

  /**
   * The `for turn` loop: starting from the one-turn rate, each later turn
   * adds tie^turn * win.
   */
  method AddTieRetries(winRateOneTurn: real, tieRateOneTurn: real, turns: nat) returns (winRate: real)
    ensures winRate == TieRetrySeries(winRateOneTurn, tieRateOneTurn, if turns == 0 then 1 else turns)
  {
    winRate := winRateOneTurn;
    var turn := 1;
    while turn < turns
      invariant 1 <= turn <= (if turns == 0 then 1 else turns)
      invariant winRate == TieRetrySeries(winRateOneTurn, tieRateOneTurn, turn)
    {
      SeriesStep(winRateOneTurn, tieRateOneTurn, turn);
      winRate := winRate + Pow(tieRateOneTurn, turn) * winRateOneTurn;
      turn := turn + 1;
    }
  }

  // ---------------------------------------------------------------------
  // The series.

  lemma SeriesStep(win: real, tie: real, n: nat)
    ensures TieRetrySeries(win, tie, n + 1) == TieRetrySeries(win, tie, n) + Pow(tie, n) * win
  {
  }

  lemma PowStep(x: real, k: nat)
    ensures Pow(x, k + 1) == Pow(x, k) * x
  {
    if k > 0 {
      PowStep(x, k - 1);
    }
  }

  lemma {:induction false} PowInUnitInterval(x: real, k: nat)
    requires 0.0 <= x <= 1.0
    ensures 0.0 <= Pow(x, k) <= 1.0
  {
    if k > 0 {
      PowInUnitInterval(x, k - 1);
      ProductInUnitInterval(x, Pow(x, k - 1));
    }
  }

  lemma ProductInUnitInterval(x: real, y: real)
    requires 0.0 <= x <= 1.0 && 0.0 <= y <= 1.0
    ensures 0.0 <= x * y <= y
  {
  }

  /** The geometric sum: (1 - tie) * series == win * (1 - tie^n). */
  lemma {:induction false} TieRetryClosedForm(win: real, tie: real, n: nat)
    ensures (1.0 - tie) * TieRetrySeries(win, tie, n) == win * (1.0 - Pow(tie, n))
  {
    if n > 0 {
      TieRetryClosedForm(win, tie, n - 1);
      PowStep(tie, n - 1);
      var p := Pow(tie, n - 1);
      assert (1.0 - tie) * (p * win) == win * p - win * (p * tie);
    }
  }

  /**
   * When win + tie <= 1, the chance of having won within n turns is at
   * most 1 - tie^n, one minus the chance of n ties in a row.
   */
  lemma {:induction false} TieRetryBounds(win: real, tie: real, n: nat)
    requires 0.0 <= win && 0.0 <= tie && win + tie <= 1.0
    ensures 0.0 <= TieRetrySeries(win, tie, n) <= 1.0 - Pow(tie, n)
  {
    if n > 0 {
      TieRetryBounds(win, tie, n - 1);
      PowInUnitInterval(tie, n - 1);
      BoundStep(TieRetrySeries(win, tie, n - 1), Pow(tie, n - 1), win, tie);
    }
  }

  /** One more term keeps the series below 1 - tie^n. */
  lemma BoundStep(before: real, p: real, win: real, tie: real)
    requires 0.0 <= before <= 1.0 - p && 0.0 <= p && 0.0 <= win <= 1.0 - tie
    ensures 0.0 <= before + p * win <= 1.0 - tie * p
  {
    ScaleLeq(p, win, 1.0 - tie);
    ScaleLeq(p, 0.0, win);
  }

  lemma ScaleLeq(p: real, x: real, y: real)
    requires 0.0 <= p && x <= y
    ensures p * x <= p * y
  {
  }

  /** Allowing one more turn never lowers the rate. */
  lemma TieRetryMonotone(win: real, tie: real, n: nat)
    requires 0.0 <= win && 0.0 <= tie && win + tie <= 1.0
    ensures TieRetrySeries(win, tie, n) <= TieRetrySeries(win, tie, n + 1)
  {
    PowInUnitInterval(tie, n);
    ScaleLeq(Pow(tie, n), 0.0, win);
  }

  // ---------------------------------------------------------------------
  // The rates of the enumerator's counts.

  /**
   * Both rates are shares of one total, so they lie in [0, 1] and add up
   * to at most 1; the tie rate is 1 exactly when no roll is won or lost.
   */
  lemma RatesOfCounts(r: PossibilityResult)
    requires r.wins >= 0 && r.tie >= 0 && r.lose >= 0 && r.Total() > 0
    ensures 0.0 <= WinRate(r) && 0.0 <= TieRate(r)
    ensures WinRate(r) + TieRate(r) <= 1.0
    ensures TieRate(r) < 1.0 <==> r.wins + r.lose > 0
  {
    var total := r.Total() as real;
    ShareSum(r.wins as real, r.tie as real, total);
    ShareInUnitInterval((r.wins + r.tie) as real, total);
    ShareInUnitInterval(r.wins as real, total);
    ShareInUnitInterval(r.tie as real, total);
  }

  /** A part of a positive total is a share in [0, 1], and 1 exactly when it is the whole. */
  lemma ShareInUnitInterval(part: real, total: real)
    requires 0.0 <= part <= total && total > 0.0
    ensures 0.0 <= part / total <= 1.0
    ensures part / total == 1.0 <==> part == total
  {
  }

  lemma ShareSum(p: real, q: real, total: real)
    requires total > 0.0
    ensures p / total + q / total == (p + q) / total
  {
  }

  /** The multi-turn rate is a probability. */
  lemma WinRateAfterNTurnsBounds(attackerDices: nat, defenderDices: nat, turns: nat)
    requires attackerDices >= 1 && defenderDices >= 1
    ensures 0.0 <= WinRateAfterNTurns(attackerDices, defenderDices, turns) <= 1.0
  {
    var r := Tally(Rolls(attackerDices), Rolls(defenderDices));
    OneTurnRates(attackerDices, defenderDices);
    SeriesInUnitInterval(WinRate(r), TieRate(r), if turns == 0 then 1 else turns);
  }

  /** Allowing one more turn never lowers the multi-turn rate. */
  lemma WinRateAfterNTurnsMonotone(attackerDices: nat, defenderDices: nat, turns: nat)
    requires attackerDices >= 1 && defenderDices >= 1
    ensures WinRateAfterNTurns(attackerDices, defenderDices, turns)
            <= WinRateAfterNTurns(attackerDices, defenderDices, turns + 1)
  {
    var r := Tally(Rolls(attackerDices), Rolls(defenderDices));
    OneTurnRates(attackerDices, defenderDices);
    if turns > 0 {
      TieRetryMonotone(WinRate(r), TieRate(r), turns);
    }
  }

  /** The enumerator's rates meet the conditions of the series lemmas. */
  lemma OneTurnRates(attackerDices: nat, defenderDices: nat)
    requires attackerDices >= 1 && defenderDices >= 1
    ensures var r := Tally(Rolls(attackerDices), Rolls(defenderDices));
            r.Total() > 0 && 0.0 <= WinRate(r) && 0.0 <= TieRate(r) && WinRate(r) + TieRate(r) <= 1.0
  {
    OneTurnTotalPositive(attackerDices, defenderDices);
    TallyNonNegative(Rolls(attackerDices), Rolls(defenderDices));
    RatesOfCounts(Tally(Rolls(attackerDices), Rolls(defenderDices)));
  }

  lemma SeriesInUnitInterval(win: real, tie: real, n: nat)
    requires 0.0 <= win && 0.0 <= tie && win + tie <= 1.0
    ensures 0.0 <= TieRetrySeries(win, tie, n) <= 1.0
  {
    TieRetryBounds(win, tie, n);
    PowInUnitInterval(tie, n);
  }

  /** turns = 0 and turns = 1 both give the one-turn rate, wins / total. */
  lemma NoRetryIsOneTurn(attackerDices: nat, defenderDices: nat, turns: nat)
    requires attackerDices >= 1 && defenderDices >= 1 && turns <= 1
    ensures var r := Tally(Rolls(attackerDices), Rolls(defenderDices));
            r.Total() > 0 && WinRateAfterNTurns(attackerDices, defenderDices, turns) == WinRate(r)
  {
    var r := Tally(Rolls(attackerDices), Rolls(defenderDices));
    OneTurnTotalPositive(attackerDices, defenderDices);
    SeriesOfOneTurn(WinRate(r), TieRate(r));
  }

  lemma SeriesOfOneTurn(win: real, tie: real)
    ensures TieRetrySeries(win, tie, 1) == win
  {
  }

  // ---------------------------------------------------------------------
  // The six-turn rates of the dice counts a fight can use.

  /** The number of turns compute_win_rate_whole_fight allows for each exchange of dice. */
  const FightTurns: nat := 6

  /** The rates compute_win_rate_whole_fight uses, exactly. */
  lemma SixTurnRates(attackerDices: nat, defenderDices: nat)
    requires 1 <= attackerDices <= 3 && 1 <= defenderDices <= 2
    ensures attackerDices == 1 && defenderDices == 1 ==>
              WinRateAfterNTurns(attackerDices, defenderDices, FightTurns) == 46655.0 / 93312.0
    ensures attackerDices == 2 && defenderDices == 1 ==>
              WinRateAfterNTurns(attackerDices, defenderDices, FightTurns) == 1166375.0 / 1679616.0
    ensures attackerDices == 3 && defenderDices == 1 ==>
              WinRateAfterNTurns(attackerDices, defenderDices, FightTurns) == 886445.0 / 1119744.0
    ensures attackerDices == 1 && defenderDices == 2 ==>
              WinRateAfterNTurns(attackerDices, defenderDices, FightTurns) == 513205.0 / 1679616.0
    ensures attackerDices == 2 && defenderDices == 2 ==>
              WinRateAfterNTurns(attackerDices, defenderDices, FightTurns)
              == 74028657424696415.0 / 148074416822550528.0
    ensures attackerDices == 3 && defenderDices == 2 ==>
              WinRateAfterNTurns(attackerDices, defenderDices, FightTurns)
              == 73321230561221489.0 / 116997070082015232.0
  {
    var r := Tally(Rolls(attackerDices), Rolls(defenderDices));
    OneTurnTotalPositive(attackerDices, defenderDices);
    RateOfCounts(attackerDices, defenderDices, FightTurns, r, WinRate(r), TieRate(r));
    OneTurnCounts(attackerDices, defenderDices);
    SeriesOfCounts(r);
  }

  /** The six-turn series over the rates of each count table of a fight. */
  lemma SeriesOfCounts(c: PossibilityResult)
    requires c.Total() > 0
    ensures c == PossibilityResult(15, 6, 15) ==>
              TieRetrySeries(WinRate(c), TieRate(c), FightTurns) == 46655.0 / 93312.0
    ensures c == PossibilityResult(125, 36, 55) ==>
              TieRetrySeries(WinRate(c), TieRate(c), FightTurns) == 1166375.0 / 1679616.0
    ensures c == PossibilityResult(855, 216, 225) ==>
              TieRetrySeries(WinRate(c), TieRate(c), FightTurns) == 886445.0 / 1119744.0
    ensures c == PossibilityResult(55, 36, 125) ==>
              TieRetrySeries(WinRate(c), TieRate(c), FightTurns) == 513205.0 / 1679616.0
    ensures c == PossibilityResult(505, 286, 505) ==>
              TieRetrySeries(WinRate(c), TieRate(c), FightTurns)
              == 74028657424696415.0 / 148074416822550528.0
    ensures c == PossibilityResult(3667, 1926, 2183) ==>
              TieRetrySeries(WinRate(c), TieRate(c), FightTurns)
              == 73321230561221489.0 / 116997070082015232.0
  {
    if c == PossibilityResult(15, 6, 15) {
      assert WinRate(c) == 5.0 / 12.0 && TieRate(c) == 1.0 / 6.0;
      SeriesOneOne();
    } else if c == PossibilityResult(125, 36, 55) {
      assert WinRate(c) == 125.0 / 216.0 && TieRate(c) == 1.0 / 6.0;
      SeriesTwoOne();
    } else if c == PossibilityResult(855, 216, 225) {
      assert WinRate(c) == 95.0 / 144.0 && TieRate(c) == 1.0 / 6.0;
      SeriesThreeOne();
    } else if c == PossibilityResult(55, 36, 125) {
      assert WinRate(c) == 55.0 / 216.0 && TieRate(c) == 1.0 / 6.0;
      SeriesOneTwo();
    } else if c == PossibilityResult(505, 286, 505) {
      assert WinRate(c) == 505.0 / 1296.0 && TieRate(c) == 143.0 / 648.0;
      SeriesTwoTwo();
    } else if c == PossibilityResult(3667, 1926, 2183) {
      assert WinRate(c) == 3667.0 / 7776.0 && TieRate(c) == 107.0 / 432.0;
      SeriesThreeTwo();
    }
  }

  lemma RateOfCounts(attackerDices: nat, defenderDices: nat, turns: nat,
                     counts: PossibilityResult, win: real, tie: real)
    requires attackerDices >= 1 && defenderDices >= 1 && turns >= 1
    requires Tally(Rolls(attackerDices), Rolls(defenderDices)) == counts && counts.Total() > 0
    requires WinRate(counts) == win && TieRate(counts) == tie
    ensures WinRateAfterNTurns(attackerDices, defenderDices, turns) == TieRetrySeries(win, tie, turns)
  {
  }

  lemma SeriesOneOne()
    ensures TieRetrySeries(5.0 / 12.0, 1.0 / 6.0, 6) == 46655.0 / 93312.0 {}
  lemma SeriesTwoOne()
    ensures TieRetrySeries(125.0 / 216.0, 1.0 / 6.0, 6) == 1166375.0 / 1679616.0 {}
  lemma SeriesThreeOne()
    ensures TieRetrySeries(95.0 / 144.0, 1.0 / 6.0, 6) == 886445.0 / 1119744.0 {}
  lemma SeriesOneTwo()
    ensures TieRetrySeries(55.0 / 216.0, 1.0 / 6.0, 6) == 513205.0 / 1679616.0 {}
  lemma SeriesTwoTwo()
    ensures TieRetrySeries(505.0 / 1296.0, 143.0 / 648.0, 6)
            == 74028657424696415.0 / 148074416822550528.0 {}
  lemma SeriesThreeTwo()
    ensures TieRetrySeries(3667.0 / 7776.0, 107.0 / 432.0, 6)
            == 73321230561221489.0 / 116997070082015232.0 {}
}
