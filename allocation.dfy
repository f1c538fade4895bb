/**
 * How many dice each side rolls in one exchange: the attacker rolls one
 * die per unit up to 3, the defender one per unit up to 2, and a fortress
 * lets a lone defending unit roll 2.
 */
module Allocation {

  function Min(x: int, y: int): int {
    if x <= y then x else y
  }

  /** The dice counts dices_for_fight returns, as a pair (attacker dice, defender dice). */
  function DiceRule(attackerBataillons: nat, defenderBataillons: nat, fortress: bool): (nat, nat) {
    var attackerDices := Min(attackerBataillons, 3);
    var defenderDices := Min(defenderBataillons, 2);
    (attackerDices, if defenderDices == 1 && fortress then 2 else defenderDices)
  }

  /** dices_for_fight: cap both sides, then reassign the defender's count behind a fortress. */
  method DicesForFight(attackerBataillons: nat, defenderBataillons: nat, fortress: bool)
    returns (attackerDices: nat, defenderDices: nat)
    ensures (attackerDices, defenderDices) == DiceRule(attackerBataillons, defenderBataillons, fortress)
  {
    attackerDices := Min(attackerBataillons, 3);
    defenderDices := Min(defenderBataillons, 2);
    if defenderDices == 1 && fortress {
      defenderDices := 2;
    }
  }

  /**
   * The rule case by case: every unit up to three rolls for the attacker;
   * the defender rolls none without units, one for one unit (two behind
   * a fortress) and two otherwise.
   */
  lemma DiceRuleCases(attackerBataillons: nat, defenderBataillons: nat, fortress: bool)
    ensures var (a, d) := DiceRule(attackerBataillons, defenderBataillons, fortress);
            (attackerBataillons <= 3 ==> a == attackerBataillons) &&
            (attackerBataillons >= 3 ==> a == 3) &&
            (defenderBataillons == 0 ==> d == 0) &&
            (defenderBataillons == 1 ==> d == if fortress then 2 else 1) &&
            (defenderBataillons >= 2 ==> d == 2)
  {
  }

  /**
   * With at least one unit on each side, the attacker rolls 1 to 3 dice
   * and the defender 1 or 2, so the enumerator is never asked for zero dice.
   */
  lemma DiceRuleRange(attackerBataillons: nat, defenderBataillons: nat, fortress: bool)
    requires attackerBataillons >= 1 && defenderBataillons >= 1
    ensures var (a, d) := DiceRule(attackerBataillons, defenderBataillons, fortress);
            1 <= a <= 3 && 1 <= d <= 2 && a <= attackerBataillons
  {
  }

  /** A fortress changes the dice only for a lone defending unit, and then only the defender's. */
  lemma FortressOnlyForLoneDefender(attackerBataillons: nat, defenderBataillons: nat)
    ensures DiceRule(attackerBataillons, defenderBataillons, true)
            != DiceRule(attackerBataillons, defenderBataillons, false)
            <==> defenderBataillons == 1
    ensures DiceRule(attackerBataillons, defenderBataillons, true).0
            == DiceRule(attackerBataillons, defenderBataillons, false).0
  {
  }
}
