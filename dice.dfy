/**
 * The dice-outcome enumerator: every roll of the attacker's dice against
 * every roll of the defender's dice, classified by comparing the strongest
 * die on each side.
 */
module Dice {

  /** How many rolls the attacker wins, ties and loses in one turn. */
  datatype PossibilityResult = PossibilityResult(wins: int, tie: int, lose: int)
  {
    function Total(): int {
      wins + tie + lose
    }
  }

  const NoPossibilities := PossibilityResult(0, 0, 0)

  function Add(x: PossibilityResult, y: PossibilityResult): PossibilityResult {
    PossibilityResult(x.wins + y.wins, x.tie + y.tie, x.lose + y.lose)
  }

  function IntPow(x: int, n: nat): int {
    if n == 0 then 1 else x * IntPow(x, n - 1)
  }

  lemma {:induction false} IntPowPositive(x: int, n: nat)
    requires x >= 1
    ensures IntPow(x, n) >= 1
  {
    if n > 0 {
      IntPowPositive(x, n - 1);
    }
  }

  lemma IntPowOfZero(x: int, n: nat)
    requires x == 0 && n >= 1
    ensures IntPow(x, n) == 0
  {
  }

  lemma ProductPositive(p: int, q: int)
    requires p >= 1 && q >= 1
    ensures p * q >= 1
  {
  }

  /** The faces shown by the dice of one side, in order; a side rolls at least one die. */
  type Roll = r: seq<int> | |r| >= 1 witness [1]

  /** A roll of n six-sided dice: n faces, each between 1 and 6. */
  predicate IsRoll(roll: seq<int>, n: nat) {
    |roll| == n && forall i :: 0 <= i < n ==> 1 <= roll[i] <= 6
  }

  /**
   * The strongest die of a roll: the only die of a one-die roll, the
   * maximum of a longer one.
   */
  function MaxDie(roll: Roll): int {
    if |roll| == 1 then roll[0]
    else
      var rest := MaxDie(roll[1..]);
      if roll[0] > rest then roll[0] else rest
  }

  /** MaxDie is a face of the roll, and no face is higher. */
  lemma {:induction false} MaxDieIsMaximum(roll: Roll)
    ensures MaxDie(roll) in roll
    ensures forall i :: 0 <= i < |roll| ==> roll[i] <= MaxDie(roll)
  {
    if |roll| > 1 {
      MaxDieIsMaximum(roll[1..]);
      assert forall i :: 1 <= i < |roll| ==> roll[i] == roll[1..][i - 1];
    }
  }

  /** The rolls in `rest`, each with the face f put in front. */
  function Prepend(f: int, rest: seq<seq<int>>): seq<Roll> {
    if rest == [] then [] else Prepend(f, rest[..|rest| - 1]) + [[f] + rest[|rest| - 1]]
  }

  /** For each first face from f up to 6, every roll of `rest` after it. */
  function RollsFrom(f: int, rest: seq<seq<int>>): seq<Roll>
    decreases 7 - f
  {
    if f > 6 then [] else Prepend(f, rest) + RollsFrom(f + 1, rest)
  }

  /**
   * Every roll of n dice with faces 1 to 6, in the order of a Cartesian
   * product (the first die varies slowest).
   */
  function Rolls(n: nat): seq<Roll>
    requires n >= 1
  {
    if n == 1 then RollsFrom(1, [[]]) else RollsFrom(1, Rolls(n - 1))
  }

  /**
   * One comparison of strongest dice: a win when the attacker's is higher,
   * a tie when they are equal, a loss otherwise.
   */
  function Outcome(attackerMax: int, defenderMax: int): PossibilityResult {
    if attackerMax > defenderMax then PossibilityResult(1, 0, 0)
    else if attackerMax == defenderMax then PossibilityResult(0, 1, 0)
    else PossibilityResult(0, 0, 1)
  }

  /** The attacker's strongest die m against every defender roll in ys. */
  function Versus(m: int, ys: seq<Roll>): PossibilityResult {
    if ys == [] then NoPossibilities
    else Add(Versus(m, ys[..|ys| - 1]), Outcome(m, MaxDie(ys[|ys| - 1])))
  }

  /** Every attacker roll in xs against every defender roll in ys. */
  function Tally(xs: seq<Roll>, ys: seq<Roll>): PossibilityResult {
    if xs == [] then NoPossibilities
    else Add(Tally(xs[..|xs| - 1], ys), Versus(MaxDie(xs[|xs| - 1]), ys))
  }

  // ---------------------------------------------------------------------
  // The rolls: how many there are, and that each roll appears exactly once.

  lemma {:induction false} PrependLength(f: int, rest: seq<seq<int>>)
    ensures |Prepend(f, rest)| == |rest|
  {
    if rest != [] {
      PrependLength(f, rest[..|rest| - 1]);
    }
  }

  lemma {:induction false} RollsFromLength(f: int, rest: seq<seq<int>>)
    requires 1 <= f <= 7
    ensures |RollsFrom(f, rest)| == (7 - f) * |rest|
    decreases 7 - f
  {
    if f <= 6 {
      RollsFromLength(f + 1, rest);
      PrependLength(f, rest);
    }
  }

  lemma OneDieRollsLength()
    ensures |Rolls(1)| == 6
  {
    var empty: seq<seq<int>> := [[]];
    RollsFromLength(1, empty);
  }

  /** There are 6^n rolls of n dice. */
  lemma {:induction false} RollsLength(n: nat)
    requires n >= 1
    ensures |Rolls(n)| == IntPow(6, n)
    decreases n, 1
  {
    if n == 1 {
      OneDieRollsLength();
    } else {
      MoreDiceRollsLength(n);
    }
  }

  lemma {:induction false} MoreDiceRollsLength(n: nat)
    requires n >= 2
    ensures |Rolls(n)| == 6 * IntPow(6, n - 1)
    decreases n, 0
  {
    RollsLength(n - 1);
    RollsFromLength(1, Rolls(n - 1));
  }

  /** How many times `roll` occurs in `rolls`. */
  function Occurrences(rolls: seq<seq<int>>, roll: seq<int>): nat {
    if rolls == [] then 0
    else Occurrences(rolls[..|rolls| - 1], roll) + (if rolls[|rolls| - 1] == roll then 1 else 0)
  }

  lemma {:induction false} OccurrencesConcat(a: seq<seq<int>>, b: seq<seq<int>>, roll: seq<int>)
    ensures Occurrences(a + b, roll) == Occurrences(a, roll) + Occurrences(b, roll)
  {
    if b == [] {
      assert a + b == a;
    } else {
      OccurrencesConcat(a, b[..|b| - 1], roll);
      assert (a + b)[..|a + b| - 1] == a + b[..|b| - 1];
    }
  }

  lemma {:induction false} PrependOccurrences(f: int, rest: seq<seq<int>>, roll: seq<int>)
    ensures Occurrences(Prepend(f, rest), roll) ==
            if |roll| >= 1 && roll[0] == f then Occurrences(rest, roll[1..]) else 0
  {
    if rest != [] {
      var init := rest[..|rest| - 1];
      var last := rest[|rest| - 1];
      PrependOccurrences(f, init, roll);
      OccurrencesConcat(Prepend(f, init), [[f] + last], roll);
      assert Occurrences([[f] + last], roll) == if [f] + last == roll then 1 else 0 by {
        assert [[f] + last][..0] == [];
      }
      if |roll| >= 1 && roll[0] == f {
        assert roll == [f] + roll[1..];
        assert ([f] + last == roll) <==> (last == roll[1..]);
      } else {
        assert [f] + last != roll by {
          if |roll| >= 1 {
            assert ([f] + last)[0] != roll[0];
          }
        }
      }
    }
  }

  lemma {:induction false} RollsFromOccurrences(f: int, rest: seq<seq<int>>, roll: seq<int>)
    requires f >= 1
    ensures Occurrences(RollsFrom(f, rest), roll) ==
            if |roll| >= 1 && f <= roll[0] <= 6 then Occurrences(rest, roll[1..]) else 0
    decreases 7 - f
  {
    if f <= 6 {
      RollsFromOccurrences(f + 1, rest, roll);
      PrependOccurrences(f, rest, roll);
      OccurrencesConcat(Prepend(f, rest), RollsFrom(f + 1, rest), roll);
    }
  }

  lemma IsRollCons(roll: seq<int>, n: nat)
    requires |roll| >= 1 && n >= 1
    ensures IsRoll(roll, n) <==> 1 <= roll[0] <= 6 && IsRoll(roll[1..], n - 1)
  {
    if 1 <= roll[0] <= 6 && IsRoll(roll[1..], n - 1) {
      forall i | 0 <= i < n ensures 1 <= roll[i] <= 6 {
        if i > 0 {
          assert roll[i] == roll[1..][i - 1];
        }
      }
    }
  }

  /**
   * The enumeration covers every roll exactly once: a roll of n dice with
   * faces 1 to 6 occurs once in Rolls(n), and anything else never occurs.
   */
  lemma {:induction false} RollsCoverEachRollOnce(n: nat, roll: seq<int>)
    requires n >= 1
    ensures Occurrences(Rolls(n), roll) == if IsRoll(roll, n) then 1 else 0
    decreases n, 1
  {
    if |roll| == 0 {
      RollsFromOccurrences(1, if n == 1 then [[]] else Rolls(n - 1), roll);
    } else {
      RollsStep(n, roll);
    }
  }

  lemma {:induction false} RollsStep(n: nat, roll: seq<int>)
    requires n >= 1 && |roll| >= 1
    ensures Occurrences(Rolls(n), roll) == if IsRoll(roll, n) then 1 else 0
    decreases n, 0
  {
    IsRollCons(roll, n);
    if n == 1 {
      RollsFromOccurrences(1, [[]], roll);
      var tail := roll[1..];
      assert Occurrences([[]], tail) == if tail == [] then 1 else 0 by {
        var empty: seq<seq<int>> := [[]];
        assert empty[..0] == [];
      }
    } else {
      RollsCoverEachRollOnce(n - 1, roll[1..]);
      RollsFromOccurrences(1, Rolls(n - 1), roll);
    }
  }

  lemma {:induction false} OccurrencesInRolls(rolls: seq<seq<int>>, k: nat)
    requires k < |rolls|
    ensures Occurrences(rolls, rolls[k]) >= 1
  {
    if k < |rolls| - 1 {
      OccurrencesInRolls(rolls[..|rolls| - 1], k);
    }
  }

  /** Every enumerated roll is a roll of n dice with faces 1 to 6. */
  lemma RollsAreRolls(n: nat, k: nat)
    requires n >= 1 && k < |Rolls(n)|
    ensures IsRoll(Rolls(n)[k], n)
  {
    RollsCoverEachRollOnce(n, Rolls(n)[k]);
    OccurrencesInRolls(Rolls(n), k);
  }

  // ---------------------------------------------------------------------
  // The counts add up to the number of roll pairs.

  lemma {:induction false} VersusTotal(m: int, ys: seq<Roll>)
    ensures Versus(m, ys).Total() == |ys|
  {
    if ys != [] {
      VersusTotal(m, ys[..|ys| - 1]);
    }
  }

  /** Each pair of an attacker roll and a defender roll is counted once. */
  lemma {:induction false} TallyTotal(xs: seq<Roll>, ys: seq<Roll>)
    ensures Tally(xs, ys).Total() == |xs| * |ys|
  {
    if xs != [] {
      var init := xs[..|xs| - 1];
      TallyTotal(init, ys);
      VersusTotal(MaxDie(xs[|xs| - 1]), ys);
      assert |init| * |ys| + |ys| == |xs| * |ys| by {
        assert |xs| == |init| + 1;
      }
    }
  }

  /** No count is ever negative. */
  lemma {:induction false} VersusNonNegative(m: int, ys: seq<Roll>)
    ensures var r := Versus(m, ys); r.wins >= 0 && r.tie >= 0 && r.lose >= 0
  {
    if ys != [] {
      VersusNonNegative(m, ys[..|ys| - 1]);
    }
  }

  lemma {:induction false} TallyNonNegative(xs: seq<Roll>, ys: seq<Roll>)
    ensures var r := Tally(xs, ys); r.wins >= 0 && r.tie >= 0 && r.lose >= 0
  {
    if xs != [] {
      TallyNonNegative(xs[..|xs| - 1], ys);
      VersusNonNegative(MaxDie(xs[|xs| - 1]), ys);
    }
  }

  /**
   * wins + tie + lose is the size of the whole Cartesian product,
   * 6^attackerDices * 6^defenderDices, and so never zero.
   */
  lemma OneTurnTotal(attackerDices: nat, defenderDices: nat)
    requires attackerDices >= 1 && defenderDices >= 1
    ensures Tally(Rolls(attackerDices), Rolls(defenderDices)).Total()
            == IntPow(6, attackerDices) * IntPow(6, defenderDices)
    ensures Tally(Rolls(attackerDices), Rolls(defenderDices)).Total() > 0
    ensures attackerDices == 3 && defenderDices == 2 ==>
              Tally(Rolls(attackerDices), Rolls(defenderDices)).Total() == 7776
  {
    var xs, ys := Rolls(attackerDices), Rolls(defenderDices);
    RollsLength(attackerDices);
    RollsLength(defenderDices);
    TallyTotal(xs, ys);
    var p, q := IntPow(6, attackerDices), IntPow(6, defenderDices);
    IntPowPositive(6, attackerDices);
    IntPowPositive(6, defenderDices);
    ProductPositive(p, q);
    if attackerDices == 3 && defenderDices == 2 {
      assert p == IntPow(6, 3) == 216;
      assert q == IntPow(6, 2) == 36;
    }
  }

  // ---------------------------------------------------------------------
  // The enumerator itself.

  /**
   * compute_possibilities_one_turn: every roll of the attacker's dice
   * against every roll of the defender's dice.
   */
  method ComputePossibilitiesOneTurn(attackerDices: nat, defenderDices: nat)
    returns (result: PossibilityResult)
    requires attackerDices >= 1 && defenderDices >= 1
    ensures result == Tally(Rolls(attackerDices), Rolls(defenderDices))
    ensures result.Total() == IntPow(6, attackerDices) * IntPow(6, defenderDices)
  {
    result := CountOutcomes(Rolls(attackerDices), Rolls(defenderDices));
    OneTurnTotal(attackerDices, defenderDices);
  }

  /**
   * The outer loop of compute_possibilities_one_turn: each attacker roll's
   * strongest die is compared with every defender roll.
   */
  method CountOutcomes(attackerRolls: seq<Roll>, defenderRolls: seq<Roll>)
    returns (result: PossibilityResult)
    ensures result == Tally(attackerRolls, defenderRolls)
  {
    result := NoPossibilities;
    var i := 0;
    while i < |attackerRolls|
      invariant 0 <= i <= |attackerRolls|
      invariant result == Tally(attackerRolls[..i], defenderRolls)
    {
      var maxAttackerDice := MaxDie(attackerRolls[i]);
      TallyStep(attackerRolls, defenderRolls, i);
      result := CountAgainstDefender(result, maxAttackerDice, defenderRolls);
      i := i + 1;
    }
    assert attackerRolls[..i] == attackerRolls;
  }

  /**
   * The inner loop of compute_possibilities_one_turn: the attacker's
   * strongest die against every defender roll, bumping wins, tie or lose
   * of the running result.
   */
  method CountAgainstDefender(start: PossibilityResult, maxAttackerDice: int, defenderRolls: seq<Roll>)
    returns (result: PossibilityResult)
    ensures result == Add(start, Versus(maxAttackerDice, defenderRolls))
  {
    result := start;
    var j := 0;
    while j < |defenderRolls|
      invariant 0 <= j <= |defenderRolls|
      invariant result == Add(start, Versus(maxAttackerDice, defenderRolls[..j]))
    {
      var maxDefenderDice := MaxDie(defenderRolls[j]);
      VersusStep(start, maxAttackerDice, defenderRolls, j);
      if maxAttackerDice > maxDefenderDice {
        result := result.(wins := result.wins + 1);
      } else if maxAttackerDice == maxDefenderDice {
        result := result.(tie := result.tie + 1);
      } else {
        result := result.(lose := result.lose + 1);
      }
      j := j + 1;
    }
    assert defenderRolls[..j] == defenderRolls;
  }

  lemma VersusStep(before: PossibilityResult, m: int, ys: seq<Roll>, j: nat)
    requires j < |ys|
    ensures Add(before, Versus(m, ys[..j + 1]))
            == Add(Add(before, Versus(m, ys[..j])), Outcome(m, MaxDie(ys[j])))
  {
    assert ys[..j + 1][..j] == ys[..j];
  }

  lemma TallyStep(xs: seq<Roll>, ys: seq<Roll>, i: nat)
    requires i < |xs|
    ensures Tally(xs[..i + 1], ys) == Add(Tally(xs[..i], ys), Versus(MaxDie(xs[i]), ys))
  {
    assert xs[..i + 1][..i] == xs[..i];
  }
}
