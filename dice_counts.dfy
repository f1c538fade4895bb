/**
 * Closed forms for the enumerator's counts. A roll of n dice has its
 * strongest die at most k in k^n ways, so the attacker's strongest die is
 * exactly j in j^a - (j-1)^a ways, and against it the defender's rolls
 * split into (j-1)^d wins, j^d - (j-1)^d ties and 6^d - j^d losses.
 */
module DiceCounts {
  import opened Dice

  /** Every face of the roll is at most k. */
  predicate AtMost(roll: seq<int>, k: int) {
    forall i :: 0 <= i < |roll| ==> roll[i] <= k
  }

  /** How many rolls in `rolls` have every face at most k. */
  function CountAtMost(rolls: seq<seq<int>>, k: int): nat {
    if rolls == [] then 0
    else CountAtMost(rolls[..|rolls| - 1], k) + (if AtMost(rolls[|rolls| - 1], k) then 1 else 0)
  }

  /** How many rolls in `rolls` have strongest die exactly j. */
  function CountMaxEquals(rolls: seq<Roll>, j: int): nat {
    if rolls == [] then 0
    else CountMaxEquals(rolls[..|rolls| - 1], j) + (if MaxDie(rolls[|rolls| - 1]) == j then 1 else 0)
  }

  /** The strongest die is at most k exactly when every face is. */
  lemma MaxDieAtMost(roll: Roll, k: int)
    ensures MaxDie(roll) <= k <==> AtMost(roll, k)
  {
    MaxDieIsMaximum(roll);
  }

  lemma {:induction false} CountAtMostConcat(a: seq<seq<int>>, b: seq<seq<int>>, k: int)
    ensures CountAtMost(a + b, k) == CountAtMost(a, k) + CountAtMost(b, k)
  {
    if b == [] {
      assert a + b == a;
    } else {
      CountAtMostConcat(a, b[..|b| - 1], k);
      assert (a + b)[..|a + b| - 1] == a + b[..|b| - 1];
    }
  }

  lemma AtMostCons(f: int, roll: seq<int>, k: int)
    ensures AtMost([f] + roll, k) <==> f <= k && AtMost(roll, k)
  {
    var r := [f] + roll;
    assert forall i :: 1 <= i < |r| ==> r[i] == roll[i - 1];
    if f <= k && AtMost(roll, k) {
      forall i | 0 <= i < |r| ensures r[i] <= k {
        if i > 0 {
          assert r[i] == roll[i - 1];
        }
      }
    }
    if AtMost(r, k) {
      assert r[0] == f;
      forall i | 0 <= i < |roll| ensures roll[i] <= k {
        assert roll[i] == r[i + 1];
      }
    }
  }

  lemma {:induction false} PrependCountAtMost(f: int, rest: seq<seq<int>>, k: int)
    ensures CountAtMost(Prepend(f, rest), k) == if f <= k then CountAtMost(rest, k) else 0
  {
    if rest != [] {
      var init := rest[..|rest| - 1];
      var last := rest[|rest| - 1];
      PrependCountAtMost(f, init, k);
      AtMostCons(f, last, k);
      var single: seq<seq<int>> := [[f] + last];
      CountAtMostConcat(Prepend(f, init), single, k);
      assert single[..0] == [];
    }
  }

  /** The number of first faces from f to 6 that are at most k. */
  function FacesAtMost(f: int, k: int): int {
    if k >= f then k - f + 1 else 0
  }

  lemma FacesStep(f: int, k: int, c: int)
    ensures FacesAtMost(f, k) * c == (if f <= k then c else 0) + FacesAtMost(f + 1, k) * c
  {
    if k >= f {
      assert FacesAtMost(f, k) == FacesAtMost(f + 1, k) + 1;
    }
  }

  lemma {:induction false} RollsFromCountAtMost(f: int, rest: seq<seq<int>>, k: int)
    requires 1 <= f <= 7 && 0 <= k <= 6
    ensures CountAtMost(RollsFrom(f, rest), k) == FacesAtMost(f, k) * CountAtMost(rest, k)
    decreases 7 - f
  {
    if f <= 6 {
      RollsFromCountAtMost(f + 1, rest, k);
      PrependCountAtMost(f, rest, k);
      CountAtMostConcat(Prepend(f, rest), RollsFrom(f + 1, rest), k);
      var c := CountAtMost(rest, k);
      assert RollsFrom(f, rest) == Prepend(f, rest) + RollsFrom(f + 1, rest);
      FacesStep(f, k, c);
    }
  }

  /** k^n of the rolls of n dice have every face at most k. */
  lemma {:induction false} RollsCountAtMost(n: nat, k: int)
    requires n >= 1 && 0 <= k <= 6
    ensures CountAtMost(Rolls(n), k) == IntPow(k, n)
    decreases n, 1
  {
    if n == 1 {
      var empty: seq<seq<int>> := [[]];
      RollsFromCountAtMost(1, empty, k);
      assert CountAtMost(empty, k) == 1 by {
        assert empty[..0] == [];
        assert AtMost(empty[0], k);
      }
    } else {
      MoreDiceCountAtMost(n, k);
    }
  }

  lemma {:induction false} MoreDiceCountAtMost(n: nat, k: int)
    requires n >= 2 && 0 <= k <= 6
    ensures CountAtMost(Rolls(n), k) == k * IntPow(k, n - 1)
    decreases n, 0
  {
    RollsCountAtMost(n - 1, k);
    RollsFromCountAtMost(1, Rolls(n - 1), k);
  }

  /** Exactly-j counts are differences of at-most counts. */
  lemma {:induction false} CountMaxEqualsByAtMost(rolls: seq<Roll>, j: int)
    ensures CountMaxEquals(rolls, j) == CountAtMost(rolls, j) - CountAtMost(rolls, j - 1)
  {
    if rolls != [] {
      var last := rolls[|rolls| - 1];
      CountMaxEqualsByAtMost(rolls[..|rolls| - 1], j);
      MaxDieAtMost(last, j);
      MaxDieAtMost(last, j - 1);
    }
  }

  /**
   * The attacker's strongest die m wins against the defender rolls whose
   * strongest die is at most m - 1, ties with those whose strongest die is
   * exactly m, and loses to the rest.
   */
  lemma {:induction false} VersusByAtMost(m: int, ys: seq<Roll>)
    ensures Versus(m, ys) == PossibilityResult(
              CountAtMost(ys, m - 1),
              CountAtMost(ys, m) - CountAtMost(ys, m - 1),
              |ys| - CountAtMost(ys, m))
  {
    if ys != [] {
      var init, last := ys[..|ys| - 1], ys[|ys| - 1];
      VersusByAtMost(m, init);
      MaxDieAtMost(last, m);
      MaxDieAtMost(last, m - 1);
      assert Versus(m, ys) == Add(Versus(m, init), Outcome(m, MaxDie(last)));
      assert CountAtMost(ys, m) == CountAtMost(init, m) + (if AtMost(last, m) then 1 else 0);
      assert CountAtMost(ys, m - 1) == CountAtMost(init, m - 1) + (if AtMost(last, m - 1) then 1 else 0);
    }
  }

  /** One of the three counts: 0 for wins, 1 for ties, 2 for losses. */
  function Part(r: PossibilityResult, k: nat): int {
    if k == 0 then r.wins else if k == 1 then r.tie else r.lose
  }

  lemma PartAdd(x: PossibilityResult, y: PossibilityResult, k: nat)
    ensures Part(Add(x, y), k) == Part(x, k) + Part(y, k)
  {
  }

  /** c copies of r added up. */
  function Scale(c: nat, r: int): int {
    if c == 0 then 0 else Scale(c - 1, r) + r
  }

  lemma {:induction false} ScaleIsProduct(c: nat, r: int)
    ensures Scale(c, r) == c * r
  {
    if c > 0 {
      ScaleIsProduct(c - 1, r);
    }
  }

  lemma ScaleSucc(c: nat, r: int)
    ensures Scale(c + 1, r) == Scale(c, r) + r
  {
  }

  /**
   * One count of the attacker rolls, grouped by their strongest die: for
   * each face j from m up to 6, the number of rolls in xs whose strongest
   * die is j, times rows[j], that count for one such roll.
   */
  function Grouped(xs: seq<Roll>, rows: seq<int>, m: nat): int
    requires |rows| == 7
    decreases 7 - m
  {
    if m > 6 then 0
    else Scale(CountMaxEquals(xs, m), rows[m]) + Grouped(xs, rows, m + 1)
  }

  /** What one attacker roll whose strongest die is `last` adds to Grouped from m. */
  function Share(last: int, rows: seq<int>, m: nat): int
    requires |rows| == 7
  {
    if m <= last <= 6 then rows[last] else 0
  }

  /** Grouped over xs is Grouped over all but its last roll, plus that roll's share. */
  lemma {:induction false} GroupedSnoc(xs: seq<Roll>, rows: seq<int>, m: nat)
    requires xs != [] && |rows| == 7
    ensures Grouped(xs, rows, m) ==
              Grouped(xs[..|xs| - 1], rows, m) + Share(MaxDie(xs[|xs| - 1]), rows, m)
    decreases 7 - m
  {
    if m <= 6 {
      var init := xs[..|xs| - 1];
      GroupedSnoc(xs, rows, m + 1);
      var c := CountMaxEquals(init, m);
      if MaxDie(xs[|xs| - 1]) == m {
        assert CountMaxEquals(xs, m) == c + 1;
        ScaleSucc(c, rows[m]);
      } else {
        assert CountMaxEquals(xs, m) == c;
      }
    }
  }

  lemma {:induction false} NoneGrouped(rows: seq<int>, m: nat)
    requires |rows| == 7
    ensures Grouped(NoRolls, rows, m) == 0
    decreases 7 - m
  {
    if m <= 6 {
      NoneGrouped(rows, m + 1);
      assert CountMaxEquals(NoRolls, m) == 0;
    }
  }

  const NoRolls: seq<Roll> := []

  /** Row j holds count k of one attacker roll with strongest die j against every roll in ys. */
  function VersusRows(ys: seq<Roll>, k: nat): (rows: seq<int>)
    ensures |rows| == 7 && forall j :: 0 <= j < 7 ==> rows[j] == Part(Versus(j, ys), k)
  {
    seq(7, j => Part(Versus(j, ys), k))
  }

  /** Grouping the attacker rolls by strongest die does not change the counts. */
  lemma {:induction false} TallyGrouped(xs: seq<Roll>, ys: seq<Roll>, k: nat)
    requires forall i :: 0 <= i < |xs| ==> 1 <= MaxDie(xs[i]) <= 6
    ensures Part(Tally(xs, ys), k) == Grouped(xs, VersusRows(ys, k), 1)
  {
    var rows := VersusRows(ys, k);
    if xs == [] {
      NoneGrouped(rows, 1);
      assert xs == NoRolls;
      assert Part(NoPossibilities, k) == 0;
    } else {
      var init, last := xs[..|xs| - 1], MaxDie(xs[|xs| - 1]);
      assert forall i :: 0 <= i < |init| ==> init[i] == xs[i];
      TallyGrouped(init, ys, k);
      GroupedSnoc(xs, rows, 1);
      PartAdd(Tally(init, ys), Versus(last, ys), k);
      assert Share(last, rows, 1) == Part(Versus(last, ys), k);
    }
  }

  /** The strongest die of an enumerated roll is a face from 1 to 6. */
  lemma RollsMaxDie(n: nat)
    requires n >= 1
    ensures forall i :: 0 <= i < |Rolls(n)| ==> 1 <= MaxDie(Rolls(n)[i]) <= 6
  {
    forall i | 0 <= i < |Rolls(n)| ensures 1 <= MaxDie(Rolls(n)[i]) <= 6 {
      var roll := Rolls(n)[i];
      RollsAreRolls(n, i);
      MaxDieIsMaximum(roll);
    }
  }

  /**
   * How one attacker roll whose strongest die is j fares against the
   * rolls of d defender dice: (j-1)^d wins, j^d - (j-1)^d ties and
   * 6^d - j^d losses.
   */
  function DefenderCounts(d: nat, j: int): PossibilityResult {
    PossibilityResult(IntPow(j - 1, d), IntPow(j, d) - IntPow(j - 1, d), IntPow(6, d) - IntPow(j, d))
  }

  /** How many rolls of a dice have strongest die j: j^a - (j-1)^a. */
  function AttackerWithMax(a: nat, j: int): int {
    IntPow(j, a) - IntPow(j - 1, a)
  }

  /** Count k of DefenderCounts(d, j), written out. */
  function DefenderPart(d: nat, j: int, k: nat): int {
    if k == 0 then IntPow(j - 1, d)
    else if k == 1 then IntPow(j, d) - IntPow(j - 1, d)
    else IntPow(6, d) - IntPow(j, d)
  }

  lemma DefenderPartOfCounts(d: nat, j: int, k: nat)
    ensures Part(DefenderCounts(d, j), k) == DefenderPart(d, j, k)
  {
  }

  /**
   * Count k of the closed form, summed over the attacker's strongest die j
   * from m up to 6: j^a - (j-1)^a attacker rolls, each with count k of
   * DefenderCounts(d, j).
   */
  function ClosedSum(a: nat, d: nat, k: nat, m: int): int
    decreases 7 - m
  {
    if m > 6 then 0
    else (IntPow(m, a) - IntPow(m - 1, a)) * DefenderPart(d, m, k) + ClosedSum(a, d, k, m + 1)
  }

  /** The enumerator's counts for a attacker dice against d defender dice, in closed form. */
  function ClosedForm(a: nat, d: nat): PossibilityResult {
    PossibilityResult(ClosedSum(a, d, 0, 1), ClosedSum(a, d, 1, 1), ClosedSum(a, d, 2, 1))
  }

  /** The attacker factor of one term of the closed form: rolls whose strongest die is m. */
  lemma AttackerRollsWithMax(a: nat, m: nat)
    requires a >= 1 && 1 <= m <= 6
    ensures CountMaxEquals(Rolls(a), m) == AttackerWithMax(a, m)
  {
    CountMaxEqualsByAtMost(Rolls(a), m);
    RollsCountAtMost(a, m);
    RollsCountAtMost(a, m - 1);
  }

  /** The defender factor: how one attacker roll with strongest die m fares against all defender rolls. */
  lemma DefenderRollsAgainst(d: nat, m: nat)
    requires d >= 1 && 1 <= m <= 6
    ensures Versus(m, Rolls(d)) == DefenderCounts(d, m)
  {
    VersusByAtMost(m, Rolls(d));
    RollsCountAtMost(d, m);
    RollsCountAtMost(d, m - 1);
    RollsLength(d);
  }

  lemma DefenderRow(d: nat, k: nat, m: nat)
    requires d >= 1 && 1 <= m <= 6
    ensures VersusRows(Rolls(d), k)[m] == DefenderPart(d, m, k)
  {
    DefenderRollsAgainst(d, m);
    DefenderPartOfCounts(d, m, k);
  }

  lemma {:induction false} GroupedClosed(a: nat, d: nat, k: nat, m: nat)
    requires a >= 1 && d >= 1 && 1 <= m <= 7
    ensures Grouped(Rolls(a), VersusRows(Rolls(d), k), m) == ClosedSum(a, d, k, m)
    decreases 7 - m
  {
    if m <= 6 {
      GroupedClosed(a, d, k, m + 1);
      GroupedTerm(a, d, k, m);
      AttackerFactor(a, d, k, m);
    }
  }

  /** One term of Grouped over the enumerated rolls is the matching term of the closed form. */
  lemma AttackerFactor(a: nat, d: nat, k: nat, m: nat)
    ensures AttackerWithMax(a, m) * DefenderPart(d, m, k)
            == (IntPow(m, a) - IntPow(m - 1, a)) * DefenderPart(d, m, k)
  {
  }

  lemma GroupedTerm(a: nat, d: nat, k: nat, m: nat)
    requires a >= 1 && d >= 1 && 1 <= m <= 6
    ensures Scale(CountMaxEquals(Rolls(a), m), VersusRows(Rolls(d), k)[m])
            == AttackerWithMax(a, m) * DefenderPart(d, m, k)
  {
    AttackerRollsWithMax(a, m);
    DefenderRow(d, k, m);
    ScaleIsProduct(CountMaxEquals(Rolls(a), m), VersusRows(Rolls(d), k)[m]);
  }

  /** The enumerator's counts for the dice counts a fight can use. */
  lemma OneTurnCounts(a: nat, d: nat)
    requires a >= 1 && d >= 1
    ensures a == 1 && d == 1 ==> Tally(Rolls(a), Rolls(d)) == PossibilityResult(15, 6, 15)
    ensures a == 2 && d == 1 ==> Tally(Rolls(a), Rolls(d)) == PossibilityResult(125, 36, 55)
    ensures a == 3 && d == 1 ==> Tally(Rolls(a), Rolls(d)) == PossibilityResult(855, 216, 225)
    ensures a == 1 && d == 2 ==> Tally(Rolls(a), Rolls(d)) == PossibilityResult(55, 36, 125)
    ensures a == 2 && d == 2 ==> Tally(Rolls(a), Rolls(d)) == PossibilityResult(505, 286, 505)
    ensures a == 3 && d == 2 ==> Tally(Rolls(a), Rolls(d)) == PossibilityResult(3667, 1926, 2183)
  {
    OneTurnIsClosedForm(a, d);
    ClosedFormValues(a, d);
  }

  lemma OneTurnIsClosedForm(a: nat, d: nat)
    requires a >= 1 && d >= 1
    ensures Tally(Rolls(a), Rolls(d)) == ClosedForm(a, d)
  {
    var xs, ys := Rolls(a), Rolls(d);
    RollsMaxDie(a);
    TallyGrouped(xs, ys, 0);
    TallyGrouped(xs, ys, 1);
    TallyGrouped(xs, ys, 2);
    GroupedClosed(a, d, 0, 1);
    GroupedClosed(a, d, 1, 1);
    GroupedClosed(a, d, 2, 1);
  }

  lemma ClosedFormValues(a: nat, d: nat)
    ensures a == 1 && d == 1 ==> ClosedForm(a, d) == PossibilityResult(15, 6, 15)
    ensures a == 2 && d == 1 ==> ClosedForm(a, d) == PossibilityResult(125, 36, 55)
    ensures a == 3 && d == 1 ==> ClosedForm(a, d) == PossibilityResult(855, 216, 225)
    ensures a == 1 && d == 2 ==> ClosedForm(a, d) == PossibilityResult(55, 36, 125)
    ensures a == 2 && d == 2 ==> ClosedForm(a, d) == PossibilityResult(505, 286, 505)
    ensures a == 3 && d == 2 ==> ClosedForm(a, d) == PossibilityResult(3667, 1926, 2183)
  {
    if a == 1 && d == 1 {
      ClosedOneOne();
    } else if a == 2 && d == 1 {
      ClosedTwoOne();
    } else if a == 3 && d == 1 {
      ClosedThreeOne();
    } else if a == 1 && d == 2 {
      ClosedOneTwo();
    } else if a == 2 && d == 2 {
      ClosedTwoTwo();
    } else if a == 3 && d == 2 {
      ClosedThreeTwo();
    }
  }

  lemma ClosedOneOne() ensures ClosedForm(1, 1) == PossibilityResult(15, 6, 15) {}
  lemma ClosedTwoOne() ensures ClosedForm(2, 1) == PossibilityResult(125, 36, 55) {}
  lemma ClosedThreeOne() ensures ClosedForm(3, 1) == PossibilityResult(855, 216, 225) {}
  lemma ClosedOneTwo() ensures ClosedForm(1, 2) == PossibilityResult(55, 36, 125) {}
  lemma ClosedTwoTwo() ensures ClosedForm(2, 2) == PossibilityResult(505, 286, 505) {}
  lemma ClosedThreeTwo() ensures ClosedForm(3, 2) == PossibilityResult(3667, 1926, 2183) {}

  /**
   * With the same number of dice on both sides, the attacker wins exactly
   * as many rolls as it loses: ties go to the defender, but a die higher
   * than the opposing one is equally likely on either side.
   */
  lemma EqualDiceWinsEqualLosses(n: nat)
    requires n >= 1
    ensures Tally(Rolls(n), Rolls(n)).wins == Tally(Rolls(n), Rolls(n)).lose
  {
    OneTurnIsClosedForm(n, n);
    ClosedDifference(n, 1);
    IntPowOfZero(0, n);
  }

  /**
   * wins - lose of the closed form from m upwards telescopes to
   * P(m-1) * (P(6) - P(m-1)), where P(j) = j^n.
   */
  lemma {:induction false} ClosedDifference(n: nat, m: int)
    requires 1 <= m <= 7
    ensures ClosedSum(n, n, 0, m) - ClosedSum(n, n, 2, m)
            == IntPow(m - 1, n) * (IntPow(6, n) - IntPow(m - 1, n))
    decreases 7 - m
  {
    if m <= 6 {
      ClosedDifference(n, m + 1);
      DifferenceStep(IntPow(m - 1, n), IntPow(m, n), IntPow(6, n));
    }
  }

  lemma DifferenceStep(p: int, q: int, top: int)
    ensures (q - p) * p - (q - p) * (top - q) + q * (top - q) == p * (top - p)
  {
  }
}
