// Checksum validators (rubezh-sanitizer/app/detectors/pii.py): the Luhn check of card
// numbers (ISO/IEC 7812-1, Annex B) and the control digits of the tax number INN.
// Digits are the ASCII digits.
module Checksums {
  import opened Strings

  /** `[int(ch) for ch in value if ch.isdigit()]`. */
  function Digits(value: string): (r: seq<nat>)
    ensures AreDigits(r)
  {
    if value == "" then []
    else
      var front, c := Digits(value[..|value| - 1]), value[|value| - 1];
      if IsDigit(c) then front + [c as int - '0' as int] else front
  }

  /** Character by character: a digit gives its value, anything else nothing. */
  lemma {:induction false} DigitsAre(a: string, b: string)
    ensures Digits(a + b) == Digits(a) + Digits(b)
    ensures forall c :: Digits([c]) == if '0' <= c <= '9' then [c as int - 48] else []
  {
    forall c
      ensures Digits([c]) == if '0' <= c <= '9' then [c as int - 48] else []
    {
      assert [c][..0] == "";
    }
    if b == "" {
      assert a + b == a;
    } else {
      assert (a + b)[..|a + b| - 1] == a + b[..|b| - 1];
      DigitsAre(a, b[..|b| - 1]);
    }
  }

  predicate AreDigits(digits: seq<nat>) {
    forall i :: 0 <= i < |digits| ==> digits[i] <= 9
  }

  /** `len(set(digits)) <= 1`. */
  predicate Degenerate(digits: seq<nat>) {
    forall i, j :: 0 <= i < |digits| && 0 <= j < |digits| ==> digits[i] == digits[j]
  }

  /** Only one value, or none. */
  lemma DegenerateIs(digits: seq<nat>)
    ensures Degenerate(digits) <==> forall i :: 0 <= i < |digits| ==> digits[i] == digits[0]
  {
  }

  // ----- Luhn

  function Doubled(d: nat): nat {
    if 2 * d > 9 then 2 * d - 9 else 2 * d
  }

  /** The sum over digits counted from the right; every second one is doubled. */
  function LuhnSum(reversed: seq<nat>): nat {
    if reversed == [] then 0
    else
      var n := |reversed| - 1;
      LuhnSum(reversed[..n]) + if n % 2 == 1 then Doubled(reversed[n]) else reversed[n]
  }

  function Reversed(s: seq<nat>): (r: seq<nat>)
    ensures |r| == |s| && forall i :: 0 <= i < |s| ==> r[i] == s[|s| - 1 - i]
  {
    seq(|s|, i requires 0 <= i < |s| => s[|s| - 1 - i])
  }

  predicate LuhnValid(digits: seq<nat>) {
    13 <= |digits| <= 19 && !Degenerate(digits) && LuhnSum(Reversed(digits)) % 10 == 0
  }

  method ValidateCardLuhn(value: string) returns (ok: bool)
    ensures ok == LuhnValid(Digits(value))
  {
    var digits := Digits(value);
    if !(13 <= |digits| <= 19) || Degenerate(digits) {
      return false;
    }
    var reversed := Reversed(digits);
    var checksum := 0;
    for i := 0 to |reversed|
      invariant checksum == LuhnSum(reversed[..i])
    {
      assert reversed[..i + 1][..i] == reversed[..i];
      var num := reversed[i];
      if i % 2 == 1 {
        num := num * 2;
        if num > 9 {
          num := num - 9;
        }
      }
      checksum := checksum + num;
    }
    assert reversed[..|reversed|] == reversed;
    ok := checksum % 10 == 0;
  }

  function LuhnTerm(i: nat, d: nat): nat {
    if i % 2 == 1 then Doubled(d) else d
  }

  lemma {:induction false} LuhnChange(reversed: seq<nat>, i: nat, d: nat)
    requires i < |reversed|
    ensures LuhnSum(reversed[i := d]) == LuhnSum(reversed) - LuhnTerm(i, reversed[i]) + LuhnTerm(i, d)
  {
    var n := |reversed| - 1;
    if i < n {
      LuhnChange(reversed[..n], i, d);
      assert reversed[i := d][..n] == reversed[..n][i := d];
    } else {
      assert reversed[i := d][..n] == reversed[..n];
    }
  }

  /** Doubling permutes the digits: different digits stay different. */
  lemma TermInjective(i: nat, a: nat, b: nat)
    requires a <= 9 && b <= 9 && a != b
    ensures LuhnTerm(i, a) <= 9 && LuhnTerm(i, b) <= 9 && LuhnTerm(i, a) != LuhnTerm(i, b)
  {
  }

  lemma SameLastDigit(a: int, b: int)
    requires a % 10 == b % 10 && -10 < a - b < 10
    ensures a == b
  {
  }

  /** Every single-digit error is caught: changing one digit of an accepted card
      number makes it rejected. */
  lemma LuhnDetectsOneDigit(digits: seq<nat>, i: nat, d: nat)
    requires AreDigits(digits) && LuhnValid(digits)
    requires i < |digits| && d <= 9 && d != digits[i]
    ensures !LuhnValid(digits[i := d])
  {
    var r, k := Reversed(digits), |digits| - 1 - i;
    assert Reversed(digits[i := d]) == r[k := d];
    LuhnChange(r, k, d);
    TermInjective(k, r[k], d);
    if LuhnSum(r[k := d]) % 10 == 0 {
      SameLastDigit(LuhnSum(r[k := d]), LuhnSum(r));
    }
  }

  // ----- INN

  /** The weighted sum of the leading digits. */
  function WeightedSum(weights: seq<nat>, digits: seq<nat>): nat
    requires |weights| <= |digits|
  {
    if weights == [] then 0
    else
      var n := |weights| - 1;
      WeightedSum(weights[..n], digits) + weights[n] * digits[n]
  }

  const WEIGHTS_10: seq<nat> := [2, 4, 10, 3, 5, 9, 4, 6, 8]
  const WEIGHTS_11: seq<nat> := [7, 2, 4, 10, 3, 5, 9, 4, 6, 8]
  const WEIGHTS_12: seq<nat> := [3, 7, 2, 4, 10, 3, 5, 9, 4, 6, 8]

  function Control(weights: seq<nat>, digits: seq<nat>): nat
    requires |weights| <= |digits|
  {
    WeightedSum(weights, digits) % 11 % 10
  }

  predicate InnValid(digits: seq<nat>) {
    && !Degenerate(digits)
    && if |digits| == 10 then Control(WEIGHTS_10, digits) == digits[9]
       else if |digits| == 12 then
         Control(WEIGHTS_11, digits) == digits[10] && Control(WEIGHTS_12, digits) == digits[11]
       else false
  }

  method WeightedControl(weights: seq<nat>, digits: seq<nat>) returns (c: nat)
    requires |weights| <= |digits|
    ensures c == Control(weights, digits)
  {
    var sum := 0;
    for i := 0 to |weights|
      invariant sum == WeightedSum(weights[..i], digits)
    {
      assert weights[..i + 1][..i] == weights[..i];
      sum := sum + weights[i] * digits[i];
    }
    assert weights[..|weights|] == weights;
    c := sum % 11 % 10;
  }

  method ValidateInn(value: string) returns (ok: bool)
    ensures ok == InnValid(Digits(value))
  {
    var digits := Digits(value);
    if Degenerate(digits) {
      return false;
    }
    if |digits| == 10 {
      var c := WeightedControl(WEIGHTS_10, digits);
      return c == digits[9];
    }
    if |digits| == 12 {
      var c11 := WeightedControl(WEIGHTS_11, digits);
      var c12 := WeightedControl(WEIGHTS_12, digits);
      return c11 == digits[10] && c12 == digits[11];
    }
    return false;
  }

  lemma {:induction false} SumGrows(weights: seq<nat>, digits: seq<nat>, n: nat)
    requires 0 < n <= |weights| <= |digits|
    ensures WeightedSum(weights[..n], digits) == WeightedSum(weights[..n - 1], digits) + weights[n - 1] * digits[n - 1]
  {
    assert weights[..n][..n - 1] == weights[..n - 1];
  }

  lemma TenWeights(digits: seq<nat>)
    requires |digits| == 10
    ensures WeightedSum(WEIGHTS_10, digits) ==
            2 * digits[0] + 4 * digits[1] + 10 * digits[2] + 3 * digits[3] + 5 * digits[4]
            + 9 * digits[5] + 4 * digits[6] + 6 * digits[7] + 8 * digits[8]
  {
    var w := WEIGHTS_10;
    SumGrows(w, digits, 1); SumGrows(w, digits, 2); SumGrows(w, digits, 3);
    SumGrows(w, digits, 4); SumGrows(w, digits, 5); SumGrows(w, digits, 6);
    SumGrows(w, digits, 7); SumGrows(w, digits, 8); SumGrows(w, digits, 9);
    assert w[..9] == w && w[..0] == [];
  }

  lemma ElevenWeights(digits: seq<nat>)
    requires |digits| == 12
    ensures WeightedSum(WEIGHTS_11, digits) ==
            7 * digits[0] + 2 * digits[1] + 4 * digits[2] + 10 * digits[3] + 3 * digits[4]
            + 5 * digits[5] + 9 * digits[6] + 4 * digits[7] + 6 * digits[8] + 8 * digits[9]
  {
    var w := WEIGHTS_11;
    SumGrows(w, digits, 1); SumGrows(w, digits, 2); SumGrows(w, digits, 3);
    SumGrows(w, digits, 4); SumGrows(w, digits, 5); SumGrows(w, digits, 6);
    SumGrows(w, digits, 7); SumGrows(w, digits, 8); SumGrows(w, digits, 9); SumGrows(w, digits, 10);
    assert w[..10] == w && w[..0] == [];
  }

  lemma TwelveWeights(digits: seq<nat>)
    requires |digits| == 12
    ensures WeightedSum(WEIGHTS_12, digits) ==
            3 * digits[0] + 7 * digits[1] + 2 * digits[2] + 4 * digits[3] + 10 * digits[4] + 3 * digits[5]
            + 5 * digits[6] + 9 * digits[7] + 4 * digits[8] + 6 * digits[9] + 8 * digits[10]
  {
    var w := WEIGHTS_12;
    SumGrows(w, digits, 1); SumGrows(w, digits, 2); SumGrows(w, digits, 3);
    SumGrows(w, digits, 4); SumGrows(w, digits, 5); SumGrows(w, digits, 6);
    SumGrows(w, digits, 7); SumGrows(w, digits, 8); SumGrows(w, digits, 9);
    SumGrows(w, digits, 10); SumGrows(w, digits, 11);
    assert w[..11] == w && w[..0] == [];
  }

  /** The rule of the tax number with its published weights: one control digit for a
      company, two for a person. */
  lemma InnRule(d: seq<nat>)
    ensures InnValid(d) ==> |d| == 10 || |d| == 12
    ensures |d| == 10 ==>
      var s := 2 * d[0] + 4 * d[1] + 10 * d[2] + 3 * d[3] + 5 * d[4] + 9 * d[5] + 4 * d[6] + 6 * d[7] + 8 * d[8];
      InnValid(d) <==> !Degenerate(d) && d[9] == s % 11 % 10
    ensures |d| == 12 ==>
      var s := 7 * d[0] + 2 * d[1] + 4 * d[2] + 10 * d[3] + 3 * d[4] + 5 * d[5] + 9 * d[6] + 4 * d[7] + 6 * d[8]
               + 8 * d[9];
      var t := 3 * d[0] + 7 * d[1] + 2 * d[2] + 4 * d[3] + 10 * d[4] + 3 * d[5] + 5 * d[6] + 9 * d[7] + 4 * d[8]
               + 6 * d[9] + 8 * d[10];
      InnValid(d) <==> !Degenerate(d) && d[10] == s % 11 % 10 && d[11] == t % 11 % 10
  {
    hide WeightedSum, Degenerate;
    if |d| == 10 {
      TenWeights(d);
    } else if |d| == 12 {
      ElevenWeights(d);
      TwelveWeights(d);
    }
  }

  lemma {:induction false} SumChange(weights: seq<nat>, digits: seq<nat>, i: nat, d: nat)
    requires |weights| <= |digits| && i < |digits|
    ensures WeightedSum(weights, digits[i := d]) ==
            WeightedSum(weights, digits) + if i < |weights| then weights[i] * d - weights[i] * digits[i] else 0
  {
    if weights != [] {
      SumChange(weights[..|weights| - 1], digits, i, d);
    }
  }

  /** No weight times a digit difference is a multiple of eleven. */
  lemma WeightMovesResidue(w: nat, a: nat, b: nat, sum: nat)
    requires 1 <= w <= 10 && a <= 9 && b <= 9 && a != b && sum + w * b - w * a >= 0
    ensures (sum + w * b - w * a) % 11 != sum % 11
  {
    var k := b - a;
    assert w * b - w * a == w * k;
    NoMultiple(w, k);
    if (sum + w * k) % 11 == sum % 11 {
      var q := Elevens(sum + w * k, sum);
    }
  }

  lemma Elevens(x: int, y: int) returns (q: int)
    requires x % 11 == y % 11
    ensures x - y == 11 * q
  {
    q := x / 11 - y / 11;
  }

  lemma NoMultiple(w: int, k: int)
    requires 1 <= w <= 10 && -9 <= k <= 9 && k != 0
    ensures forall q: int :: w * k != 11 * q
  {
    var p := if w == 1 then k else if w == 2 then 2 * k else if w == 3 then 3 * k else if w == 4 then 4 * k
             else if w == 5 then 5 * k else if w == 6 then 6 * k else if w == 7 then 7 * k
             else if w == 8 then 8 * k else if w == 9 then 9 * k else 10 * k;
    assert p == w * k;
    assert p % 11 != 0;
  }

  predicate Weights(weights: seq<nat>) {
    forall k :: 0 <= k < |weights| ==> 1 <= weights[k] <= 10
  }

  /** The two residues that both read as control digit 0. */
  predicate Confused(weights: seq<nat>, a: seq<nat>, b: seq<nat>)
    requires |weights| <= |a| && |weights| <= |b|
  {
    var x, y := WeightedSum(weights, a) % 11, WeightedSum(weights, b) % 11;
    (x == 0 && y == 10) || (x == 10 && y == 0)
  }

  /** Changing a weighted digit moves the residue, so the control digit stays the same
      only by that confusion. */
  lemma ControlStaysIff(weights: seq<nat>, digits: seq<nat>, i: nat, d: nat)
    requires Weights(weights) && |weights| <= |digits| && AreDigits(digits)
    requires i < |weights| && d <= 9 && d != digits[i]
    ensures Control(weights, digits[i := d]) == Control(weights, digits) <==> Confused(weights, digits, digits[i := d])
  {
    hide WeightedSum;
    SumChange(weights, digits, i, d);
    assert 1 <= weights[i] <= 10;
    WeightMovesResidue(weights[i], digits[i], d, WeightedSum(weights, digits));
    SameControlIff(WeightedSum(weights, digits), WeightedSum(weights, digits[i := d]));
  }

  lemma SameControlIff(x: nat, y: nat)
    requires x % 11 != y % 11
    ensures x % 11 % 10 == y % 11 % 10 <==> (x % 11 == 0 && y % 11 == 10) || (x % 11 == 10 && y % 11 == 0)
  {
  }

  lemma ControlIgnores(weights: seq<nat>, digits: seq<nat>, i: nat, d: nat)
    requires |weights| <= i < |digits|
    ensures Control(weights, digits[i := d]) == Control(weights, digits)
  {
    SumChange(weights, digits, i, d);
  }

  /** A changed digit of an accepted ten-digit number stays unnoticed exactly when it is
      one of the first nine and the two weighted sums leave 0 and 10 modulo 11, the changed
      number not being all one digit. */
  lemma InnMissesIff(digits: seq<nat>, i: nat, d: nat)
    requires AreDigits(digits) && |digits| == 10 && InnValid(digits)
    requires i < 10 && d <= 9 && d != digits[i]
    ensures var changed := digits[i := d];
            InnValid(changed) <==> i < 9 && !Degenerate(changed) && Confused(WEIGHTS_10, digits, changed)
  {
    if i < 9 {
      ControlStaysIff(WEIGHTS_10, digits, i, d);
    } else {
      ControlIgnores(WEIGHTS_10, digits, i, d);
    }
  }

  /** Residues 1 and 10: a step between the two that are confused. */
  predicate Unit(x: int) { x % 11 == 1 || x % 11 == 10 }

  lemma ConfusedMoves(weights: seq<nat>, digits: seq<nat>, i: nat, d: nat)
    requires i < |weights| <= |digits|
    requires Confused(weights, digits, digits[i := d])
    ensures Unit(weights[i] * (d - digits[i]))
  {
    SumChange(weights, digits, i, d);
    var x: int, y: int := WeightedSum(weights, digits), WeightedSum(weights, digits[i := d]);
    assert y - x == weights[i] * (d - digits[i]);
    StepBetween(x, y);
  }

  lemma StepBetween(x: int, y: int)
    requires (x % 11 == 0 && y % 11 == 10) || (x % 11 == 10 && y % 11 == 0)
    ensures Unit(y - x)
  {
  }

  /** The weight a digit has in the first control sum and the weight it has in the second. */
  predicate PairOfWeights(w: int, v: int) {
    (w, v) in [(7, 3), (2, 7), (4, 2), (10, 4), (3, 10), (5, 3), (9, 5), (4, 9), (6, 4), (8, 6)]
  }

  lemma NeverBoth(w: int, v: int, k: int)
    requires PairOfWeights(w, v) && -9 <= k <= 9
    ensures !(Unit(w * k) && Unit(v * k))
  {
    var p := if w == 2 then 2 * k else if w == 3 then 3 * k else if w == 4 then 4 * k else if w == 5 then 5 * k
             else if w == 6 then 6 * k else if w == 7 then 7 * k
             else if w == 8 then 8 * k else if w == 9 then 9 * k else 10 * k;
    var q := if v == 2 then 2 * k else if v == 3 then 3 * k else if v == 4 then 4 * k else if v == 5 then 5 * k
             else if v == 6 then 6 * k else if v == 7 then 7 * k else if v == 9 then 9 * k else 10 * k;
    assert p == w * k && q == v * k;
    assert !(Unit(p) && Unit(q));
  }

  lemma WeightPairs(i: nat)
    requires i < 10
    ensures PairOfWeights(WEIGHTS_11[i], WEIGHTS_12[i])
  {
  }

  /** The two control digits of a twelve-digit number together catch every single-digit
      error: no change confuses both sums at once. */
  lemma Inn12DetectsOneDigit(digits: seq<nat>, i: nat, d: nat)
    requires AreDigits(digits) && |digits| == 12 && InnValid(digits)
    requires i < 12 && d <= 9 && d != digits[i]
    ensures !InnValid(digits[i := d])
  {
    if i < 10 {
      ControlStaysIff(WEIGHTS_11, digits, i, d);
      ControlStaysIff(WEIGHTS_12, digits, i, d);
      if Confused(WEIGHTS_11, digits, digits[i := d]) && Confused(WEIGHTS_12, digits, digits[i := d]) {
        ConfusedMoves(WEIGHTS_11, digits, i, d);
        ConfusedMoves(WEIGHTS_12, digits, i, d);
        WeightPairs(i);
        NeverBoth(WEIGHTS_11[i], WEIGHTS_12[i], d - digits[i]);
      }
    } else {
      ControlIgnores(WEIGHTS_11, digits, i, d);
      if i == 11 {
        ControlIgnores(WEIGHTS_12, digits, i, d);
      }
    }
  }
}
