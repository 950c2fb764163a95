/** The Luhn check (Annex B of ISO/IEC 7812-1) as the output guard computes it: one forward pass, the doubled positions
    chosen by the parity of the length. */
module Luhn {
  import opened Identifiers

  type Digit = d: nat | d < 10

  /** What a doubled digit adds: twice its value, less 9 when that has two digits. */
  function Doubled(d: Digit): (v: nat)
  {
    if d < 5 then 2 * d else 2 * d - 9
  }

  /** The Luhn sum of the standard: from the right, the check digit counts once, the next digit is doubled, and so
      on. */
  function LuhnSum(digits: seq<Digit>): (sum: nat)
  {
    WeightedSum(digits, false)
  }

  /** The sum of the digits from the right, doubling every second one; `double` says whether the last one is. */
  function WeightedSum(digits: seq<Digit>, double: bool): (sum: nat)
  {
    if digits == [] then 0
    else
      var last := digits[|digits| - 1];
      WeightedSum(digits[..|digits| - 1], !double) + if double then Doubled(last) else last
  }

  predicate Accepts(digits: seq<Digit>)
  {
    LuhnSum(digits) % 10 == 0
  }

  /** `[int(c) for c in value if c.isdigit()]`. */
  function DigitsOf(value: string): (digits: seq<Digit>)
  {
    if value == "" then []
    else
      var last := value[|value| - 1];
      DigitsOf(value[..|value| - 1]) + if IsDigit(last) then [DigitValue(last)] else []
  }

  /** What the forward loop has added up after `k` of the digits. */
  function ForwardSum(digits: seq<Digit>, k: nat): (sum: nat)
    requires k <= |digits|
  {
    if k == 0 then 0
    else
      ForwardSum(digits, k - 1)
      + if (k - 1) % 2 == |digits| % 2 then Doubled(digits[k - 1]) else digits[k - 1]
  }

  lemma {:induction false} ForwardIsWeighted(digits: seq<Digit>, k: nat)
    requires k <= |digits|
    ensures ForwardSum(digits, k) == WeightedSum(digits[..k], k % 2 != |digits| % 2)
  {
    if k > 0 {
      ForwardIsWeighted(digits, k - 1);
      assert digits[..k][..k - 1] == digits[..k - 1];
    }
  }

  /** The number of digits that the guard takes for a card number. */
  predicate CardLength(n: nat)
  {
    13 <= n <= 19
  }

  /** The forward pass decides the standard's right-to-left sum. */
  method IsValidCardNumber(value: string) returns (valid: bool)
    ensures valid <==> CardLength(|DigitsOf(value)|) && Accepts(DigitsOf(value))
  {
    var digits: seq<Digit> := [];
    for i := 0 to |value|
      invariant digits == DigitsOf(value[..i])
    {
      assert value[..i + 1][..i] == value[..i];
      if IsDigit(value[i]) {
        digits := digits + [DigitValue(value[i])];
      }
    }
    assert value[..|value|] == value;
    if !(13 <= |digits| <= 19) {
      return false;
    }
    var checksum := 0;
    var parity := |digits| % 2;
    for index := 0 to |digits|
      invariant checksum == ForwardSum(digits, index)
    {
      var digit: nat := digits[index];
      if index % 2 == parity {
        digit := digit * 2;
        if digit > 9 {
          digit := digit - 9;
        }
      }
      checksum := checksum + digit;
    }
    ForwardIsWeighted(digits, |digits|);
    assert digits[..|digits|] == digits;
    valid := checksum % 10 == 0;
  }

  /** The check two digits at a time: the last digit counts once, the one before it twice, less 9 from 5 on; and so on
      for what stands in front of them. */
  lemma LuhnByPairs(front: seq<Digit>, d: Digit, e: Digit)
    ensures LuhnSum([]) == 0 && LuhnSum([d]) == d
    ensures LuhnSum(front + [d, e]) == LuhnSum(front) + (if d >= 5 then 2 * d - 9 else 2 * d) + e
  {
    var all := front + [d, e];
    assert [d][..0] == [] && WeightedSum([], true) == 0;
    assert all[..|all| - 1] == front + [d] && (front + [d])[..|front|] == front;
    assert WeightedSum(front + [d], true) == WeightedSum(front, false) + Doubled(d);
  }

  // ---- What the check is for, at every length ----

  lemma {:induction false} WeightedSumAppend(a: seq<Digit>, b: seq<Digit>, double: bool)
    ensures WeightedSum(a + b, double) == WeightedSum(a, double != (|b| % 2 == 1)) + WeightedSum(b, double)
  {
    if b == [] {
      assert a + b == a;
    } else {
      WeightedSumAppend(a, b[..|b| - 1], !double);
      assert (a + b)[..|a + b| - 1] == a + b[..|b| - 1];
    }
  }

  lemma OneDigit(d: Digit, double: bool)
    ensures WeightedSum([d], double) == Weight(d, double)
  {
  }

  /** Every prefix has exactly one check digit. */
  lemma UniqueCheckDigit(prefix: seq<Digit>) returns (check: Digit)
    ensures forall d: Digit :: Accepts(prefix + [d]) <==> d == check
  {
    var sum := WeightedSum(prefix, true);
    check := (10 - sum % 10) % 10;
    forall d: Digit
      ensures Accepts(prefix + [d]) <==> d == check
    {
      WeightedSumAppend(prefix, [d], false);
      OneDigit(d, false);
      assert LuhnSum(prefix + [d]) == sum + d;
    }
  }

  /** Replacing one digit of an accepted number by another is always noticed. */
  lemma SubstitutionIsDetected(left: seq<Digit>, d: Digit, e: Digit, right: seq<Digit>)
    requires Accepts(left + [d] + right) && d != e
    ensures !Accepts(left + [e] + right)
  {
    SumAround(left, [d], right);
    SumAround(left, [e], right);
    var double := |right| % 2 == 1;
    OneDigit(d, double);
    OneDigit(e, double);
    var rest := WeightedSum(left, double != true) + WeightedSum(right, false);
    SameResidue(rest, Weight(d, double), Weight(e, double));
  }

  function Weight(d: Digit, double: bool): (w: nat)
    ensures w < 10
  {
    if double then Doubled(d) else d
  }

  /** Numbers less than ten apart with the same residue are the same. */
  lemma SameResidue(rest: nat, x: int, y: int)
    requires (rest + x) % 10 == 0 && -10 < x - y < 10
    ensures (rest + y) % 10 == 0 <==> x == y
  {
  }

  lemma SumAround(left: seq<Digit>, middle: seq<Digit>, right: seq<Digit>)
    ensures LuhnSum(left + middle + right) ==
      WeightedSum(left, (|right| % 2 == 1) != (|middle| % 2 == 1))
      + WeightedSum(middle, |right| % 2 == 1) + WeightedSum(right, false)
  {
    WeightedSumAppend(left + middle, right, false);
    WeightedSumAppend(left, middle, |right| % 2 == 1);
  }

  lemma TwoDigits(d: Digit, e: Digit, double: bool)
    ensures WeightedSum([d, e], double) == Weight(d, !double) + Weight(e, double)
  {
    assert [d, e][..1] == [d];
    OneDigit(d, !double);
  }

  /** What a swap changes in the sum. */
  lemma SwapChange(d: Digit, e: Digit, double: bool)
    ensures
      var change := Weight(d, !double) + Weight(e, double) - Weight(e, !double) - Weight(d, double);
      -10 < change < 10 && (change == 0 <==> d == e || (d == 0 && e == 9) || (d == 9 && e == 0))
  {
  }

  /** Swapping two unequal neighbours of an accepted number goes unnoticed exactly when they are 0 and 9. */
  lemma SwapIsDetected(left: seq<Digit>, d: Digit, e: Digit, right: seq<Digit>)
    requires Accepts(left + [d, e] + right) && d != e
    ensures Accepts(left + [e, d] + right) <==> (d == 0 && e == 9) || (d == 9 && e == 0)
  {
    SumAround(left, [d, e], right);
    SumAround(left, [e, d], right);
    var double := |right| % 2 == 1;
    TwoDigits(d, e, double);
    TwoDigits(e, d, double);
    SwapChange(d, e, double);
    var rest := WeightedSum(left, double) + WeightedSum(right, false);
    SameResidue(rest, Weight(d, !double) + Weight(e, double), Weight(e, !double) + Weight(d, double));
  }
}
