/**
 Little-endian numerals in any base: the value of a digit list, the carry loop
 that multiplies and adds in place, and the uniqueness of canonical numerals.
 */
module Numerals {

  predicate DigitsOf(digits: seq<nat>, base: nat) {
    forall i :: 0 <= i < |digits| ==> digits[i] < base
  }

  /** No leading zero: the most significant digit, which is last, is not zero. */
  predicate Canonical(digits: seq<nat>, base: nat) {
    DigitsOf(digits, base) && (digits != [] ==> digits[|digits| - 1] != 0)
  }

  function Value(digits: seq<nat>, base: nat): nat {
    if digits == [] then 0 else digits[0] + base * Value(digits[1..], base)
  }

  /** The value of a big-endian list, read from its last element. */
  function BigEndian(digits: seq<nat>, base: nat): nat {
    if digits == [] then 0
    else BigEndian(digits[..|digits| - 1], base) * base + digits[|digits| - 1]
  }

  function Reverse(s: seq<nat>): (r: seq<nat>)
    ensures |r| == |s|
    ensures forall i :: 0 <= i < |s| ==> r[i] == s[|s| - 1 - i]
  {
    seq(|s|, i requires 0 <= i < |s| => s[|s| - 1 - i])
  }

  lemma ReverseTwice(s: seq<nat>)
    ensures Reverse(Reverse(s)) == s
  {
  }

  lemma {:induction false} BigEndianIsReversed(digits: seq<nat>, base: nat)
    ensures BigEndian(digits, base) == Value(Reverse(digits), base)
  {
    if digits != [] {
      var n := |digits| - 1;
      BigEndianIsReversed(digits[..n], base);
      assert Reverse(digits)[1..] == Reverse(digits[..n]);
    }
  }

  // ---------------------------------------------------------------------
  // Canonical numerals
  // ---------------------------------------------------------------------

  function ToDigits(n: nat, base: nat): (digits: seq<nat>)
    requires base >= 2
    ensures Canonical(digits, base)
    decreases n
  {
    if n == 0 then []
    else
      DivShrinks(n, base);
      var rest := ToDigits(n / base, base);
      [n % base] + rest
  }

  lemma DivShrinks(n: nat, base: nat)
    requires n > 0 && base >= 2
    ensures n / base < n
    ensures n / base == 0 ==> n % base == n
  {
  }

  lemma DivMod(n: nat, base: nat)
    requires base > 0
    ensures base * (n / base) + n % base == n
  {
  }

  lemma ValueOfCons(d: nat, rest: seq<nat>, base: nat)
    ensures Value([d] + rest, base) == d + base * Value(rest, base)
  {
    assert ([d] + rest)[1..] == rest;
  }

  lemma {:induction false} ValueOfToDigits(n: nat, base: nat)
    requires base >= 2
    ensures Value(ToDigits(n, base), base) == n
    decreases n
  {
    if n > 0 {
      DivShrinks(n, base);
      ValueOfToDigits(n / base, base);
      ValueOfCons(n % base, ToDigits(n / base, base), base);
      DivMod(n, base);
    }
  }

  lemma SplitDigit(d: nat, q: nat, base: nat)
    requires d < base
    ensures (d + base * q) % base == d && (d + base * q) / base == q
  {
    var n := d + base * q;
    assert n == base * (n / base) + n % base;
    var p := n / base;
    assert d - n % base == base * p - base * q;
    if p > q {
      MulStep(base, q, p);
    } else if p < q {
      MulStep(base, p, q);
    }
  }

  lemma MulStep(a: nat, x: nat, y: nat)
    requires x < y
    ensures a * x + a <= a * y
  {
    assert a * (x + 1) == a * x + a;
    MulMonotone(a, x + 1, y);
  }

  lemma MulMonotone(a: nat, x: nat, y: nat)
    requires x <= y
    ensures a * x <= a * y
  {
  }

  lemma {:induction false} CanonicalIsPositive(digits: seq<nat>, base: nat)
    requires base >= 2 && Canonical(digits, base) && digits != []
    ensures Value(digits, base) > 0
  {
    if |digits| > 1 {
      CanonicalIsPositive(digits[1..], base);
      MulMonotone(base, 1, Value(digits[1..], base));
    }
  }

  /** Canonical numerals of one value are the same numeral. */
  lemma {:induction false} CanonicalIsUnique(digits: seq<nat>, base: nat)
    requires base >= 2 && Canonical(digits, base)
    ensures digits == ToDigits(Value(digits, base), base)
  {
    if digits != [] {
      CanonicalIsPositive(digits, base);
      var rest := digits[1..];
      CanonicalIsUnique(rest, base);
      SplitDigit(digits[0], Value(rest, base), base);
      assert digits == [digits[0]] + rest;
    }
  }

  // ---------------------------------------------------------------------
  // digits := digits * factor + carry, in place
  // ---------------------------------------------------------------------

  function PushCarry(carry: nat, base: nat): seq<nat>
    requires base >= 2
  {
    ToDigits(carry, base)
  }

  /** What the carry loop leaves in place of `digits` when it starts with `carry`. */
  function MulAdd(digits: seq<nat>, factor: nat, carry: nat, base: nat): seq<nat>
    requires base >= 2
  {
    if digits == [] then PushCarry(carry, base)
    else
      var sum := carry + digits[0] * factor;
      [sum % base] + MulAdd(digits[1..], factor, sum / base, base)
  }

  lemma {:induction false} MulAddValue(digits: seq<nat>, factor: nat, carry: nat, base: nat)
    requires base >= 2
    ensures Value(MulAdd(digits, factor, carry, base), base) == Value(digits, base) * factor + carry
    ensures DigitsOf(MulAdd(digits, factor, carry, base), base)
  {
    if digits == [] {
      ValueOfToDigits(carry, base);
    } else {
      var sum := carry + digits[0] * factor;
      MulAddValue(digits[1..], factor, sum / base, base);
      ValueOfCons(sum % base, MulAdd(digits[1..], factor, sum / base, base), base);
      DivMod(sum, base);
      Distribute(carry, digits[0], factor, base, Value(digits[1..], base), sum / base, sum % base);
    }
  }

  lemma Distribute(carry: nat, d: nat, factor: nat, base: nat, rest: nat, q: nat, m: nat)
    requires base * q + m == carry + d * factor
    ensures m + base * (rest * factor + q) == (d + base * rest) * factor + carry
  {
    assert base * (rest * factor + q) == base * (rest * factor) + base * q;
    assert base * (rest * factor) == (base * rest) * factor;
    assert (d + base * rest) * factor == d * factor + (base * rest) * factor;
  }

  /** With a factor of at least the base, a numeral without leading zeros stays so. */
  lemma {:induction false} MulAddCanonical(digits: seq<nat>, factor: nat, carry: nat, base: nat)
    requires base >= 2 && Canonical(digits, base)
    requires factor >= 1
    ensures Canonical(MulAdd(digits, factor, carry, base), base)
  {
    MulAddValue(digits, factor, carry, base);
    if digits != [] {
      TopStaysPositive(digits, factor, carry, base);
    }
  }

  lemma {:induction false} TopStaysPositive(digits: seq<nat>, factor: nat, carry: nat, base: nat)
    requires base >= 2 && digits != [] && digits[|digits| - 1] != 0 && factor >= 1
    requires DigitsOf(digits, base)
    ensures var out := MulAdd(digits, factor, carry, base);
            out != [] && out[|out| - 1] != 0
  {
    var sum := carry + digits[0] * factor;
    var rest := MulAdd(digits[1..], factor, sum / base, base);
    if |digits| == 1 {
      MulMonotone(factor, 1, digits[0]);
      assert sum > 0;
      DivShrinks(sum, base);
    } else {
      TopStaysPositive(digits[1..], factor, sum / base, base);
    }
  }
}
