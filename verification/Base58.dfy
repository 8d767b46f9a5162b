/** base58btc: the two in-place carry loops, and exactly where they invert each other. */
module Base58 {
  import opened Results
  import opened Numerals

  /** The 58 characters, in six runs: no zero, no capital I or O, no small l. */
  const DIGITS: string := "123456789"
  const UPPER_A: string := "ABCDEFGH"
  const UPPER_J: string := "JKLMN"
  const UPPER_P: string := "PQRSTUVWXYZ"
  const LOWER_A: string := "abcdefghijk"
  const LOWER_M: string := "mnopqrstuvwxyz"
  const ALPHABET: string := DIGITS + UPPER_A + UPPER_J + UPPER_P + LOWER_A + LOWER_M

  predicate IsBytes(bytes: seq<nat>) {
    DigitsOf(bytes, 256)
  }

  /** `ALPHABET.indexOf(ch)`, searching from `i`. */
  function IndexFrom(ch: char, i: nat): (index: Option<nat>)
    requires i <= |ALPHABET|
    ensures index.Some? ==> i <= index.value < 58 && ALPHABET[index.value] == ch
    ensures index.None? ==> forall k :: i <= k < 58 ==> ALPHABET[k] != ch
    decreases |ALPHABET| - i
  {
    assert |ALPHABET| == 58;
    if i == |ALPHABET| then None
    else if ALPHABET[i] == ch then Some(i)
    else IndexFrom(ch, i + 1)
  }

  function DigitOf(ch: char): (digit: Option<nat>)
    ensures digit.Some? ==> digit.value < 58
  {
    IndexFrom(ch, 0)
  }

  function CharOf(digit: nat): char
    requires digit < 58
  {
    assert |ALPHABET| == 58;
    ALPHABET[digit]
  }

  /** Consecutive characters, the first with code `start`. */
  predicate IsRun(s: string, start: nat) {
    forall k :: 0 <= k < |s| ==> s[k] as int == start + k
  }

  /** The code of the `i`-th character, run by run. */
  lemma AlphabetAt(i: nat)
    requires i < 58
    ensures |ALPHABET| == 58
    ensures ALPHABET[i] as int == i + (
              if i < 9 then 49 else if i < 17 then 56 else if i < 22 then 57
              else if i < 33 then 58 else if i < 44 then 64 else 65)
  {
    assert IsRun(DIGITS, 49) && IsRun(UPPER_A, 65) && IsRun(UPPER_J, 74);
    assert IsRun(UPPER_P, 80) && IsRun(LOWER_A, 97) && IsRun(LOWER_M, 109);
    if i < 9 {
      assert ALPHABET[i] == DIGITS[i];
    } else if i < 17 {
      assert ALPHABET[i] == UPPER_A[i - 9];
    } else if i < 22 {
      assert ALPHABET[i] == UPPER_J[i - 17];
    } else if i < 33 {
      assert ALPHABET[i] == UPPER_P[i - 22];
    } else if i < 44 {
      assert ALPHABET[i] == LOWER_A[i - 33];
    } else {
      assert ALPHABET[i] == LOWER_M[i - 44];
    }
  }

  lemma AlphabetHasNoRepeats()
    ensures |ALPHABET| == 58 && ALPHABET[0] == '1'
    ensures forall i, j :: 0 <= i < j < 58 ==> ALPHABET[i] != ALPHABET[j]
  {
    AlphabetAt(0);
    forall i, j | 0 <= i < j < 58 ensures ALPHABET[i] != ALPHABET[j] {
      AlphabetAt(i);
      AlphabetAt(j);
    }
  }

  lemma DigitOfChar(digit: nat)
    requires digit < 58
    ensures DigitOf(CharOf(digit)) == Some(digit)
    ensures CharOf(digit) == '1' <==> digit == 0
  {
    AlphabetHasNoRepeats();
  }

  // ---------------------------------------------------------------------
  // What the two loops compute
  // ---------------------------------------------------------------------

  function LeadingZeros(digits: seq<nat>): (n: nat)
    ensures n <= |digits|
    ensures forall i :: 0 <= i < n ==> digits[i] == 0
    ensures n < |digits| ==> digits[n] != 0
  {
    if digits == [] || digits[0] != 0 then 0 else 1 + LeadingZeros(digits[1..])
  }

  function Zeros(n: nat): seq<nat> {
    seq(n, i => 0)
  }

  function ToText(digits: seq<nat>): (s: string)
    requires DigitsOf(digits, 58)
    ensures |s| == |digits|
  {
    seq(|digits|, i requires 0 <= i < |digits| => CharOf(digits[i]))
  }

  predicate InAlphabet(s: string) {
    forall i :: 0 <= i < |s| ==> DigitOf(s[i]).Some?
  }

  function FromText(s: string): (digits: seq<nat>)
    requires InAlphabet(s)
    ensures |digits| == |s| && DigitsOf(digits, 58)
  {
    seq(|s|, i requires 0 <= i < |s| => DigitOf(s[i]).value)
  }

  /** Big-endian base-58 digits of a byte string: one zero per leading zero byte, then the number. */
  function EncodedDigits(bytes: seq<nat>): (digits: seq<nat>)
    ensures DigitsOf(digits, 58)
  {
    var z := LeadingZeros(bytes);
    var n := BigEndian(bytes[z..], 256);
    Zeros(z) + Reverse(if n == 0 then [0] else ToDigits(n, 58))
  }

  function Encode(bytes: seq<nat>): string {
    ToText(EncodedDigits(bytes))
  }

  function DecodedBytes(digits: seq<nat>): (bytes: seq<nat>)
    ensures IsBytes(bytes)
  {
    var z := LeadingZeros(digits);
    Zeros(z) + Reverse(ToDigits(BigEndian(digits[z..], 58), 256))
  }

  /** The error is the first character outside the alphabet. */
  function Decode(s: string): Result<seq<nat>, char> {
    if InAlphabet(s) then Ok(DecodedBytes(FromText(s))) else Err(s[FirstBad(s)])
  }

  function FirstBad(s: string): (i: nat)
    requires !InAlphabet(s)
    ensures i < |s| && DigitOf(s[i]).None?
    ensures forall k :: 0 <= k < i ==> DigitOf(s[k]).Some?
  {
    if DigitOf(s[0]).None? then 0 else 1 + FirstBad(s[1..])
  }

  // ---------------------------------------------------------------------
  // The loops themselves
  // ---------------------------------------------------------------------

  /** Carries stay bounded, and sums stay inside the 32-bit integers the source's shifts work on. */
  lemma CarryBound(carry: nat, digit: nat, factor: nat, base: nat, bound: nat)
    requires (factor == 256 && base == 58 && bound == 255) || (factor == 58 && base == 256 && bound == 57)
    requires carry <= bound && digit < base
    ensures (carry + digit * factor) / base <= bound
    ensures carry + digit * factor < 0x8000_0000
  {
    if base == 58 {
      assert carry + digit * 256 <= 255 + 57 * 256;
    } else {
      assert carry + digit * 58 <= 57 + 255 * 58;
    }
  }

  lemma PassStep(out: seq<nat>, digits: seq<nat>, j: nat, factor: nat, carry: nat, base: nat)
    requires base >= 2 && j < |out| == |digits| && out[j..] == digits[j..]
    ensures var sum := carry + out[j] * factor;
            && out[j := sum % base][j + 1..] == digits[j + 1..]
            && out[j := sum % base][..j + 1] + MulAdd(digits[j + 1..], factor, sum / base, base) ==
                 out[..j] + MulAdd(digits[j..], factor, carry, base)
  {
    assert digits[j..][0] == digits[j] && digits[j..][1..] == digits[j + 1..];
    assert out[j..][0] == out[j];
    var sum := carry + out[j] * factor;
    assert out[j := sum % base][..j + 1] == out[..j] + [sum % base];
    assert out[j := sum % base][j + 1..] == out[j..][1..];
  }

  lemma PushStep(out: seq<nat>, carry: nat, base: nat)
    requires base >= 2 && carry > 0
    ensures out + ToDigits(carry, base) == (out + [carry % base]) + ToDigits(carry / base, base)
    ensures carry / base < carry
  {
    DivShrinks(carry, base);
  }

  /** One pass of a carry loop over `digits`: multiply by `factor`, add `start`. */
  method CarryPass(digits: seq<nat>, factor: nat, start: nat, base: nat, bound: nat) returns (out: seq<nat>)
    requires (factor == 256 && base == 58 && bound == 255) || (factor == 58 && base == 256 && bound == 57)
    requires start <= bound && DigitsOf(digits, base)
    ensures out == MulAdd(digits, factor, start, base)
  {
    hide ToDigits, MulAdd;
    var carry: nat := start;
    out := digits;
    var j: nat := 0;
    assert out[..0] + MulAdd(digits[0..], factor, carry, base) == MulAdd(digits, factor, start, base) by {
      assert digits[0..] == digits && out[..0] == [];
    }
    while j < |digits|
      invariant j <= |digits| == |out|
      invariant carry <= bound
      invariant out[j..] == digits[j..]
      invariant out[..j] + MulAdd(digits[j..], factor, carry, base) == MulAdd(digits, factor, start, base)
    {
      assert out[j] == out[j..][0] == digits[j] < base;
      CarryBound(carry, out[j], factor, base, bound);
      PassStep(out, digits, j, factor, carry, base);
      carry := carry + out[j] * factor;
      out := out[j := carry % base];
      carry := carry / base;
      j := j + 1;
    }
    assert out[..j] == out && digits[j..] == [];
    NoMoreToAdd(factor, carry, base);
    while carry > 0
      invariant out + ToDigits(carry, base) == MulAdd(digits, factor, start, base)
    {
      PushStep(out, carry, base);
      out := out + [carry % base];
      carry := carry / base;
    }
    NoMoreDigits(base);
  }

  lemma NoMoreToAdd(factor: nat, carry: nat, base: nat)
    requires base >= 2
    ensures MulAdd([], factor, carry, base) == ToDigits(carry, base)
  {
  }

  lemma NoMoreDigits(base: nat)
    requires base >= 2
    ensures ToDigits(0, base) == []
  {
  }

  lemma PrefixGrows(s: seq<nat>, base: nat, z: nat, i: nat)
    requires z <= i < |s|
    ensures BigEndian(s[z..i + 1], base) == BigEndian(s[z..i], base) * base + s[i]
  {
    assert s[z..i + 1][..i - z] == s[z..i];
  }

  /** A pass keeps the numeral canonical, so it is the numeral of its value. */
  lemma PassIsCanonical(digits: seq<nat>, factor: nat, carry: nat, base: nat)
    requires base >= 2 && factor >= 1 && Canonical(digits, base)
    ensures MulAdd(digits, factor, carry, base) == ToDigits(Value(digits, base) * factor + carry, base)
  {
    MulAddValue(digits, factor, carry, base);
    MulAddCanonical(digits, factor, carry, base);
    CanonicalIsUnique(MulAdd(digits, factor, carry, base), base);
  }

  lemma FirstByte(b: nat)
    requires 0 < b < 256
    ensures MulAdd([0], 256, b, 58) == ToDigits(b, 58)
  {
    assert [0][1..] == [];
  }

  method EncodeBytes(bytes: seq<nat>) returns (s: string)
    requires IsBytes(bytes)
    ensures s == Encode(bytes)
  {
    hide ToDigits, MulAdd, Value;
    var z := LeadingZeros(bytes);
    var digits := [0];
    for i := z to |bytes|
      invariant i == z ==> digits == [0]
      invariant i > z ==> BigEndian(bytes[z..i], 256) > 0 && digits == ToDigits(BigEndian(bytes[z..i], 256), 58)
    {
      var value := BigEndian(bytes[z..i], 256);
      PrefixGrows(bytes, 256, z, i);
      if i == z {
        assert bytes[z..i] == [];
        FirstByte(bytes[i]);
      } else {
        ValueOfToDigits(value, 58);
        PassIsCanonical(digits, 256, bytes[i], 58);
      }
      digits := CarryPass(digits, 256, bytes[i], 58, 255);
    }
    assert bytes[z..|bytes|] == bytes[z..];
    s := ToText(Zeros(z) + Reverse(digits));
  }

  /** One more character of the text, read onto the number so far. */
  lemma DigitStep(s: string, ones: nat, i: nat)
    requires ones <= i < |s| && InAlphabet(s[..i + 1]) && InAlphabet(s[..i])
    ensures BigEndian(FromText(s[..i + 1])[ones..], 58) ==
              BigEndian(FromText(s[..i])[ones..], 58) * 58 + DigitOf(s[i]).value
  {
    var before, after := FromText(s[..i]), FromText(s[..i + 1]);
    assert after[ones..][..i - ones] == before[ones..];
  }

  lemma NothingRead(s: string, ones: nat)
    requires ones <= |s| && InAlphabet(s[..ones])
    ensures ToDigits(BigEndian(FromText(s[..ones])[ones..], 58), 256) == []
  {
    assert FromText(s[..ones])[ones..] == [];
  }

  method DecodeText(s: string) returns (result: Result<seq<nat>, char>)
    ensures result == Decode(s)
  {
    hide ToDigits, MulAdd, Value, LeadingOnes, LeadingZeros, FirstBad, DigitOf, BigEndian;
    var ones := LeadingOnes(s);
    DigitOfChar(0);
    var bytes: seq<nat> := [];
    NothingRead(s, ones);
    for i := ones to |s|
      invariant InAlphabet(s[..i])
      invariant bytes == ToDigits(BigEndian(FromText(s[..i])[ones..], 58), 256)
    {
      var digit := DigitOf(s[i]);
      if digit.None? {
        assert forall k :: 0 <= k < i ==> DigitOf(s[..i][k]).Some?;
        return Err(s[i]);
      }
      assert s[..i + 1] == s[..i] + [s[i]];
      DigitStep(s, ones, i);
      var value := BigEndian(FromText(s[..i])[ones..], 58);
      ValueOfToDigits(value, 256);
      PassIsCanonical(bytes, 58, digit.value, 256);
      bytes := CarryPass(bytes, 58, digit.value, 256, 57);
    }
    assert s[..|s|] == s;
    OnesAreZeros(s, ones);
    result := Ok(Zeros(ones) + Reverse(bytes));
  }

  function LeadingOnes(s: string): (n: nat)
    ensures n <= |s|
    ensures forall i :: 0 <= i < n ==> s[i] == '1'
    ensures n < |s| ==> s[n] != '1'
  {
    if s == "" || s[0] != '1' then 0 else 1 + LeadingOnes(s[1..])
  }

  lemma OnesAreZeros(s: string, ones: nat)
    requires InAlphabet(s) && ones == LeadingOnes(s)
    ensures LeadingZeros(FromText(s)) == ones
  {
    DigitOfChar(0);
    forall i | 0 <= i < |s| ensures FromText(s)[i] == 0 <==> s[i] == '1' {
      DigitOfChar(FromText(s)[i]);
    }
  }

  // ---------------------------------------------------------------------
  // Round trips
  // ---------------------------------------------------------------------

  /** Some byte, or some digit, is not zero. */
  predicate HasNonzero(digits: seq<nat>) {
    exists i :: 0 <= i < |digits| && digits[i] != 0
  }

  predicate HasOtherThanOne(s: string) {
    exists i :: 0 <= i < |s| && s[i] != '1'
  }

  lemma LeadingZerosOf(z: nat, digits: seq<nat>)
    requires digits != [] ==> digits[0] != 0
    ensures LeadingZeros(Zeros(z) + digits) == z
  {
    var all := Zeros(z) + digits;
    var n := LeadingZeros(all);
    assert forall i :: 0 <= i < z ==> all[i] == 0;
    assert z < |all| ==> all[z] != 0;
  }

  /** Re-reading the numeral of a value in another base gives the value back. */
  lemma BigEndianOfReversedDigits(n: nat, base: nat)
    requires base >= 2
    ensures BigEndian(Reverse(ToDigits(n, base)), base) == n
  {
    BigEndianIsReversed(Reverse(ToDigits(n, base)), base);
    ReverseTwice(ToDigits(n, base));
    ValueOfToDigits(n, base);
  }

  /** Big-endian digits without a leading zero are the reversed numeral of their value. */
  lemma CanonicalBigEndian(digits: seq<nat>, base: nat)
    requires base >= 2 && DigitsOf(digits, base) && digits != [] && digits[0] != 0
    ensures BigEndian(digits, base) > 0
    ensures Reverse(ToDigits(BigEndian(digits, base), base)) == digits
  {
    BigEndianIsReversed(digits, base);
    assert Canonical(Reverse(digits), base);
    CanonicalIsPositive(Reverse(digits), base);
    CanonicalIsUnique(Reverse(digits), base);
    ReverseTwice(digits);
  }

  /** The same number in another base, behind the same number of leading zeros. */
  function Convert(digits: seq<nat>, base: nat, other: nat): seq<nat>
    requires other >= 2
  {
    var z := LeadingZeros(digits);
    Zeros(z) + Reverse(ToDigits(BigEndian(digits[z..], base), other))
  }

  /** A list with a nonzero element splits into its zeros and a positive number. */
  lemma SplitZeros(digits: seq<nat>, base: nat)
    requires base >= 2 && DigitsOf(digits, base) && HasNonzero(digits)
    ensures var z := LeadingZeros(digits);
            BigEndian(digits[z..], base) > 0
            && Zeros(z) + Reverse(ToDigits(BigEndian(digits[z..], base), base)) == digits
  {
    hide ToDigits, BigEndian, Value, LeadingZeros;
    var z := LeadingZeros(digits);
    assert z < |digits| by {
      var i :| 0 <= i < |digits| && digits[i] != 0;
    }
    assert digits == digits[..z] + digits[z..];
    assert digits[..z] == Zeros(z);
    CanonicalBigEndian(digits[z..], base);
  }

  lemma ConvertedParts(z: nat, n: nat, other: nat)
    requires other >= 2 && n > 0
    ensures var there := Zeros(z) + Reverse(ToDigits(n, other));
            LeadingZeros(there) == z && BigEndian(there[z..], other) == n && HasNonzero(there)
  {
    var numeral := Reverse(ToDigits(n, other));
    var there := Zeros(z) + numeral;
    ValueOfToDigits(n, other);
    assert numeral != [] && numeral[0] != 0;
    LeadingZerosOf(z, numeral);
    assert there[z..] == numeral;
    assert there[z] != 0;
    BigEndianOfReversedDigits(n, other);
  }

  /** Converting digits between two bases and back is the identity on lists with a nonzero element. */
  lemma ConvertBack(digits: seq<nat>, base: nat, other: nat)
    requires base >= 2 && other >= 2 && DigitsOf(digits, base) && HasNonzero(digits)
    ensures BigEndian(digits[LeadingZeros(digits)..], base) > 0
    ensures Convert(Convert(digits, base, other), other, base) == digits
    ensures HasNonzero(Convert(digits, base, other))
  {
    SplitZeros(digits, base);
    ConvertedParts(LeadingZeros(digits), BigEndian(digits[LeadingZeros(digits)..], base), other);
  }

  lemma TextRoundTrip(digits: seq<nat>)
    requires DigitsOf(digits, 58)
    ensures InAlphabet(ToText(digits)) && FromText(ToText(digits)) == digits
  {
    forall i | 0 <= i < |digits| ensures DigitOf(ToText(digits)[i]) == Some(digits[i]) {
      DigitOfChar(digits[i]);
    }
  }

  lemma TextOfDigits(s: string)
    requires InAlphabet(s)
    ensures ToText(FromText(s)) == s
    ensures HasOtherThanOne(s) <==> HasNonzero(FromText(s))
  {
    forall i | 0 <= i < |s| ensures CharOf(FromText(s)[i]) == s[i] && (s[i] == '1' <==> FromText(s)[i] == 0) {
      DigitOfChar(FromText(s)[i]);
    }
    if HasOtherThanOne(s) {
      var i :| 0 <= i < |s| && s[i] != '1';
      assert FromText(s)[i] != 0;
    }
    if HasNonzero(FromText(s)) {
      var i :| 0 <= i < |s| && FromText(s)[i] != 0;
      assert s[i] != '1';
    }
  }

  lemma AllZero(digits: seq<nat>)
    requires !HasNonzero(digits)
    ensures digits == Zeros(|digits|) && LeadingZeros(digits) == |digits|
  {
  }

  /** Every encoding decodes, and gives the bytes back exactly when some byte is not zero. */
  lemma DecodeInvertsEncode(bytes: seq<nat>)
    requires IsBytes(bytes)
    ensures Decode(Encode(bytes)).Ok?
    ensures Decode(Encode(bytes)) == Ok(bytes) <==> HasNonzero(bytes)
  {
    var digits := EncodedDigits(bytes);
    TextRoundTrip(digits);
    if HasNonzero(bytes) {
      ConvertBack(bytes, 256, 58);
    } else {
      AllZero(bytes);
      assert digits == Zeros(|bytes| + 1);
      AllZero(digits);
      assert |DecodedBytes(digits)| > |bytes|;
    }
  }

  /** A string of the alphabet is the encoding of what it decodes to exactly when it is not all ones. */
  lemma EncodeInvertsDecode(s: string)
    requires InAlphabet(s)
    ensures Encode(DecodedBytes(FromText(s))) == s <==> HasOtherThanOne(s)
    ensures HasOtherThanOne(s) <==> HasNonzero(DecodedBytes(FromText(s)))
  {
    var digits := FromText(s);
    TextOfDigits(s);
    if HasNonzero(digits) {
      ConvertBack(digits, 58, 256);
    } else {
      AllZero(digits);
      var bytes := DecodedBytes(digits);
      assert bytes == Zeros(|digits|);
      AllZero(bytes);
      assert |Encode(bytes)| == |s| + 1;
    }
  }

  /** Distinct byte strings with a nonzero byte have distinct encodings. */
  lemma EncodeIsInjective(a: seq<nat>, b: seq<nat>)
    requires IsBytes(a) && IsBytes(b) && HasNonzero(a) && HasNonzero(b)
    requires Encode(a) == Encode(b)
    ensures a == b
  {
    DecodeInvertsEncode(a);
    DecodeInvertsEncode(b);
  }

  /** What is lost: a string of zero bytes, the empty one included, comes back one byte longer. */
  lemma ZerosComeBackLonger(n: nat)
    ensures Decode(Encode(Zeros(n))) == Ok(Zeros(n + 1))
  {
    var bytes := Zeros(n);
    AllZero(bytes);
    var digits := EncodedDigits(bytes);
    assert bytes[n..] == [];
    assert digits == Zeros(n + 1);
    TextRoundTrip(digits);
    AllZero(digits);
    NothingLeft(digits);
  }

  lemma NothingLeft(digits: seq<nat>)
    requires LeadingZeros(digits) == |digits|
    ensures DecodedBytes(digits) == Zeros(|digits|)
  {
    assert digits[|digits|..] == [];
    assert ToDigits(0, 256) == [];
    assert Reverse(ToDigits(0, 256)) == [];
  }
}
