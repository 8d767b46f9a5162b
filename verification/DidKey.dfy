/** did:key for ed25519 public keys: `didFromPublicKey` and `publicKeyFromDid`. */
module DidKey {
  import opened Results
  import opened Strings
  import opened Numerals
  import opened Base58

  const KEY_BYTES: nat := 32
  const DID_PREFIX: string := "did:key:z"
  const MULTICODEC: seq<nat> := [0xed, 0x01]

  predicate IsKey(key: seq<nat>) {
    IsBytes(key) && |key| == KEY_BYTES
  }

  datatype DidError = WrongKeyLength(length: nat) | NotDidKey | BadCharacter(c: char) | TooShort | WrongCodec

  function DidFromPublicKey(key: seq<nat>): Result<string, DidError> {
    if |key| != KEY_BYTES then Err(WrongKeyLength(|key|)) else Ok(DID_PREFIX + Encode(MULTICODEC + key))
  }

  /** Accepts any payload length after the codec, as the source does. */
  function PublicKeyFromDid(did: string): Result<seq<nat>, DidError> {
    if !StartsWith(did, DID_PREFIX) then Err(NotDidKey)
    else
      match Decode(did[|DID_PREFIX|..])
      case Err(c) => Err(BadCharacter(c))
      case Ok(decoded) =>
        if |decoded| < |MULTICODEC| then Err(TooShort)
        else if decoded[0] != MULTICODEC[0] || decoded[1] != MULTICODEC[1] then Err(WrongCodec)
        else Ok(decoded[|MULTICODEC|..])
  }

  /** The did:key of a key, for callers that know they hold 32 bytes. */
  function DidOf(key: seq<nat>): string
    requires IsKey(key)
  {
    DID_PREFIX + Encode(MULTICODEC + key)
  }

  // ---------------------------------------------------------------------
  // Both directions
  // ---------------------------------------------------------------------

  lemma PrefixedIsNonzero(key: seq<nat>)
    requires IsBytes(key)
    ensures IsBytes(MULTICODEC + key) && HasNonzero(MULTICODEC + key) && LeadingZeros(MULTICODEC + key) == 0
  {
    assert (MULTICODEC + key)[0] == 0xed;
  }

  lemma KeyComesBack(key: seq<nat>)
    requires IsKey(key)
    ensures DidFromPublicKey(key) == Ok(DidOf(key))
    ensures PublicKeyFromDid(DidOf(key)) == Ok(key)
  {
    PrefixedIsNonzero(key);
    DecodeInvertsEncode(MULTICODEC + key);
    assert DidOf(key)[|DID_PREFIX|..] == Encode(MULTICODEC + key);
    assert (MULTICODEC + key)[|MULTICODEC|..] == key;
  }

  /** Any accepted DID with a payload of 32 bytes is the DID of that payload. */
  lemma DidComesBack(did: string, key: seq<nat>)
    requires PublicKeyFromDid(did) == Ok(key) && |key| == KEY_BYTES
    ensures IsKey(key) && DidOf(key) == did
  {
    var text := did[|DID_PREFIX|..];
    var decoded := DecodedBytes(FromText(text));
    assert decoded == MULTICODEC + key;
    assert decoded[0] != 0;
    EncodeInvertsDecode(text);
    assert did == DID_PREFIX + text;
  }

  /** So DID equality is key equality. */
  lemma SameDidSameKey(a: seq<nat>, b: seq<nat>)
    requires IsKey(a) && IsKey(b)
    ensures DidOf(a) == DidOf(b) <==> a == b
  {
    KeyComesBack(a);
    KeyComesBack(b);
  }

  // ---------------------------------------------------------------------
  // The shape `did:key:z6Mk…`
  // ---------------------------------------------------------------------

  function Pow(base: nat, e: nat): nat {
    if e == 0 then 1 else base * Pow(base, e - 1)
  }

  lemma {:induction false} ValueOfConcat(a: seq<nat>, b: seq<nat>, base: nat)
    ensures Value(a + b, base) == Value(a, base) + Pow(base, |a|) * Value(b, base)
  {
    if a == [] {
      assert a + b == b;
    } else {
      assert (a + b)[1..] == a[1..] + b;
      ValueOfConcat(a[1..], b, base);
      Redistribute(base, Value(a[1..], base), Pow(base, |a| - 1), Value(b, base));
    }
  }

  lemma Redistribute(base: nat, v: nat, p: nat, w: nat)
    ensures base * (v + p * w) == base * v + (base * p) * w
  {
    assert base * (p * w) == (base * p) * w;
  }

  lemma {:induction false} BigEndianOfConcat(a: seq<nat>, b: seq<nat>, base: nat)
    ensures BigEndian(a + b, base) == BigEndian(a, base) * Pow(base, |b|) + BigEndian(b, base)
  {
    if b == [] {
      assert a + b == a;
    } else {
      var n := |b| - 1;
      assert (a + b)[..|a + b| - 1] == a + b[..n];
      BigEndianOfConcat(a, b[..n], base);
      Regroup(BigEndian(a, base), Pow(base, n), BigEndian(b[..n], base), base);
    }
  }

  lemma Regroup(h: nat, p: nat, v: nat, base: nat)
    ensures (h * p + v) * base == h * (base * p) + v * base
  {
    assert (h * p + v) * base == (h * p) * base + v * base;
    assert h * (base * p) == (h * p) * base;
  }

  lemma {:induction false} BigEndianBound(digits: seq<nat>, base: nat)
    requires DigitsOf(digits, base)
    ensures BigEndian(digits, base) < Pow(base, |digits|)
  {
    if digits != [] {
      var n := |digits| - 1;
      BigEndianBound(digits[..n], base);
      DigitFits(BigEndian(digits[..n], base), digits[n], Pow(base, n), base);
    }
  }

  lemma DigitFits(v: nat, d: nat, p: nat, base: nat)
    requires v < p && d < base
    ensures v * base + d < base * p
  {
    MulStep(base, v, p);
  }

  /** A number below base^k, written with exactly k digits. */
  lemma {:induction false} FixedWidth(n: nat, base: nat, k: nat) returns (digits: seq<nat>)
    requires base >= 2 && n < Pow(base, k)
    ensures |digits| == k && DigitsOf(digits, base) && Value(digits, base) == n
    decreases k
  {
    if k == 0 {
      digits := [];
    } else {
      DivMod(n, base);
      if n / base >= Pow(base, k - 1) {
        MulMonotone(base, Pow(base, k - 1), n / base);
      }
      var rest := FixedWidth(n / base, base, k - 1);
      digits := [n % base] + rest;
      ValueOfCons(n % base, rest, base);
    }
  }

  /** The numeral of 0xed01 followed by 32 bytes has the top digits 5, 20, 43 in base 58. */
  const TOP: nat := 5 * 58 * 58 + 20 * 58 + 43

  lemma {:induction false} PowTwice(base: nat, m: nat, n: nat)
    ensures Pow(base, m + n) == Pow(base, m) * Pow(base, n)
  {
    if m > 0 {
      PowTwice(base, m - 1, n);
      assert base * (Pow(base, m - 1) * Pow(base, n)) == (base * Pow(base, m - 1)) * Pow(base, n);
    }
  }

  lemma PowerOf58()
    ensures Pow(58, 44) == 389790918707373377135528568990913592653094657612049369038476873218241589149696
  {
    assert Pow(58, 5) == 656356768 by {
      assert Pow(58, 1) == 58 && Pow(58, 2) == 3364 && Pow(58, 3) == 195112;
    }
    assert Pow(58, 11) == 24986644000165537792 by {
      PowTwice(58, 5, 5);
      PowTwice(58, 1, 10);
    }
    PowTwice(58, 11, 11);
    PowTwice(58, 22, 22);
  }

  lemma PowerOf256()
    ensures Pow(256, 32) == 115792089237316195423570985008687907853269984665640564039457584007913129639936
  {
    assert Pow(256, 1) == 256;
    PowTwice(256, 1, 1);
    PowTwice(256, 2, 2);
    PowTwice(256, 4, 4);
    PowTwice(256, 8, 8);
    PowTwice(256, 16, 16);
  }

  lemma PowersCompared()
    ensures TOP * Pow(58, 44) <= 0xed01 * Pow(256, 32)
    ensures 0xed02 * Pow(256, 32) <= (TOP + 1) * Pow(58, 44)
  {
    PowerOf58();
    PowerOf256();
  }

  /** The number a did:key encodes lies between the top digits and their successor. */
  lemma PrefixedValue(key: seq<nat>)
    requires IsKey(key)
    ensures TOP * Pow(58, 44) <= BigEndian(MULTICODEC + key, 256) < (TOP + 1) * Pow(58, 44)
  {
    PowersCompared();
    BigEndianOfConcat(MULTICODEC, key, 256);
    BigEndianBound(key, 256);
    assert MULTICODEC[..1] == [0xed] && [0xed][..0] == [];
    assert BigEndian([0xed], 256) == 0xed;
    assert BigEndian(MULTICODEC, 256) == 0xed01;
  }

  /** Its numeral is 44 digits below the three top ones. */
  lemma NumeralShape(n: nat) returns (low: seq<nat>)
    requires TOP * Pow(58, 44) <= n < (TOP + 1) * Pow(58, 44)
    ensures |low| == 44 && DigitsOf(low, 58) && ToDigits(n, 58) == low + [43, 20, 5]
  {
    hide ToDigits, Pow;
    var top := [43, 20, 5];
    assert top[1..] == [20, 5] && top[1..][1..] == [5] && top[1..][1..][1..] == [];
    assert Value(top, 58) == TOP;
    low := FixedWidth(n - TOP * Pow(58, 44), 58, 44);
    hide Value;
    ValueOfConcat(low, top, 58);
    assert Canonical(low + top, 58);
    CanonicalIsUnique(low + top, 58);
  }

  /** Every key's DID is `did:key:z6Mk` and exactly 44 more base58 characters. */
  lemma DidShape(key: seq<nat>)
    requires IsKey(key)
    ensures |DidOf(key)| == 56 && DidOf(key)[..12] == "did:key:z6Mk" && InAlphabet(DidOf(key)[12..])
  {
    var bytes := MULTICODEC + key;
    PrefixedIsNonzero(key);
    PrefixedValue(key);
    assert bytes[0..] == bytes;
    var low := NumeralShape(BigEndian(bytes, 256));
    var digits := EncodedDigits(bytes);
    assert digits == Reverse(low + [43, 20, 5]);
    AlphabetAt(5);
    AlphabetAt(20);
    AlphabetAt(43);
    var text := ToText(digits);
    assert text[0] == '6' && text[1] == 'M' && text[2] == 'k';
    assert DidOf(key) == DID_PREFIX + text;
    assert DidOf(key)[..12] == DID_PREFIX + text[..3];
    assert DidOf(key)[12..] == text[3..];
    TextRoundTrip(digits);
  }
}
