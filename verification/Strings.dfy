/**
 String operations of the source that more than one component relies on:
 prefix and suffix tests, `split`, and decimal numerals.
 */
module Strings {

  predicate StartsWith(s: string, prefix: string) {
    prefix <= s
  }

  predicate EndsWith(s: string, suffix: string) {
    |suffix| <= |s| && s[|s| - |suffix|..] == suffix
  }

  // ---------------------------------------------------------------------
  // Splitting on one character
  // ---------------------------------------------------------------------

  /** `s.split(sep)`: always at least one piece. */
  function Split(s: string, sep: char): (pieces: seq<string>)
    ensures |pieces| > 0
  {
    if s == "" then [""]
    else if s[0] == sep then [""] + Split(s[1..], sep)
    else
      var rest := Split(s[1..], sep);
      [[s[0]] + rest[0]] + rest[1..]
  }

  function Join(pieces: seq<string>, sep: char): string
    requires |pieces| > 0
  {
    if |pieces| == 1 then pieces[0] else pieces[0] + [sep] + Join(pieces[1..], sep)
  }

  lemma {:induction false} JoinOfSplit(s: string, sep: char)
    ensures Join(Split(s, sep), sep) == s
  {
    if s == "" {
    } else {
      JoinOfSplit(s[1..], sep);
      var rest := Split(s[1..], sep);
      if s[0] == sep {
        assert ([""] + rest)[1..] == rest;
      } else {
        assert ([[s[0]] + rest[0]] + rest[1..])[1..] == rest[1..];
      }
    }
  }

  /** Splitting a concatenation at a separator splits both sides. */
  lemma {:induction false} SplitOfConcat(a: string, b: string, sep: char)
    ensures Split(a + [sep] + b, sep) == Split(a, sep) + Split(b, sep)
  {
    var s := a + [sep] + b;
    if a == "" {
      assert s[1..] == b;
    } else {
      assert s[1..] == a[1..] + [sep] + b;
      SplitOfConcat(a[1..], b, sep);
    }
  }

  lemma {:induction false} JoinOfConcat(xs: seq<string>, ys: seq<string>, sep: char)
    requires |xs| > 0 && |ys| > 0
    ensures Join(xs + ys, sep) == Join(xs, sep) + [sep] + Join(ys, sep)
  {
    if |xs| == 1 {
      assert (xs + ys)[1..] == ys;
    } else {
      assert (xs + ys)[1..] == xs[1..] + ys;
      JoinOfConcat(xs[1..], ys, sep);
    }
  }

  lemma SplitPrefixForward(a: string, b: string, sep: char)
    requires Split(a, sep) <= Split(b, sep)
    ensures b == a || StartsWith(b, a + [sep])
  {
    var pa, pb := Split(a, sep), Split(b, sep);
    var rest := pb[|pa|..];
    assert pb == pa + rest;
    JoinOfSplit(a, sep);
    JoinOfSplit(b, sep);
    if rest == [] {
      assert pb == pa;
    } else {
      JoinOfConcat(pa, rest, sep);
      assert b == a + [sep] + Join(rest, sep);
    }
  }

  /** The pieces of `a` are the first pieces of `b` exactly when `b` is `a` or continues it at a separator. */
  lemma SplitPrefix(a: string, b: string, sep: char)
    ensures Split(a, sep) <= Split(b, sep) <==> (b == a || StartsWith(b, a + [sep]))
  {
    if Split(a, sep) <= Split(b, sep) {
      SplitPrefixForward(a, b, sep);
    }
    if b != a && StartsWith(b, a + [sep]) {
      var tail := b[|a| + 1..];
      assert b == a + [sep] + tail;
      SplitOfConcat(a, tail, sep);
    }
  }

  // ---------------------------------------------------------------------
  // Decimal numerals
  // ---------------------------------------------------------------------

  predicate IsDigit(c: char) {
    '0' <= c <= '9'
  }

  predicate AllDigits(s: string) {
    forall i :: 0 <= i < |s| ==> IsDigit(s[i])
  }

  function DigitChar(d: nat): (c: char)
    requires d < 10
    ensures IsDigit(c) && DigitValue(c) == d
  {
    (48 + d) as char
  }

  function DigitValue(c: char): (d: nat)
    requires IsDigit(c)
    ensures d < 10
  {
    c as int - 48
  }

  /** `String(n)` for a natural number below 10^21. */
  function Decimal(n: nat): (s: string)
    ensures |s| > 0 && AllDigits(s)
  {
    if n < 10 then [DigitChar(n)] else Decimal(n / 10) + [DigitChar(n % 10)]
  }

  /** `Number(s)` for a string of decimal digits. */
  function ValueOf(s: string): nat
    requires AllDigits(s)
  {
    if s == "" then 0 else 10 * ValueOf(s[..|s| - 1]) + DigitValue(s[|s| - 1])
  }

  lemma {:induction false} ValueOfDecimal(n: nat)
    ensures ValueOf(Decimal(n)) == n
  {
    if n < 10 {
      var s := Decimal(n);
      assert s[..|s| - 1] == "";
    } else {
      ValueOfDecimal(n / 10);
      var s := Decimal(n);
      assert s[..|s| - 1] == Decimal(n / 10);
    }
  }

  lemma {:induction false} SameWidthSameValue(a: string, b: string)
    requires AllDigits(a) && AllDigits(b) && |a| == |b|
    requires ValueOf(a) == ValueOf(b)
    ensures a == b
  {
    if a != "" {
      var n := |a| - 1;
      SameWidthSameValue(a[..n], b[..n]);
      assert DigitValue(a[n]) == DigitValue(b[n]);
      assert a == a[..n] + [a[n]] && b == b[..n] + [b[n]];
    }
  }

  // ---------------------------------------------------------------------
  // Lexicographic order, as `Array.prototype.sort` uses it on strings
  // ---------------------------------------------------------------------

  predicate LexLess(a: string, b: string) {
    if b == "" then false
    else if a == "" then true
    else if a[0] != b[0] then a[0] < b[0]
    else LexLess(a[1..], b[1..])
  }

  lemma {:induction false} LexLessSnoc(a: string, b: string, x: char, y: char)
    requires |a| == |b|
    ensures LexLess(a + [x], b + [y]) <==> (LexLess(a, b) || (a == b && x < y))
  {
    if a == "" {
      assert (a + [x])[1..] == "" && (b + [y])[1..] == "";
    } else {
      assert (a + [x])[1..] == a[1..] + [x] && (b + [y])[1..] == b[1..] + [y];
      LexLessSnoc(a[1..], b[1..], x, y);
      assert a == [a[0]] + a[1..] && b == [b[0]] + b[1..];
    }
  }

  /** On digit strings of one width, lexicographic order is numeric order. */
  lemma {:induction false} LexIsNumeric(a: string, b: string)
    requires AllDigits(a) && AllDigits(b) && |a| == |b|
    ensures LexLess(a, b) <==> ValueOf(a) < ValueOf(b)
  {
    if a != "" {
      var n := |a| - 1;
      assert a == a[..n] + [a[n]] && b == b[..n] + [b[n]];
      LexIsNumeric(a[..n], b[..n]);
      LexLessSnoc(a[..n], b[..n], a[n], b[n]);
      if ValueOf(a[..n]) == ValueOf(b[..n]) {
        SameWidthSameValue(a[..n], b[..n]);
      }
    }
  }
}
