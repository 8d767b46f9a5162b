/**
 The pieces of the hand-written canonical JSON: quoted strings over UTF-16 code
 units, as `JSON.stringify` writes them, integers, and UTF-8. Each is shown to
 be readable back: what follows a piece never changes where the piece ends.
 */
module CanonicalJson {
  import opened Strings

  type Unit = x: nat | x < 0x1_0000
  type Text16 = seq<Unit>

  const QUOTE: Unit := 0x22
  const BACKSLASH: Unit := 0x5c
  const COMMA: Unit := 0x2c

  /** The code units of a text made of ASCII characters. */
  function Lit(s: string): (text: Text16)
    ensures |text| == |s|
    ensures forall i :: 0 <= i < |s| && (s[i] as int) < 0x80 ==> text[i] == s[i] as int
  {
    seq(|s|, i requires 0 <= i < |s| => if (s[i] as int) < 0x80 then s[i] as int as Unit else 0)
  }

  // ---------------------------------------------------------------------
  // Surrogates
  // ---------------------------------------------------------------------

  predicate High(u: Unit) { 0xD800 <= u < 0xDC00 }

  predicate Low(u: Unit) { 0xDC00 <= u < 0xE000 }

  /** The text starts with a whole surrogate pair. */
  predicate StartsPair(s: Text16) {
    |s| >= 2 && High(s[0]) && Low(s[1])
  }

  /** How many units the first character takes. */
  function Width(s: Text16): (w: nat)
    requires s != []
    ensures 1 <= w <= |s|
  {
    if StartsPair(s) then 2 else 1
  }

  /** No surrogate stands alone. */
  predicate WellFormed(s: Text16) {
    s == [] || (((!High(s[0]) && !Low(s[0])) || StartsPair(s)) && WellFormed(s[Width(s)..]))
  }

  lemma {:induction false} WellFormedConcat(a: Text16, b: Text16)
    requires WellFormed(a) && WellFormed(b)
    ensures WellFormed(a + b)
    decreases |a|
  {
    if a == [] {
      assert a + b == b;
    } else {
      var w := Width(a);
      WellFormedConcat(a[w..], b);
      assert (a + b)[w..] == a[w..] + b;
    }
  }

  lemma {:induction false} NoSurrogates(a: Text16)
    requires forall i :: 0 <= i < |a| ==> !High(a[i]) && !Low(a[i])
    ensures WellFormed(a)
  {
    if a != [] {
      NoSurrogates(a[1..]);
    }
  }

  // ---------------------------------------------------------------------
  // Quoted strings
  // ---------------------------------------------------------------------

  function HexDigit(d: nat): Unit
    requires d < 16
  {
    if d < 10 then 0x30 + d else 0x57 + d
  }

  /** `\uXXXX`, in lower case. */
  function LongEscape(u: Unit): Text16 {
    [BACKSLASH, 0x75, HexDigit(u / 16 / 16 / 16), HexDigit(u / 16 / 16 % 16), HexDigit(u / 16 % 16), HexDigit(u % 16)]
  }

  /** The letter of the two-character escape of `u`, or 0 when it has none. */
  function ShortEscape(u: Unit): Unit {
    if u == QUOTE then QUOTE
    else if u == BACKSLASH then BACKSLASH
    else if u == 0x08 then 0x62
    else if u == 0x0c then 0x66
    else if u == 0x0a then 0x6e
    else if u == 0x0d then 0x72
    else if u == 0x09 then 0x74
    else 0
  }

  /** How the first character of `s` is written inside a quoted string. */
  function Token(s: Text16): Text16
    requires s != []
  {
    if StartsPair(s) then s[..2]
    else if ShortEscape(s[0]) != 0 then [BACKSLASH, ShortEscape(s[0])]
    else if s[0] < 0x20 || High(s[0]) || Low(s[0]) then LongEscape(s[0])
    else [s[0]]
  }

  function Body(s: Text16): Text16
    decreases |s|
  {
    if s == [] then [] else Token(s) + Body(s[Width(s)..])
  }

  /** `JSON.stringify(s)` for a string. */
  function Quote(s: Text16): Text16 {
    [QUOTE] + Body(s) + [QUOTE]
  }

  lemma HexIsInjective(u: Unit, v: Unit)
    requires LongEscape(u) == LongEscape(v)
    ensures u == v
  {
    var s, t := LongEscape(u), LongEscape(v);
    assert s[2] == t[2] && s[3] == t[3] && s[4] == t[4] && s[5] == t[5];
    assert u / 16 / 16 == v / 16 / 16;
    assert u / 16 == v / 16;
  }

  /** Two texts that start with tokens start with the same token, and with the same character. */
  lemma TokenIsDetermined(a: Text16, b: Text16, x: Text16, y: Text16)
    requires a != [] && b != [] && Token(a) + x == Token(b) + y
    ensures Token(a) == Token(b) && Width(a) == Width(b) && a[..Width(a)] == b[..Width(b)] && x == y
  {
    var t, u := Token(a), Token(b);
    var all := t + x;
    assert all == u + y;
    assert t[0] == all[0] == u[0];
    if |t| >= 2 && |u| >= 2 {
      assert t[1] == all[1] == u[1];
    }
    assert |t| == |u|;
    assert t == all[..|t|] == u;
    assert x == all[|t|..] == y;
    if |t| == 6 {
      HexIsInjective(a[0], b[0]);
    }
  }

  /** The first unit of a body and its closing quote is a quote only when the body is empty. */
  lemma FirstOfBody(a: Text16, x: Text16)
    ensures var l := Body(a) + [QUOTE] + x;
            l != [] && (l[0] == QUOTE <==> a == []) && (a == [] ==> l[1..] == x)
  {
    if a != [] {
      assert (Body(a) + [QUOTE] + x)[0] == Token(a)[0];
    }
  }

  /** A quoted body ends at the first unescaped quote, so it and what follows it can be read back. */
  lemma {:induction false} BodyIsDetermined(a: Text16, b: Text16, x: Text16, y: Text16)
    requires Body(a) + [QUOTE] + x == Body(b) + [QUOTE] + y
    ensures a == b && x == y
    decreases |a| + |b|
  {
    hide Token, Width;
    var l, r := Body(a) + [QUOTE] + x, Body(b) + [QUOTE] + y;
    FirstOfBody(a, x);
    FirstOfBody(b, y);
    if a != [] {
      var a', b' := a[Width(a)..], b[Width(b)..];
      assert l == Token(a) + (Body(a') + [QUOTE] + x);
      assert r == Token(b) + (Body(b') + [QUOTE] + y);
      TokenIsDetermined(a, b, Body(a') + [QUOTE] + x, Body(b') + [QUOTE] + y);
      BodyIsDetermined(a', b', x, y);
      assert a == a[..Width(a)] + a' && b == b[..Width(b)] + b';
    }
  }

  lemma QuoteIsDetermined(a: Text16, b: Text16, x: Text16, y: Text16)
    requires Quote(a) + x == Quote(b) + y
    ensures a == b && x == y
  {
    var l, r := Quote(a) + x, Quote(b) + y;
    assert l[1..] == Body(a) + [QUOTE] + x;
    assert r[1..] == Body(b) + [QUOTE] + y;
    BodyIsDetermined(a, b, x, y);
  }

  lemma TokenIsWellFormed(s: Text16)
    requires s != []
    ensures WellFormed(Token(s))
  {
    var t := Token(s);
    if StartsPair(s) {
      assert t[2..] == [];
    } else {
      NoSurrogates(t);
    }
  }

  lemma {:induction false} BodyIsWellFormed(s: Text16)
    ensures WellFormed(Body(s))
    decreases |s|
  {
    if s != [] {
      BodyIsWellFormed(s[Width(s)..]);
      TokenIsWellFormed(s);
      WellFormedConcat(Token(s), Body(s[Width(s)..]));
    }
  }

  /** Quoting escapes every lone surrogate, so quoted text is always well formed. */
  lemma QuoteIsWellFormed(s: Text16)
    ensures WellFormed(Quote(s))
  {
    BodyIsWellFormed(s);
    NoSurrogates([QUOTE]);
    WellFormedConcat([QUOTE], Body(s));
    WellFormedConcat([QUOTE] + Body(s), [QUOTE]);
  }

  // ---------------------------------------------------------------------
  // Integers
  // ---------------------------------------------------------------------

  /** `${n}` for an integer. */
  function IntText(n: int): (text: Text16)
  {
    if n < 0 then [0x2d] + Lit(Decimal(-n)) else Lit(Decimal(n))
  }

  lemma IntTextUnits(n: int)
    ensures IntText(n) != []
    ensures forall i :: 0 <= i < |IntText(n)| ==> IntText(n)[i] == 0x2d || 0x30 <= IntText(n)[i] <= 0x39
    ensures IntText(n)[0] == 0x2d <==> n < 0
  {
    var digits := Decimal(if n < 0 then -n else n);
    forall i | 0 <= i < |digits| ensures 0x30 <= Lit(digits)[i] <= 0x39 {
      assert IsDigit(digits[i]);
    }
  }

  lemma LitIsInjective(a: string, b: string)
    requires AllDigits(a) && AllDigits(b) && Lit(a) == Lit(b)
    ensures a == b
  {
    forall i | 0 <= i < |a| ensures a[i] == b[i] {
      assert IsDigit(a[i]) && IsDigit(b[i]);
      assert Lit(a)[i] == a[i] as int && Lit(b)[i] == b[i] as int;
    }
  }

  lemma IntTextIsInjective(m: int, n: int)
    requires IntText(m) == IntText(n)
    ensures m == n
  {
    IntTextUnits(m);
    IntTextUnits(n);
    var a, b := Decimal(if m < 0 then -m else m), Decimal(if n < 0 then -n else n);
    if m < 0 {
      assert IntText(m)[1..] == Lit(a) && IntText(n)[1..] == Lit(b);
    }
    LitIsInjective(a, b);
    ValueOfDecimal(if m < 0 then -m else m);
    ValueOfDecimal(if n < 0 then -n else n);
  }

  /** Texts without a comma, each followed by one, are read back up to the comma. */
  lemma UpToComma(p: Text16, q: Text16, x: Text16, y: Text16)
    requires forall i :: 0 <= i < |p| ==> p[i] != COMMA
    requires forall i :: 0 <= i < |q| ==> q[i] != COMMA
    requires p + [COMMA] + x == q + [COMMA] + y
    ensures p == q && x == y
  {
    var l, r := p + [COMMA] + x, q + [COMMA] + y;
    assert l[|p|] == COMMA && r[|q|] == COMMA;
    assert forall i :: 0 <= i < |p| ==> l[i] == p[i];
    assert forall i :: 0 <= i < |q| ==> r[i] == q[i];
    assert |p| == |q|;
    assert p == l[..|p|] == r[..|q|] == q;
    assert x == l[|p| + 1..] && y == r[|q| + 1..];
  }

  lemma IntIsDetermined(m: int, n: int, x: Text16, y: Text16)
    requires IntText(m) + [COMMA] + x == IntText(n) + [COMMA] + y
    ensures m == n && x == y
  {
    IntTextUnits(m);
    IntTextUnits(n);
    UpToComma(IntText(m), IntText(n), x, y);
    IntTextIsInjective(m, n);
  }

  // ---------------------------------------------------------------------
  // UTF-8
  // ---------------------------------------------------------------------

  /** The code point of a surrogate pair. */
  function CodePoint(h: Unit, l: Unit): nat
    requires High(h) && Low(l)
  {
    0x1_0000 + (h as int - 0xD800) * 0x400 + (l as int - 0xDC00)
  }

  function FourBytes(cp: nat): seq<nat> {
    [0xF0 + cp / 0x40 / 0x40 / 0x40, 0x80 + cp / 0x40 / 0x40 % 0x40, 0x80 + cp / 0x40 % 0x40, 0x80 + cp % 0x40]
  }

  function ThreeBytes(u: nat): seq<nat> {
    [0xE0 + u / 0x40 / 0x40, 0x80 + u / 0x40 % 0x40, 0x80 + u % 0x40]
  }

  function TwoBytes(u: nat): seq<nat> {
    [0xC0 + u / 0x40, 0x80 + u % 0x40]
  }

  /** The bytes of the first character; a lone surrogate becomes the replacement character. */
  function CharBytes(s: Text16): seq<nat>
    requires s != []
  {
    var u := s[0];
    if StartsPair(s) then FourBytes(CodePoint(u, s[1]))
    else if u < 0x80 then [u]
    else if u < 0x800 then TwoBytes(u)
    else if High(u) || Low(u) then [0xEF, 0xBF, 0xBD]
    else ThreeBytes(u)
  }

  function Utf8(s: Text16): seq<nat>
    decreases |s|
  {
    if s == [] then [] else CharBytes(s) + Utf8(s[Width(s)..])
  }

  /** How many bytes a character takes, from its first byte. */
  lemma LeadByte(s: Text16)
    requires s != []
    ensures |CharBytes(s)| ==
              if StartsPair(s) then 4 else if s[0] < 0x80 then 1 else if s[0] < 0x800 then 2 else 3
    ensures |CharBytes(s)| ==
              var b := CharBytes(s)[0];
              if b < 0x80 then 1 else if b < 0xE0 then 2 else if b < 0xF0 then 3 else 4
  {
  }

  lemma FourBytesInjective(m: nat, n: nat)
    requires FourBytes(m) == FourBytes(n)
    ensures m == n
  {
    var s, t := FourBytes(m), FourBytes(n);
    assert s[0] == t[0] && s[1] == t[1] && s[2] == t[2] && s[3] == t[3];
    assert m / 0x40 / 0x40 == n / 0x40 / 0x40;
    assert m / 0x40 == n / 0x40;
  }

  lemma ThreeBytesInjective(m: nat, n: nat)
    requires ThreeBytes(m) == ThreeBytes(n)
    ensures m == n
  {
    var s, t := ThreeBytes(m), ThreeBytes(n);
    assert s[0] == t[0] && s[1] == t[1] && s[2] == t[2];
    assert m / 0x40 == n / 0x40;
  }

  lemma TwoBytesInjective(m: nat, n: nat)
    requires TwoBytes(m) == TwoBytes(n)
    ensures m == n
  {
    var s, t := TwoBytes(m), TwoBytes(n);
    assert s[0] == t[0] && s[1] == t[1];
  }

  predicate Starts(s: Text16) {
    s != [] && (StartsPair(s) || (!High(s[0]) && !Low(s[0])))
  }

  lemma CharIsDetermined(a: Text16, b: Text16)
    requires Starts(a) && Starts(b) && CharBytes(a) == CharBytes(b)
    ensures Width(a) == Width(b) && a[..Width(a)] == b[..Width(b)]
  {
    LeadByte(a);
    LeadByte(b);
    hide FourBytes, ThreeBytes, TwoBytes;
    assert |CharBytes(a)| == |CharBytes(b)|;
    if |CharBytes(a)| == 4 {
      FourBytesInjective(CodePoint(a[0], a[1]), CodePoint(b[0], b[1]));
    } else if |CharBytes(a)| == 3 {
      ThreeBytesInjective(a[0], b[0]);
    } else if |CharBytes(a)| == 2 {
      TwoBytesInjective(a[0], b[0]);
    } else {
      assert CharBytes(a)[0] == CharBytes(b)[0];
    }
  }

  /** On well-formed text UTF-8 loses nothing. */
  lemma {:induction false} Utf8IsInjective(a: Text16, b: Text16)
    requires WellFormed(a) && WellFormed(b) && Utf8(a) == Utf8(b)
    ensures a == b
    decreases |a|
  {
    if a == [] || b == [] {
      assert a == [] ==> Utf8(b) == [];
    } else {
      LeadByte(a);
      LeadByte(b);
      var s, t := CharBytes(a), CharBytes(b);
      assert s[0] == Utf8(a)[0] == Utf8(b)[0] == t[0];
      assert s == Utf8(a)[..|s|] == t;
      CharIsDetermined(a, b);
      var a', b' := a[Width(a)..], b[Width(b)..];
      assert Utf8(a') == Utf8(a)[|s|..] == Utf8(b');
      Utf8IsInjective(a', b');
      assert a == a[..Width(a)] + a' && b == b[..Width(b)] + b';
    }
  }
}
