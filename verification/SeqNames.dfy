/**
 The file names of the transport form: six zero-padded digits, allocated from
 the highest existing number, listed in lexicographic order.
 */
module SeqNames {
  import opened Results
  import opened Strings

  const SEQ_WIDTH: nat := 6

  /** The first number whose padded name is wider than SEQ_WIDTH. */
  const SEQ_LIMIT: nat := 1_000_000

  predicate IsSeqName(name: string) {
    |name| == SEQ_WIDTH && AllDigits(name)
  }

  function PadStart(s: string, width: nat): (padded: string)
    ensures |padded| == if |s| < width then width else |s|
    decreases width - |s|
  {
    if width <= |s| then s else PadStart(['0'] + s, width)
  }

  function SeqName(n: nat): string {
    PadStart(Decimal(n), SEQ_WIDTH)
  }

  function TmpName(n: nat): string {
    ".tmp-" + Decimal(n)
  }

  // ---------------------------------------------------------------------
  // What a padded name says
  // ---------------------------------------------------------------------

  lemma {:induction false} ValueOfLeadingZero(s: string)
    requires AllDigits(s)
    ensures ValueOf(['0'] + s) == ValueOf(s)
  {
    var z := ['0'] + s;
    if s == "" {
      assert z[..0] == "";
    } else {
      var n := |s| - 1;
      assert z[..|z| - 1] == ['0'] + s[..n];
      ValueOfLeadingZero(s[..n]);
    }
  }

  lemma {:induction false} PadKeepsValue(s: string, width: nat)
    requires AllDigits(s)
    ensures AllDigits(PadStart(s, width)) && ValueOf(PadStart(s, width)) == ValueOf(s)
    decreases width - |s|
  {
    if |s| < width {
      ValueOfLeadingZero(s);
      PadKeepsValue(['0'] + s, width);
    }
  }

  /** A name carries its number, so distinct numbers have distinct names. */
  lemma SeqNameValue(n: nat)
    ensures AllDigits(SeqName(n)) && ValueOf(SeqName(n)) == n
  {
    ValueOfDecimal(n);
    PadKeepsValue(Decimal(n), SEQ_WIDTH);
  }

  lemma DecimalWidth(n: nat)
    ensures |Decimal(n)| <= SEQ_WIDTH <==> n < SEQ_LIMIT
  {
    var a := n / 10;
    var b := a / 10;
    var c := b / 10;
    var d := c / 10;
    var e := d / 10;
    assert n >= 10 ==> |Decimal(n)| == |Decimal(a)| + 1;
    assert a >= 10 ==> |Decimal(a)| == |Decimal(b)| + 1;
    assert b >= 10 ==> |Decimal(b)| == |Decimal(c)| + 1;
    assert c >= 10 ==> |Decimal(c)| == |Decimal(d)| + 1;
    assert d >= 10 ==> |Decimal(d)| == |Decimal(e)| + 1;
    assert e >= 10 ==> |Decimal(e)| == |Decimal(e / 10)| + 1;
  }

  /** The listing sees exactly the names of numbers up to 999999. */
  lemma ListedIffBelowLimit(n: nat)
    ensures IsSeqName(SeqName(n)) <==> n < SEQ_LIMIT
  {
    DecimalWidth(n);
    SeqNameValue(n);
  }

  lemma {:induction false} WidthBound(s: string)
    requires AllDigits(s) && |s| <= SEQ_WIDTH
    ensures |s| == 0 ==> ValueOf(s) == 0
    ensures |s| == 1 ==> ValueOf(s) < 10
    ensures |s| == 2 ==> ValueOf(s) < 100
    ensures |s| == 3 ==> ValueOf(s) < 1_000
    ensures |s| == 4 ==> ValueOf(s) < 10_000
    ensures |s| == 5 ==> ValueOf(s) < 100_000
    ensures |s| == 6 ==> ValueOf(s) < 1_000_000
  {
    if s != "" {
      WidthBound(s[..|s| - 1]);
    }
  }

  /** Every listed name is the name of its own number. */
  lemma ListedNameIsItsNumbers(name: string)
    requires IsSeqName(name)
    ensures ValueOf(name) < SEQ_LIMIT && SeqName(ValueOf(name)) == name
  {
    WidthBound(name);
    var n := ValueOf(name);
    ListedIffBelowLimit(n);
    SeqNameValue(n);
    SameWidthSameValue(name, SeqName(n));
  }

  lemma TmpNamesDiffer(m: nat, n: nat)
    ensures m != n ==> TmpName(m) != TmpName(n)
    ensures !AllDigits(TmpName(n))
  {
    ValueOfDecimal(m);
    ValueOfDecimal(n);
    assert TmpName(m)[5..] == Decimal(m) && TmpName(n)[5..] == Decimal(n);
    assert TmpName(n)[0] == '.';
  }

  lemma SeqNamesDiffer(m: nat, n: nat)
    ensures m != n ==> SeqName(m) != SeqName(n)
    ensures SeqName(m) != TmpName(n)
  {
    SeqNameValue(m);
    SeqNameValue(n);
    TmpNamesDiffer(m, n);
  }

  // ---------------------------------------------------------------------
  // nextSeq
  // ---------------------------------------------------------------------

  function HighestPlusOne(names: seq<string>): nat
    requires forall i :: 0 <= i < |names| ==> AllDigits(names[i])
  {
    if names == [] then 0
    else
      var rest := HighestPlusOne(names[..|names| - 1]);
      var value := ValueOf(names[|names| - 1]);
      if value >= rest then value + 1 else rest
  }

  /** The next number is above every existing one, and no higher than it has to be. */
  lemma {:induction false} NextIsAboveAll(names: seq<string>)
    requires forall i :: 0 <= i < |names| ==> AllDigits(names[i])
    ensures forall i :: 0 <= i < |names| ==> ValueOf(names[i]) < HighestPlusOne(names)
    ensures HighestPlusOne(names) > 0 ==>
              exists i :: 0 <= i < |names| && ValueOf(names[i]) == HighestPlusOne(names) - 1
  {
    if names != [] {
      var n := |names| - 1;
      NextIsAboveAll(names[..n]);
      if ValueOf(names[n]) < HighestPlusOne(names[..n]) {
        var i :| 0 <= i < n && ValueOf(names[..n][i]) == HighestPlusOne(names[..n]) - 1;
        assert ValueOf(names[i]) == HighestPlusOne(names) - 1;
      }
    }
  }

  /** `Number(name)` where it is an integer; on other names `Number` may convert or not, as it likes. */
  type Conversion = string -> Option<int>

  ghost predicate ReadsDigits(number: Conversion) {
    forall s :: s != "" && AllDigits(s) ==> number(s) == Some(ValueOf(s))
  }

  /** The next number for any names at all: above every integer among them, from zero up. */
  ghost predicate IsNext(number: Conversion, names: seq<string>, next: nat) {
    && (forall i :: 0 <= i < |names| && number(names[i]).Some? ==> number(names[i]).value < next)
    && (next > 0 ==> exists i :: 0 <= i < |names| && number(names[i]) == Some(next - 1))
  }

  /** The conversion on sequence names, all that a flush uses of it. */
  function DigitsToNumber(name: string): Option<int> {
    if name != "" && AllDigits(name) then Some(ValueOf(name)) else None
  }

  /** On sequence names that is the number above the highest one. */
  lemma NextOfSeqNames(number: Conversion, names: seq<string>, next: nat)
    requires ReadsDigits(number) && IsNext(number, names, next)
    requires forall i :: 0 <= i < |names| ==> names[i] != "" && AllDigits(names[i])
    ensures next == HighestPlusOne(names)
  {
    NextIsAboveAll(names);
    forall i | 0 <= i < |names| ensures number(names[i]) == Some(ValueOf(names[i])) {
    }
  }

  method NextSeq(names: seq<string>, number: Conversion) returns (next: nat)
    ensures IsNext(number, names, next)
  {
    var highest: int := -1;
    for k := 0 to |names|
      invariant -1 <= highest
      invariant forall i :: 0 <= i < k && number(names[i]).Some? ==> number(names[i]).value <= highest
      invariant highest >= 0 ==> exists i :: 0 <= i < k && number(names[i]) == Some(highest)
    {
      var value := number(names[k]);
      if value.Some? && value.value > highest {
        highest := value.value;
      }
    }
    return highest + 1;
  }

  // ---------------------------------------------------------------------
  // listSeqFiles
  // ---------------------------------------------------------------------

  /** The sequence names among `keys` with a number below `n`, in numeric order. */
  function NamesBelow(keys: set<string>, n: nat): seq<string>
    decreases n, keys
  {
    if n == 0 then []
    else NamesBelow(keys, n - 1) + if SeqName(n - 1) in keys then [SeqName(n - 1)] else []
  }

  predicate LexSorted(names: seq<string>) {
    forall i, j :: 0 <= i < j < |names| ==> LexLess(names[i], names[j])
  }

  predicate NumberSorted(names: seq<string>) {
    && (forall i :: 0 <= i < |names| ==> IsSeqName(names[i]))
    && (forall i, j :: 0 <= i < j < |names| ==> ValueOf(names[i]) < ValueOf(names[j]))
  }

  /** Sorting zero-padded names as strings sorts them by number. */
  lemma LexSortedIsNumberSorted(names: seq<string>)
    requires forall i :: 0 <= i < |names| ==> IsSeqName(names[i])
    ensures LexSorted(names) <==> NumberSorted(names)
  {
    forall i, j | 0 <= i < j < |names|
      ensures LexLess(names[i], names[j]) <==> ValueOf(names[i]) < ValueOf(names[j])
    {
      LexIsNumeric(names[i], names[j]);
    }
  }

  ghost predicate ListsBelow(names: seq<string>, keys: set<string>, n: nat) {
    && NumberSorted(names)
    && (forall x :: x in names <==> x in keys && IsSeqName(x) && ValueOf(x) < n)
  }

  /** The listing ends in the name of the largest number, when that name is there. */
  lemma ListingWithTop(names: seq<string>, keys: set<string>, n: nat)
    requires 0 < n <= SEQ_LIMIT && ListsBelow(names, keys, n) && SeqName(n - 1) in keys
    ensures names != [] && names[|names| - 1] == SeqName(n - 1)
    ensures ListsBelow(names[..|names| - 1], keys, n - 1)
  {
    var top := SeqName(n - 1);
    SeqNameValue(n - 1);
    ListedIffBelowLimit(n - 1);
    assert top in names;
    var at :| 0 <= at < |names| && names[at] == top;
    var k := |names| - 1;
    assert names[k] in names;
    assert at == k;
    var init := names[..k];
    forall x ensures x in init <==> x in keys && IsSeqName(x) && ValueOf(x) < n - 1 {
      if x in init {
        var i :| 0 <= i < k && init[i] == x;
        assert names[i] in names && ValueOf(names[i]) < ValueOf(names[k]);
      } else if x in names {
        assert x == names[k];
      }
    }
  }

  lemma ListingWithoutTop(names: seq<string>, keys: set<string>, n: nat)
    requires 0 < n <= SEQ_LIMIT && ListsBelow(names, keys, n) && SeqName(n - 1) !in keys
    ensures ListsBelow(names, keys, n - 1)
  {
    forall x | x in keys && IsSeqName(x) && ValueOf(x) < n ensures ValueOf(x) < n - 1 {
      ListedNameIsItsNumbers(x);
    }
  }

  /** A number-sorted list of the right names is the list in allocation order. */
  lemma {:induction false} ListingIsUnique(names: seq<string>, keys: set<string>, n: nat)
    requires n <= SEQ_LIMIT && ListsBelow(names, keys, n)
    ensures names == NamesBelow(keys, n)
    decreases n
  {
    assert names == [] || names[0] in names;
    if n == 0 {
    } else if SeqName(n - 1) in keys {
      ListingWithTop(names, keys, n);
      ListingIsUnique(names[..|names| - 1], keys, n - 1);
    } else {
      ListingWithoutTop(names, keys, n);
      ListingIsUnique(names, keys, n - 1);
    }
  }

  /** Insert `name` into a sorted list, before the first larger element. */
  function InsertSorted(names: seq<string>, name: string): seq<string> {
    if names == [] then [name]
    else if LexLess(name, names[0]) then [name] + names
    else [names[0]] + InsertSorted(names[1..], name)
  }

  lemma {:induction false} InsertMembers(names: seq<string>, name: string)
    ensures forall x :: x in InsertSorted(names, name) <==> x in names || x == name
  {
    if names == [] || LexLess(name, names[0]) {
    } else {
      InsertMembers(names[1..], name);
      assert names == [names[0]] + names[1..];
    }
  }

  lemma {:induction false} InsertKeepsOrder(names: seq<string>, name: string)
    requires NumberSorted(names) && IsSeqName(name) && name !in names
    ensures NumberSorted(InsertSorted(names, name))
  {
    InsertMembers(names, name);
    if names == [] {
    } else {
      LexIsNumeric(name, names[0]);
      if ValueOf(name) == ValueOf(names[0]) {
        SameWidthSameValue(name, names[0]);
      }
      if !LexLess(name, names[0]) {
        InsertKeepsOrder(names[1..], name);
        InsertMembers(names[1..], name);
        var rest := InsertSorted(names[1..], name);
        forall j | 0 <= j < |rest| ensures ValueOf(names[0]) < ValueOf(rest[j]) {
          assert rest[j] in rest;
        }
      }
    }
  }

  /**
   `readdir`, keep the sequence names, sort them as strings. `names` is the
   directory's names in whatever order the host returns them; the result
   depends only on which names there are.
   */
  method ListSeqFiles(names: seq<string>) returns (listed: seq<string>)
    requires forall i, j :: 0 <= i < j < |names| ==> names[i] != names[j]
    ensures listed == NamesBelow((set x | x in names), SEQ_LIMIT)
    ensures LexSorted(listed)
  {
    listed := [];
    for k := 0 to |names|
      invariant NumberSorted(listed)
      invariant forall x :: x in listed <==> x in names[..k] && IsSeqName(x)
    {
      if IsSeqName(names[k]) {
        InsertKeepsOrder(listed, names[k]);
        InsertMembers(listed, names[k]);
        listed := InsertSorted(listed, names[k]);
      }
      assert names[..k + 1] == names[..k] + [names[k]];
    }
    assert names[..|names|] == names;
    forall x | IsSeqName(x) ensures ValueOf(x) < SEQ_LIMIT {
      ListedNameIsItsNumbers(x);
    }
    ListingIsUnique(listed, (set x | x in names), SEQ_LIMIT);
    LexSortedIsNumberSorted(listed);
  }
}
