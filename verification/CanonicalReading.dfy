/**
 The signed bytes, read by the standards: UTF-8 as RFC 3629 decodes it, strings
 as RFC 8259 reads them, and the text as JSON without white space whose keys are
 in alphabetical order.
 */
module CanonicalReading {
  import opened Results
  import opened Strings
  import opened CanonicalJson
  import opened Attestation

  // ---------------------------------------------------------------------
  // Reading a string: section 7 of RFC 8259
  // ---------------------------------------------------------------------

  function HexValue(u: Unit): Option<nat> {
    if 0x30 <= u <= 0x39 then Some(u - 0x30)
    else if 0x61 <= u <= 0x66 then Some(u - 0x57)
    else if 0x41 <= u <= 0x46 then Some(u - 0x37)
    else None
  }

  /** The unit that four hexadecimal digits stand for. */
  function FourHex(t: Text16): (u: Option<Unit>)
    requires |t| >= 4
  {
    var a, b, c, d := HexValue(t[0]), HexValue(t[1]), HexValue(t[2]), HexValue(t[3]);
    if a.None? || b.None? || c.None? || d.None? then None
    else
      var n := ((a.value * 16 + b.value) * 16 + c.value) * 16 + d.value;
      if n < 0x1_0000 then Some(n) else None
  }

  /** The unit a two-character escape stands for. */
  function Escaped(u: Unit): Option<Unit> {
    if u == 0x22 || u == 0x5c || u == 0x2f then Some(u)  // quote, backslash, slash
    else if u == 0x62 then Some(0x08)
    else if u == 0x66 then Some(0x0c)
    else if u == 0x6e then Some(0x0a)
    else if u == 0x72 then Some(0x0d)
    else if u == 0x74 then Some(0x09)
    else None
  }

  datatype Scan = Scanned(text: Text16, rest: Text16) | Malformed

  function Prepend(u: Unit, s: Scan): Scan {
    if s.Scanned? then Scanned([u] + s.text, s.rest) else Malformed
  }

  /** A string after its opening quote: what it says, and what follows its closing quote. */
  function ReadString(t: Text16): Scan
    decreases |t|
  {
    if t == [] then Malformed
    else if t[0] == QUOTE then Scanned([], t[1..])
    else if t[0] < 0x20 then Malformed
    else if t[0] != BACKSLASH then Prepend(t[0], ReadString(t[1..]))
    else if |t| >= 6 && t[1] == 0x75 then
      match FourHex(t[2..])
      case Some(u) => Prepend(u, ReadString(t[6..]))
      case None => Malformed
    else if |t| >= 2 && Escaped(t[1]).Some? then Prepend(Escaped(t[1]).value, ReadString(t[2..]))
    else Malformed
  }

  lemma LongEscapeReads(u: Unit)
    ensures FourHex(LongEscape(u)[2..]) == Some(u)
  {
    var t := LongEscape(u)[2..];
    var a, b, c, d := u / 16 / 16 / 16, u / 16 / 16 % 16, u / 16 % 16, u % 16;
    assert HexValue(t[0]) == Some(a) && HexValue(t[1]) == Some(b) && HexValue(t[2]) == Some(c) && HexValue(t[3]) == Some(d);
    assert u == ((a * 16 + b) * 16 + c) * 16 + d;
  }

  lemma PlainReads(u: Unit, more: Text16)
    requires u >= 0x20 && u != QUOTE && u != BACKSLASH
    ensures ReadString([u] + more) == Prepend(u, ReadString(more))
  {
    assert ([u] + more)[1..] == more;
  }

  lemma ShortReads(u: Unit, more: Text16)
    requires ShortEscape(u) != 0
    ensures ReadString([BACKSLASH, ShortEscape(u)] + more) == Prepend(u, ReadString(more))
  {
    var t := [BACKSLASH, ShortEscape(u)] + more;
    assert t[2..] == more && t[1] != 0x75;
    assert Escaped(t[1]) == Some(u);
  }

  lemma LongReads(u: Unit, more: Text16)
    ensures ReadString(LongEscape(u) + more) == Prepend(u, ReadString(more))
  {
    hide LongEscape, FourHex;
    var t := LongEscape(u) + more;
    LongEscapeStarts(u);
    LongEscapeReads(u);
    assert t[6..] == more && t[2..] == LongEscape(u)[2..] + more;
    FourHexOfPrefix(LongEscape(u)[2..], more);
  }

  /** One token reads as the character it was made of. */
  lemma TokenReads(s: Text16, more: Text16)
    requires s != [] && ReadString(more).Scanned?
    ensures ReadString(Token(s) + more) == Scanned(s[..Width(s)] + ReadString(more).text, ReadString(more).rest)
  {
    hide LongEscape, ShortEscape, ReadString;
    if StartsPair(s) {
      PlainReads(s[1], more);
      PlainReads(s[0], [s[1]] + more);
      assert s[..2] == [s[0]] + [s[1]];
      assert s[..2] + more == [s[0]] + ([s[1]] + more);
      assert [s[0]] + ([s[1]] + ReadString(more).text) == s[..2] + ReadString(more).text;
    } else {
      assert s[..1] == [s[0]];
      UnescapedIsPlain(s[0]);
      if ShortEscape(s[0]) != 0 {
        ShortReads(s[0], more);
      } else if s[0] < 0x20 || High(s[0]) || Low(s[0]) {
        LongReads(s[0], more);
      } else {
        PlainReads(s[0], more);
      }
    }
  }

  lemma UnescapedIsPlain(u: Unit)
    ensures ShortEscape(u) == 0 ==> u != QUOTE && u != BACKSLASH
  {
  }

  lemma LongEscapeStarts(u: Unit)
    ensures |LongEscape(u)| == 6 && LongEscape(u)[0] == BACKSLASH && LongEscape(u)[1] == 0x75
  {
  }

  lemma FourHexOfPrefix(t: Text16, more: Text16)
    requires |t| == 4
    ensures FourHex(t + more) == FourHex(t)
  {
  }

  /** What is quoted reads back, whatever it is and whatever follows. */
  lemma {:induction false} QuotedReadsBack(s: Text16, more: Text16)
    ensures ReadString(Body(s) + [QUOTE] + more) == Scanned(s, more)
    ensures Quote(s) == [QUOTE] + Body(s) + [QUOTE]
    decreases |s|
  {
    hide Token, Width;
    if s == [] {
      assert [QUOTE] + more == Body(s) + [QUOTE] + more;
      assert ([QUOTE] + more)[1..] == more;
    } else {
      var w := Width(s);
      QuotedReadsBack(s[w..], more);
      TokenReads(s, Body(s[w..]) + [QUOTE] + more);
      assert Body(s) + [QUOTE] + more == Token(s) + (Body(s[w..]) + [QUOTE] + more);
      assert s == s[..w] + s[w..];
    }
  }

  // ---------------------------------------------------------------------
  // Reading bytes: section 3 of RFC 3629
  // ---------------------------------------------------------------------

  predicate Continues(b: nat) {
    0x80 <= b < 0xC0
  }

  /** The UTF-16 units of a code point. */
  function UnitsOf(cp: nat): (t: Text16)
    requires cp < 0x11_0000
  {
    if cp < 0x1_0000 then [cp]
    else [0xD800 + (cp - 0x1_0000) / 0x400, 0xDC00 + (cp - 0x1_0000) % 0x400]
  }

  /** The first code point, and how many bytes it takes; None when the bytes start no character. */
  function FirstPoint(b: seq<nat>): (r: Option<(nat, nat)>)
    ensures r.Some? ==> r.value.0 < 0x11_0000 && 1 <= r.value.1 <= |b|
  {
    if |b| >= 1 && b[0] < 0x80 then Some((b[0], 1))
    else if |b| >= 2 && 0xC0 <= b[0] < 0xE0 && Continues(b[1]) then
      Some(((b[0] - 0xC0) * 0x40 + (b[1] - 0x80), 2))
    else if |b| >= 3 && 0xE0 <= b[0] < 0xF0 && Continues(b[1]) && Continues(b[2]) then
      Some((((b[0] - 0xE0) * 0x40 + (b[1] - 0x80)) * 0x40 + (b[2] - 0x80), 3))
    else if |b| >= 4 && 0xF0 <= b[0] < 0xF8 && Continues(b[1]) && Continues(b[2]) && Continues(b[3]) then
      var cp := (((b[0] - 0xF0) * 0x40 + (b[1] - 0x80)) * 0x40 + (b[2] - 0x80)) * 0x40 + (b[3] - 0x80);
      if cp < 0x11_0000 then Some((cp, 4)) else None
    else None
  }

  function FromUtf8(b: seq<nat>): Option<Text16>
    decreases |b|
  {
    if b == [] then Some([])
    else
      match FirstPoint(b)
      case None => None
      case Some((cp, width)) =>
        match FromUtf8(b[width..])
        case None => None
        case Some(rest) => Some(UnitsOf(cp) + rest)
  }

  lemma FourBytesRead(cp: nat, more: seq<nat>)
    requires cp < 0x11_0000
    ensures FirstPoint(FourBytes(cp) + more) == Some((cp, 4))
  {
    var a, b, c, d := cp / 0x40 / 0x40 / 0x40, cp / 0x40 / 0x40 % 0x40, cp / 0x40 % 0x40, cp % 0x40;
    assert cp == ((a * 0x40 + b) * 0x40 + c) * 0x40 + d;
    assert a < 8;
  }

  lemma ThreeBytesRead(u: nat, more: seq<nat>)
    requires u < 0x1_0000
    ensures FirstPoint(ThreeBytes(u) + more) == Some((u, 3))
  {
    var a, b, c := u / 0x40 / 0x40, u / 0x40 % 0x40, u % 0x40;
    assert u == (a * 0x40 + b) * 0x40 + c;
  }

  lemma PairIsPoint(h: Unit, l: Unit)
    requires High(h) && Low(l)
    ensures 0x1_0000 <= CodePoint(h, l) < 0x11_0000 && UnitsOf(CodePoint(h, l)) == [h, l]
  {
    var n := CodePoint(h, l) - 0x1_0000;
    assert n == (h - 0xD800) * 0x400 + (l - 0xDC00);
    assert n / 0x400 == h - 0xD800 && n % 0x400 == l - 0xDC00;
  }

  lemma CharReads(s: Text16, more: seq<nat>)
    requires Starts(s)
    ensures var first := FirstPoint(CharBytes(s) + more);
            first.Some? && UnitsOf(first.value.0) == s[..Width(s)] && first.value.1 == |CharBytes(s)|
  {
    hide FourBytes, ThreeBytes, FirstPoint, UnitsOf;
    if StartsPair(s) {
      PairIsPoint(s[0], s[1]);
      FourBytesRead(CodePoint(s[0], s[1]), more);
      LeadByte(s);
      assert s[..2] == [s[0], s[1]];
    } else if s[0] < 0x800 {
      ShortCharReads(s, more);
    } else {
      ThreeBytesRead(s[0], more);
      LeadByte(s);
      OneUnit(s[0]);
      assert s[..1] == [s[0]];
    }
  }

  lemma OneUnit(u: Unit)
    ensures UnitsOf(u) == [u]
  {
  }

  lemma ShortCharReads(s: Text16, more: seq<nat>)
    requires s != [] && !StartsPair(s) && s[0] < 0x800
    ensures FirstPoint(CharBytes(s) + more) == Some((s[0] as nat, |CharBytes(s)|)) && UnitsOf(s[0]) == s[..Width(s)]
  {
    var u: nat := s[0];
    assert u == u / 0x40 * 0x40 + u % 0x40;
    assert s[..1] == [s[0]];
  }

  /** Well-formed text is what its UTF-8 bytes decode to. */
  lemma {:induction false} Utf8ReadsBack(s: Text16)
    requires WellFormed(s)
    ensures FromUtf8(Utf8(s)) == Some(s)
    decreases |s|
  {
    hide CharBytes, FirstPoint, UnitsOf;
    if s != [] {
      var w := Width(s);
      CharReads(s, Utf8(s[w..]));
      Utf8ReadsBack(s[w..]);
      assert Utf8(s)[|CharBytes(s)|..] == Utf8(s[w..]);
      assert s == s[..w] + s[w..];
    }
  }

  // ---------------------------------------------------------------------
  // The canonical text is JSON with sorted keys
  // ---------------------------------------------------------------------

  datatype Json = Number(n: int) | Text(s: Text16) | Object(members: seq<Member>)

  datatype Member = Member(key: string, value: Json)

  /** JSON text with no white space. */
  function Print(j: Json): Text16
    decreases j
  {
    match j
    case Number(n) => IntText(n)
    case Text(s) => Quote(s)
    case Object(members) => Lit("{") + PrintMembers(members) + Lit("}")
  }

  function PrintMembers(members: seq<Member>): Text16
    decreases members
  {
    if members == [] then []
    else
      var first := Quote(Lit(members[0].key)) + Lit(":") + Print(members[0].value);
      if |members| == 1 then first else first + Lit(",") + PrintMembers(members[1..])
  }

  function LogMembers(logs: Logs): seq<Member> {
    (match logs.blobs case None => [] case Some(key) => [Member("blobs", Text(key))])
    + [Member("data", Text(logs.data)), Member("keyDelivery", Text(logs.keyDelivery))]
  }

  /** The payload as a JSON value; absent fields are left out and the creation time is floored. */
  function JsonOf(p: Payload): Json {
    Object(
      [Member("createdAt", Number(p.createdAt.Floor)), Member("formatVersion", Number(p.formatVersion))]
      + (match p.logs case None => [] case Some(logs) => [Member("logs", Object(LogMembers(logs)))])
      + [Member("topicId", Text(p.topicId)), Member("workspaceId", Text(p.workspaceId))])
  }

  /** Every object's keys are in strictly ascending order. */
  predicate Sorted(j: Json)
    decreases j
  {
    j.Object? ==>
      && (forall i, k :: 0 <= i < k < |j.members| ==> LexLess(j.members[i].key, j.members[k].key))
      && forall i :: 0 <= i < |j.members| ==> Sorted(j.members[i].value)
  }

  predicate Plain(s: Text16) {
    forall i :: 0 <= i < |s| ==> 0x20 <= s[i] < 0x80 && s[i] != QUOTE && s[i] != BACKSLASH
  }

  lemma {:induction false} PlainBody(s: Text16)
    requires Plain(s)
    ensures Body(s) == s
    decreases |s|
  {
    if s != [] {
      PlainBody(s[1..]);
      assert s == [s[0]] + s[1..];
    }
  }

  function Key(key: string): Text16 {
    Quote(Lit(key)) + Lit(":")
  }

  lemma LitOfConcat(a: string, b: string)
    ensures Lit(a + b) == Lit(a) + Lit(b)
  {
  }

  /** A label as it is written out is the quoted key and a colon. */
  lemma LabelIsKey(key: string)
    requires Plain(Lit(key))
    ensures Lit("\"" + key + "\":") == Key(key)
  {
    PlainBody(Lit(key));
    LitOfConcat("\"" + key, "\":");
    LitOfConcat("\"", key);
    LitOfConcat("\"", ":");
    assert "\"" + ":" == "\":";
    assert Lit("\"") == [QUOTE];
    assert Lit("\"") + Lit(key) + (Lit("\"") + Lit(":")) == Quote(Lit(key)) + Lit(":");
  }

  predicate IsLetter(c: char) {
    'a' <= c <= 'z' || 'A' <= c <= 'Z'
  }

  lemma KeyIsPlain(key: string)
    requires forall i :: 0 <= i < |key| ==> IsLetter(key[i])
    ensures Plain(Lit(key))
  {
  }

  lemma NumberLabels()
    ensures Lit("\"createdAt\":") == Key("createdAt") && Lit("\"formatVersion\":") == Key("formatVersion")
  {
    hide Key, Lit;
    KeyIsPlain("createdAt");
    KeyIsPlain("formatVersion");
    LabelIsKey("createdAt");
    LabelIsKey("formatVersion");
    assert "\"" + "createdAt" + "\":" == "\"createdAt\":";
    assert "\"" + "formatVersion" + "\":" == "\"formatVersion\":";
  }

  lemma TextLabels()
    ensures Lit("\"topicId\":") == Key("topicId") && Lit("\"workspaceId\":") == Key("workspaceId")
  {
    hide Key, Lit;
    KeyIsPlain("topicId");
    KeyIsPlain("workspaceId");
    LabelIsKey("topicId");
    LabelIsKey("workspaceId");
    assert "\"" + "topicId" + "\":" == "\"topicId\":";
    assert "\"" + "workspaceId" + "\":" == "\"workspaceId\":";
  }

  lemma LogLabels()
    ensures Lit("\"logs\":") == Key("logs") && Lit("\"blobs\":") == Key("blobs")
  {
    hide Key, Lit;
    KeyIsPlain("logs");
    KeyIsPlain("blobs");
    LabelIsKey("logs");
    LabelIsKey("blobs");
    assert "\"" + "logs" + "\":" == "\"logs\":";
    assert "\"" + "blobs" + "\":" == "\"blobs\":";
  }

  lemma DataLabels()
    ensures Lit("\"data\":") == Key("data") && Lit("\"keyDelivery\":") == Key("keyDelivery")
  {
    hide Key, Lit;
    KeyIsPlain("data");
    KeyIsPlain("keyDelivery");
    LabelIsKey("data");
    LabelIsKey("keyDelivery");
    assert "\"" + "data" + "\":" == "\"data\":";
    assert "\"" + "keyDelivery" + "\":" == "\"keyDelivery\":";
  }

  lemma Labels()
    ensures Lit("\"createdAt\":") == Key("createdAt") && Lit("\"formatVersion\":") == Key("formatVersion")
    ensures Lit("\"topicId\":") == Key("topicId") && Lit("\"workspaceId\":") == Key("workspaceId")
    ensures Lit("\"logs\":") == Key("logs") && Lit("\"blobs\":") == Key("blobs")
    ensures Lit("\"data\":") == Key("data") && Lit("\"keyDelivery\":") == Key("keyDelivery")
  {
    hide Key, Lit;
    NumberLabels();
    TextLabels();
    LogLabels();
    DataLabels();
  }

  lemma CommaIsOneUnit()
    ensures Lit(",") == [COMMA]
  {
  }

  /** Labels with the bracket or comma before them, or the brace after. */
  lemma JoinedLabels()
    ensures Lit("{\"createdAt\":") == Lit("{") + Key("createdAt")
    ensures Lit(",\"workspaceId\":") == Lit(",") + Key("workspaceId")
    ensures Lit(",\"keyDelivery\":") == Lit(",") + Key("keyDelivery")
    ensures Lit("\"logs\":{") == Key("logs") + Lit("{")
    ensures Lit("},") == Lit("}") + Lit(",") && Lit(",") == [COMMA]
  {
    hide Key, Lit;
    Labels();
    CommaIsOneUnit();
    LitOfConcat("{", "\"createdAt\":");
    LitOfConcat(",", "\"workspaceId\":");
    LitOfConcat(",", "\"keyDelivery\":");
    LitOfConcat("\"logs\":", "{");
    LitOfConcat("}", ",");
    assert "{" + "\"createdAt\":" == "{\"createdAt\":";
    assert "," + "\"workspaceId\":" == ",\"workspaceId\":";
    assert "," + "\"keyDelivery\":" == ",\"keyDelivery\":";
    assert "\"logs\":" + "{" == "\"logs\":{";
    assert "}" + "," == "},";
  }

  lemma OneMember(m: Member)
    ensures PrintMembers([m]) == Key(m.key) + Print(m.value)
  {
  }

  lemma MoreMembers(m: Member, rest: seq<Member>)
    requires rest != []
    ensures PrintMembers([m] + rest) == Key(m.key) + (Print(m.value) + (Lit(",") + PrintMembers(rest)))
  {
    hide Quote, Lit;
    var all := [m] + rest;
    assert all[0] == m && all[1..] == rest;
    assert PrintMembers(all) == Quote(Lit(m.key)) + Lit(":") + Print(m.value) + Lit(",") + PrintMembers(rest);
  }

  lemma DataPrints(logs: Logs, rest: Text16)
    ensures PrintMembers([Member("data", Text(logs.data)), Member("keyDelivery", Text(logs.keyDelivery))]) + (Lit("},") + rest)
         == DataText(logs, rest)
  {
    hide Quote, Lit, Key, PrintMembers;
    Labels();
    JoinedLabels();
    var first, second := Member("data", Text(logs.data)), Member("keyDelivery", Text(logs.keyDelivery));
    MoreMembers(first, [second]);
    OneMember(second);
    assert [first] + [second] == [first, second];
  }

  lemma LogsPrint(logs: Logs, rest: Text16)
    ensures PrintMembers(LogMembers(logs)) + (Lit("},") + rest) == LogsBody(logs, rest)
  {
    hide Quote, Lit, Key, PrintMembers, DataText;
    Labels();
    DataPrints(logs, rest);
    var others := [Member("data", Text(logs.data)), Member("keyDelivery", Text(logs.keyDelivery))];
    match logs.blobs {
      case None => assert LogMembers(logs) == others;
      case Some(key) =>
        MoreMembers(Member("blobs", Text(key)), others);
    }
  }

  function TailMembers(p: Payload): seq<Member> {
    [Member("topicId", Text(p.topicId)), Member("workspaceId", Text(p.workspaceId))]
  }

  function LogsAndTail(p: Payload): seq<Member> {
    match p.logs
    case None => TailMembers(p)
    case Some(logs) => [Member("logs", Object(LogMembers(logs)))] + TailMembers(p)
  }

  lemma TailPrints(p: Payload)
    ensures PrintMembers(TailMembers(p)) + Lit("}") == TailText(p)
  {
    hide Quote, Lit, Key, PrintMembers;
    Labels();
    JoinedLabels();
    var first, second := Member("topicId", Text(p.topicId)), Member("workspaceId", Text(p.workspaceId));
    MoreMembers(first, [second]);
    OneMember(second);
    assert [first] + [second] == [first, second];
  }

  lemma LogsAndTailPrint(p: Payload)
    ensures PrintMembers(LogsAndTail(p)) + Lit("}") == LogsText(p)
  {
    hide Quote, Lit, Key, PrintMembers, LogsBody, LogMembers, TailText, TailMembers;
    TailPrints(p);
    match p.logs {
      case None =>
      case Some(logs) =>
        JoinedLabels();
        TailIsSome(p);
        MoreMembers(Member("logs", Object(LogMembers(logs))), TailMembers(p));
        LogsPrint(logs, TailText(p));
        assert Print(Object(LogMembers(logs))) == Lit("{") + PrintMembers(LogMembers(logs)) + Lit("}");
        calc {
          PrintMembers(LogsAndTail(p)) + Lit("}");
          Key("logs") + (Print(Object(LogMembers(logs))) + (Lit(",") + PrintMembers(TailMembers(p)))) + Lit("}");
          (Key("logs") + Lit("{")) + (PrintMembers(LogMembers(logs)) + ((Lit("}") + Lit(",")) + (PrintMembers(TailMembers(p)) + Lit("}"))));
          Lit("\"logs\":{") + LogsBody(logs, TailText(p));
        }
    }
  }

  lemma TailIsSome(p: Payload)
    ensures TailMembers(p) != [] && LogsAndTail(p) != []
  {
  }

  /** The canonical text is the payload printed as JSON without white space. */
  lemma CanonicalIsJson(p: Payload)
    ensures Canonical(p) == Print(JsonOf(p))
  {
    hide Quote, Lit, Key, PrintMembers, LogMembers, LogsText, IntText;
    Labels();
    JoinedLabels();
    LogsAndTailPrint(p);
    TailIsSome(p);
    var first, second := Member("createdAt", Number(p.createdAt.Floor)), Member("formatVersion", Number(p.formatVersion));
    var others := LogsAndTail(p);
    MoreMembers(second, others);
    MoreMembers(first, [second] + others);
    assert JsonOf(p).members == [first] + ([second] + others);
    assert Print(JsonOf(p)) == Lit("{") + PrintMembers(JsonOf(p).members) + Lit("}");
  }

  lemma LogKeysSorted(logs: Logs)
    ensures Sorted(Object(LogMembers(logs)))
  {
    assert "blobs"[0] < "data"[0] < "keyDelivery"[0];
  }

  /** Every object of it has its keys in alphabetical order. */
  lemma KeysAreSorted(p: Payload)
    ensures Sorted(JsonOf(p))
  {
    assert "createdAt"[0] < "formatVersion"[0] < "logs"[0] < "topicId"[0] < "workspaceId"[0];
    if p.logs.Some? {
      LogKeysSorted(p.logs.value);
    }
  }

  /** The bytes that are signed decode to the payload's JSON, keys sorted, and to nothing else. */
  lemma SignedBytesAreJson(p: Payload)
    ensures FromUtf8(BuildPayload(p)) == Some(Print(JsonOf(p))) && Sorted(JsonOf(p))
  {
    CanonicalIsWellFormed(p);
    Utf8ReadsBack(Canonical(p));
    CanonicalIsJson(p);
    KeysAreSorted(p);
  }
}
