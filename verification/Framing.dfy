/**
 Line-delimited framing. The two stream readers of the source are shown to
 depend only on the text that has arrived, never on how it was cut. JSON itself
 is a codec that is a parameter.
 */
module Framing {
  import opened Results

  const NEWLINE: char := '\n'

  /** `stringify` and `parse`; parsing fails on anything that is not JSON. */
  datatype Codec<!Msg> = Codec(stringify: Msg -> string, parse: string -> Option<Msg>)

  /** White space as `String.prototype.trim` strips it. */
  predicate IsSpace(c: char) {
    || 0x09 <= c as int <= 0x0d || c == ' ' || c as int == 0xa0 || c as int == 0x1680
    || 0x2000 <= c as int <= 0x200a || c as int == 0x2028 || c as int == 0x2029
    || c as int == 0x202f || c as int == 0x205f || c as int == 0x3000 || c as int == 0xfeff
  }

  function TrimStart(s: string): string {
    if s != "" && IsSpace(s[0]) then TrimStart(s[1..]) else s
  }

  function TrimEnd(s: string): string {
    if s != "" && IsSpace(s[|s| - 1]) then TrimEnd(s[..|s| - 1]) else s
  }

  function Trim(s: string): string {
    TrimEnd(TrimStart(s))
  }

  predicate AllSpace(s: string) {
    forall i :: 0 <= i < |s| ==> IsSpace(s[i])
  }

  predicate Surrounds(s: string, before: string, t: string, after: string) {
    s == before + t + after && AllSpace(before) && AllSpace(after)
  }

  /** `t` is `s` without the white space around it. */
  ghost predicate IsTrimOf(s: string, t: string) {
    && (t != "" ==> !IsSpace(t[0]) && !IsSpace(t[|t| - 1]))
    && exists before, after :: Surrounds(s, before, t, after)
  }

  lemma {:induction false} TrimStartDrops(before: string, s: string)
    requires AllSpace(before)
    ensures TrimStart(before + s) == TrimStart(s)
  {
    hide IsSpace;
    if before != "" {
      assert (before + s)[1..] == before[1..] + s;
      TrimStartDrops(before[1..], s);
    } else {
      assert before + s == s;
    }
  }

  lemma {:induction false} TrimEndDrops(s: string, after: string)
    requires AllSpace(after)
    ensures TrimEnd(s + after) == TrimEnd(s)
    decreases |after|
  {
    hide IsSpace;
    if after != "" {
      assert (s + after)[..|s + after| - 1] == s + after[..|after| - 1];
      TrimEndDrops(s, after[..|after| - 1]);
    } else {
      assert s + after == s;
    }
  }

  lemma {:induction false} TrimStartLeaves(s: string) returns (before: string)
    ensures s == before + TrimStart(s) && AllSpace(before)
    ensures TrimStart(s) != "" ==> !IsSpace(TrimStart(s)[0])
  {
    hide IsSpace;
    before := "";
    if s != "" && IsSpace(s[0]) {
      var rest := TrimStartLeaves(s[1..]);
      before := [s[0]] + rest;
      assert s == [s[0]] + s[1..];
    }
  }

  lemma {:induction false} TrimEndLeaves(s: string) returns (after: string)
    ensures s == TrimEnd(s) + after && AllSpace(after)
    ensures TrimEnd(s) != "" ==> !IsSpace(TrimEnd(s)[|TrimEnd(s)| - 1])
  {
    hide IsSpace;
    after := "";
    if s != "" && IsSpace(s[|s| - 1]) {
      var rest := TrimEndLeaves(s[..|s| - 1]);
      after := rest + [s[|s| - 1]];
      assert s == s[..|s| - 1] + [s[|s| - 1]];
    }
  }

  /** Trimming takes exactly the white space around a text. */
  lemma TrimIff(s: string, t: string)
    ensures Trim(s) == t <==> IsTrimOf(s, t)
  {
    hide IsSpace;
    var before := TrimStartLeaves(s);
    var after := TrimEndLeaves(TrimStart(s));
    assert Surrounds(s, before, Trim(s), after);
    assert Trim(s) != "" ==> TrimStart(s)[0] == Trim(s)[0];
    if IsTrimOf(s, t) {
      var a, b :| Surrounds(s, a, t, b);
      assert s == a + (t + b);
      TrimStartDrops(a, t + b);
      if t == "" {
        assert t + b == b + "" && t + b == "" + b;
        TrimStartDrops(b, "");
      } else {
        assert (t + b)[0] == t[0];
        TrimEndDrops(t, b);
      }
    }
  }

  /**
   What the framing relies on: a message's text has no line break, is not
   blank, begins and ends in something other than white space, and parses back.
   */
  ghost predicate Faithful<Msg(!new)>(codec: Codec<Msg>) {
    forall m: Msg ::
      && NEWLINE !in codec.stringify(m)
      && codec.stringify(m) != ""
      && Trim(codec.stringify(m)) == codec.stringify(m)
      && codec.parse(codec.stringify(m)) == Some(m)
  }

  function Encode<Msg>(codec: Codec<Msg>, m: Msg): string {
    codec.stringify(m) + [NEWLINE]
  }

  function EncodeAll<Msg>(codec: Codec<Msg>, msgs: seq<Msg>): string {
    if msgs == [] then "" else Encode(codec, msgs[0]) + EncodeAll(codec, msgs[1..])
  }

  // ---------------------------------------------------------------------
  // Lines
  // ---------------------------------------------------------------------

  /** `text.indexOf('\n')`, with the length standing for "not found". */
  function LineEnd(text: string): (n: nat)
    ensures n <= |text|
    ensures forall i :: 0 <= i < n ==> text[i] != NEWLINE
    ensures n < |text| ==> text[n] == NEWLINE
  {
    if text == "" || text[0] == NEWLINE then 0 else 1 + LineEnd(text[1..])
  }

  /** The complete lines of a text. */
  function Lines(text: string): seq<string>
    decreases |text|
  {
    var n := LineEnd(text);
    if n == |text| then [] else [text[..n]] + Lines(text[n + 1..])
  }

  /** What follows the last line break. */
  function Remainder(text: string): string
    decreases |text|
  {
    var n := LineEnd(text);
    if n == |text| then text else Remainder(text[n + 1..])
  }

  lemma LineEndOfConcat(text: string, more: string)
    ensures LineEnd(text) < |text| ==> LineEnd(text + more) == LineEnd(text)
    ensures LineEnd(text) == |text| ==> LineEnd(text + more) >= |text|
  {
    var n := LineEnd(text + more);
    assert LineEnd(text) < |text| ==> (text + more)[LineEnd(text)] == NEWLINE;
    assert n < |text| ==> text[n] == NEWLINE;
    assert forall i :: 0 <= i < LineEnd(text) ==> (text + more)[i] == text[i];
  }

  lemma FirstLine(text: string)
    requires LineEnd(text) < |text|
    ensures Lines(text) == [text[..LineEnd(text)]] + Lines(text[LineEnd(text) + 1..])
    ensures Remainder(text) == Remainder(text[LineEnd(text) + 1..])
  {
    hide LineEnd;
  }

  lemma NoLine(text: string)
    requires LineEnd(text) == |text|
    ensures Lines(text) == [] && Remainder(text) == text
  {
  }

  /** Lines already complete stay; the rest is read with what comes next. */
  lemma {:induction false} LinesOfConcat(text: string, more: string)
    ensures Lines(text + more) == Lines(text) + Lines(Remainder(text) + more)
    ensures Remainder(text + more) == Remainder(Remainder(text) + more)
    decreases |text|
  {
    hide Lines, Remainder, LineEnd;
    var n := LineEnd(text);
    LineEndOfConcat(text, more);
    if n < |text| {
      var rest := text[n + 1..];
      FirstLine(text);
      FirstLine(text + more);
      assert (text + more)[n + 1..] == rest + more;
      assert (text + more)[..n] == text[..n];
      LinesOfConcat(rest, more);
      assert [text[..n]] + (Lines(rest) + Lines(Remainder(rest) + more))
          == ([text[..n]] + Lines(rest)) + Lines(Remainder(rest) + more);
    } else {
      NoLine(text);
    }
  }

  lemma LineOfEncoded(line: string, more: string)
    requires NEWLINE !in line
    ensures Lines(line + [NEWLINE] + more) == [line] + Lines(more)
    ensures Remainder(line + [NEWLINE] + more) == Remainder(more)
  {
    var text := line + [NEWLINE] + more;
    var n := LineEnd(text);
    assert text[|line|] == NEWLINE;
    assert forall i :: 0 <= i < |line| ==> text[i] == line[i] && line[i] in line;
    assert n == |line|;
    assert text[..n] == line && text[n + 1..] == more;
  }

  // ---------------------------------------------------------------------
  // From lines to messages
  // ---------------------------------------------------------------------

  /** `LineDecoder` trims each line and skips it when it is blank or malformed. */
  function TrimmedMessage<Msg>(codec: Codec<Msg>, line: string): seq<Msg> {
    var trimmed := Trim(line);
    if trimmed == "" then []
    else
      match codec.parse(trimmed)
      case Some(m) => [m]
      case None => []
  }

  /** The worklet transport parses each non-empty line as it is. */
  function PlainMessage<Msg>(codec: Codec<Msg>, line: string): seq<Msg> {
    if line == "" then []
    else
      match codec.parse(line)
      case Some(m) => [m]
      case None => []
  }

  function Collect<Msg>(lines: seq<string>, read: string -> seq<Msg>): seq<Msg> {
    if lines == [] then [] else read(lines[0]) + Collect(lines[1..], read)
  }

  lemma {:induction false} CollectOfConcat<Msg>(a: seq<string>, b: seq<string>, read: string -> seq<Msg>)
    ensures Collect(a + b, read) == Collect(a, read) + Collect(b, read)
  {
    if a == [] {
      assert a + b == b;
    } else {
      assert (a + b)[1..] == a[1..] + b;
      CollectOfConcat(a[1..], b, read);
    }
  }

  /** The messages in a text, under one way of reading a line. */
  function Messages<Msg>(text: string, read: string -> seq<Msg>): seq<Msg> {
    Collect(Lines(text), read)
  }

  lemma FirstMessage<Msg>(text: string, read: string -> seq<Msg>)
    requires LineEnd(text) < |text|
    ensures Messages(text, read) == read(text[..LineEnd(text)]) + Messages(text[LineEnd(text) + 1..], read)
    ensures Remainder(text) == Remainder(text[LineEnd(text) + 1..])
  {
    hide Lines, Remainder, LineEnd;
    FirstLine(text);
    var first, rest := text[..LineEnd(text)], Lines(text[LineEnd(text) + 1..]);
    assert ([first] + rest)[1..] == rest;
  }

  lemma NoMessage<Msg>(text: string, read: string -> seq<Msg>)
    requires LineEnd(text) == |text|
    ensures Messages(text, read) == [] && Remainder(text) == text
  {
    NoLine(text);
  }

  // ---------------------------------------------------------------------
  // A reader fed in pieces
  // ---------------------------------------------------------------------

  function Joined(chunks: seq<string>): string {
    if chunks == [] then "" else chunks[0] + Joined(chunks[1..])
  }

  /** The outputs of feeding the chunks one after another, starting with `buffer`. */
  function FeedAll<Msg>(buffer: string, chunks: seq<string>, read: string -> seq<Msg>): seq<Msg>
    decreases |chunks|
  {
    if chunks == [] then []
    else
      var text := buffer + chunks[0];
      Messages(text, read) + FeedAll(Remainder(text), chunks[1..], read)
  }

  function BufferAfter(buffer: string, chunks: seq<string>): string
    decreases |chunks|
  {
    if chunks == [] then buffer else BufferAfter(Remainder(buffer + chunks[0]), chunks[1..])
  }

  lemma {:induction false} RemainderIsStable(text: string)
    ensures Lines(Remainder(text)) == [] && Remainder(Remainder(text)) == Remainder(text)
    decreases |text|
  {
    var n := LineEnd(text);
    if n < |text| {
      RemainderIsStable(text[n + 1..]);
    }
  }

  lemma NothingRead<Msg>(read: string -> seq<Msg>)
    ensures Collect([], read) == []
  {
  }

  /** The outputs and the final buffer depend only on the text, whatever the cuts and whatever the text. */
  lemma {:induction false} ChunkingIsInvisible<Msg>(buffer: string, chunks: seq<string>, read: string -> seq<Msg>)
    requires Lines(buffer) == [] && Remainder(buffer) == buffer
    ensures FeedAll(buffer, chunks, read) == Messages(buffer + Joined(chunks), read)
    ensures BufferAfter(buffer, chunks) == Remainder(buffer + Joined(chunks))
    decreases |chunks|
  {
    hide Lines, Remainder, LineEnd, Collect;
    if chunks == [] {
      assert buffer + Joined(chunks) == buffer;
      NothingRead(read);
    } else {
      var text, rest := buffer + chunks[0], Joined(chunks[1..]);
      RemainderIsStable(text);
      ChunkingIsInvisible(Remainder(text), chunks[1..], read);
      assert buffer + Joined(chunks) == text + rest;
      LinesOfConcat(text, rest);
      CollectOfConcat(Lines(text), Lines(Remainder(text) + rest), read);
    }
  }

  lemma {:induction false} EncodedTextReadsBack<Msg(!new)>(codec: Codec<Msg>, msgs: seq<Msg>, read: string -> seq<Msg>)
    requires Faithful(codec)
    requires forall m: Msg :: read(codec.stringify(m)) == [m]
    ensures Messages(EncodeAll(codec, msgs), read) == msgs
    ensures Remainder(EncodeAll(codec, msgs)) == ""
  {
    hide Trim, IsSpace, Lines, Remainder;
    if msgs == [] {
      NoMessage("", read);
    } else {
      var line, more := codec.stringify(msgs[0]), EncodeAll(codec, msgs[1..]);
      EncodedTextReadsBack(codec, msgs[1..], read);
      LineOfEncoded(line, more);
      assert EncodeAll(codec, msgs) == line + [NEWLINE] + more;
      assert ([line] + Lines(more))[1..] == Lines(more);
    }
  }

  /** Both ways of reading a line give a message's own text back. */
  lemma ReadersReadMessages<Msg(!new)>(codec: Codec<Msg>)
    requires Faithful(codec)
    ensures forall m: Msg :: TrimmedMessage(codec, codec.stringify(m)) == [m]
    ensures forall m: Msg :: PlainMessage(codec, codec.stringify(m)) == [m]
  {
  }

  /** For every list of messages and every way of cutting their text, both readers yield the messages and end empty. */
  lemma {:induction false} StreamRoundTrip<Msg(!new)>(codec: Codec<Msg>, msgs: seq<Msg>, chunks: seq<string>)
    requires Faithful(codec) && Joined(chunks) == EncodeAll(codec, msgs)
    ensures FeedAll("", chunks, line => TrimmedMessage(codec, line)) == msgs
    ensures FeedAll("", chunks, line => PlainMessage(codec, line)) == msgs
    ensures BufferAfter("", chunks) == ""
  {
    ReadersReadMessages(codec);
    var trimmed: string -> seq<Msg> := line => TrimmedMessage(codec, line);
    var plain: string -> seq<Msg> := line => PlainMessage(codec, line);
    assert "" + Joined(chunks) == Joined(chunks);
    ChunkingIsInvisible("", chunks, trimmed);
    ChunkingIsInvisible("", chunks, plain);
    EncodedTextReadsBack(codec, msgs, trimmed);
    EncodedTextReadsBack(codec, msgs, plain);
  }

  // ---------------------------------------------------------------------
  // The readers
  // ---------------------------------------------------------------------

  class LineDecoder<!Msg> {
    const codec: Codec<Msg>
    var buffer: string

    constructor (codec: Codec<Msg>)
      ensures this.codec == codec && buffer == ""
    {
      this.codec := codec;
      buffer := "";
    }

    method Feed(chunk: string) returns (out: seq<Msg>)
      modifies this
      ensures out == Messages(old(buffer) + chunk, line => TrimmedMessage(codec, line))
      ensures buffer == Remainder(old(buffer) + chunk)
    {
      hide Lines, Remainder, LineEnd, Trim, Messages, Collect;
      ghost var text := buffer + chunk;
      ghost var read: string -> seq<Msg> := line => TrimmedMessage(codec, line);
      buffer := buffer + chunk;
      out := [];
      var nl := LineEnd(buffer);
      assert [] + Messages(buffer, read) == Messages(buffer, read);
      while nl < |buffer|
        invariant nl == LineEnd(buffer)
        invariant out + Messages(buffer, read) == Messages(text, read)
        invariant Remainder(buffer) == Remainder(text)
        decreases |buffer|
      {
        var line := buffer[..nl];
        FirstMessage(buffer, read);
        assert out + Messages(buffer, read) == (out + read(line)) + Messages(buffer[nl + 1..], read);
        buffer := buffer[nl + 1..];
        var trimmed := Trim(line);
        if trimmed != "" {
          match codec.parse(trimmed) {
            case Some(m) => out := out + [m];
            case None =>
          }
        }
        nl := LineEnd(buffer);
      }
      NoMessage(buffer, read);
      assert out + [] == out;
    }
  }

  /** `text.split('\n')`: the lines and the remainder. */
  function SplitLines(text: string): (parts: seq<string>)
    ensures parts == Lines(text) + [Remainder(text)]
    decreases |text|
  {
    var n := LineEnd(text);
    if n == |text| then [text] else [text[..n]] + SplitLines(text[n + 1..])
  }

  class BareTransport<!Msg> {
    const codec: Codec<Msg>
    var buffer: string
    var delivered: seq<Msg>  // what the message listeners were called with

    constructor (codec: Codec<Msg>)
      ensures this.codec == codec && buffer == "" && delivered == []
    {
      this.codec := codec;
      buffer, delivered := "", [];
    }

    method OnData(data: string)
      modifies this
      ensures delivered == old(delivered) + Messages(old(buffer) + data, line => PlainMessage(codec, line))
      ensures buffer == Remainder(old(buffer) + data)
    {
      ghost var read: string -> seq<Msg> := line => PlainMessage(codec, line);
      var parts := SplitLines(buffer + data);
      buffer := parts[|parts| - 1];
      parts := parts[..|parts| - 1];
      assert old(delivered) + Collect(parts, read) == delivered + Collect(parts[0..], read);
      for k := 0 to |parts|
        invariant delivered + Collect(parts[k..], read) == old(delivered) + Collect(parts, read)
        invariant buffer == Remainder(old(buffer) + data)
      {
        var part := parts[k];
        assert parts[k..][1..] == parts[k + 1..];
        assert delivered + Collect(parts[k..], read) == (delivered + read(part)) + Collect(parts[k + 1..], read);
        if part != "" {
          match codec.parse(part) {
            case Some(m) => delivered := delivered + [m];
            case None =>
          }
        }
      }
      assert delivered + [] == delivered;
    }
  }

  /** Trimming makes no difference to a line: what is blank does not parse, and the rest parses alike either way. */
  predicate TrimsAlike<Msg(==)>(codec: Codec<Msg>, line: string) {
    || line == ""
    || (if Trim(line) == "" then codec.parse(line) == None else codec.parse(line) == codec.parse(Trim(line)))
  }

  /** One line is read alike by both readers exactly then. */
  lemma LineReadsAlikeIff<Msg>(codec: Codec<Msg>, line: string)
    ensures PlainMessage(codec, line) == TrimmedMessage(codec, line) <==> TrimsAlike(codec, line)
  {
    if line == "" {
      assert Trim("") == "";
    } else if codec.parse(line).Some? && Trim(line) != "" && codec.parse(Trim(line)).Some? {
      assert [codec.parse(line).value][0] == codec.parse(line).value;
      assert [codec.parse(Trim(line)).value][0] == codec.parse(Trim(line)).value;
    }
  }

  lemma {:induction false} CollectAlike<Msg>(codec: Codec<Msg>, lines: seq<string>)
    requires forall k :: 0 <= k < |lines| ==> TrimsAlike(codec, lines[k])
    ensures Collect(lines, line => PlainMessage(codec, line)) == Collect(lines, line => TrimmedMessage(codec, line))
  {
    hide TrimsAlike, PlainMessage, TrimmedMessage;
    var plain: string -> seq<Msg> := line => PlainMessage(codec, line);
    var trimmed: string -> seq<Msg> := line => TrimmedMessage(codec, line);
    if lines != [] {
      CollectAlike(codec, lines[1..]);
      LineReadsAlikeIff(codec, lines[0]);
      assert plain(lines[0]) == trimmed(lines[0]);
    }
  }

  /**
   On any text, cut in any two ways, the two readers give the same messages and
   keep the same rest if trimming makes no difference to any complete line of it.
   A line that is its own trim is such a line.
   */
  lemma ReadersAgree<Msg>(codec: Codec<Msg>, some: seq<string>, others: seq<string>)
    requires Joined(some) == Joined(others)
    requires forall k :: 0 <= k < |Lines(Joined(some))| ==>
               Trim(Lines(Joined(some))[k]) == Lines(Joined(some))[k] || TrimsAlike(codec, Lines(Joined(some))[k])
    ensures FeedAll("", some, line => PlainMessage(codec, line)) == FeedAll("", others, line => TrimmedMessage(codec, line))
    ensures BufferAfter("", some) == BufferAfter("", others)
  {
    var lines := Lines(Joined(some));
    forall k | 0 <= k < |lines| ensures TrimsAlike(codec, lines[k]) {
    }
    assert "" + Joined(some) == Joined(some) && "" + Joined(others) == Joined(others);
    ChunkingIsInvisible("", some, line => PlainMessage(codec, line));
    ChunkingIsInvisible("", others, line => TrimmedMessage(codec, line));
    CollectAlike(codec, lines);
  }
}
