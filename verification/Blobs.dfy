/**
 Binary content chunked over a shared append-only log, with a cache from
 content hash to reference. Other writers append to the same log between and
 after the chunks. The hash is a parameter.
 */
module Blobs {
  import opened Results
  import opened Sealing

  const CHUNK_BYTES: nat := 64 * 1024
  const MAX_BLOB_BYTES: nat := 64 * 1024 * 1024

  datatype BlobRef = BlobRef(id: string, size: nat, chunks: seq<nat>, contentType: Option<string>)

  datatype WriteError = TooBig(size: nat)

  datatype ReadError = WaitsFor(index: nat) | LongerThanDeclared | ShorterThanDeclared(size: nat) | WrongHash(actual: string)

  // ---------------------------------------------------------------------
  // Reading
  // ---------------------------------------------------------------------

  /** The first `n` chunks of a reference, joined, as long as they fit the declared size. */
  function Gather(log: seq<Bytes>, ref: BlobRef, n: nat): Result<Bytes, ReadError>
    requires n <= |ref.chunks|
  {
    if n == 0 then Ok([])
    else
      match Gather(log, ref, n - 1)
      case Err(e) => Err(e)
      case Ok(before) =>
        var index := ref.chunks[n - 1];
        if index >= |log| then Err(WaitsFor(index))
        else if |before| + |log[index]| > ref.size then Err(LongerThanDeclared)
        else Ok(before + log[index])
  }

  function Read(hash: Bytes -> string, log: seq<Bytes>, ref: BlobRef): Result<Bytes, ReadError> {
    match Gather(log, ref, |ref.chunks|)
    case Err(e) => Err(e)
    case Ok(content) =>
      if |content| != ref.size then Err(ShorterThanDeclared(|content|))
      else if hash(content) != ref.id then Err(WrongHash(hash(content)))
      else Ok(content)
  }

  /** Whatever the log and the reference say, only content of the declared size and hash is returned. */
  lemma ReadIsChecked(hash: Bytes -> string, log: seq<Bytes>, ref: BlobRef)
    ensures Read(hash, log, ref).Ok? ==>
              |Read(hash, log, ref).value| == ref.size && hash(Read(hash, log, ref).value) == ref.id
  {
  }

  /** The first `n` blocks a reference names, joined. */
  function Joined(log: seq<Bytes>, chunks: seq<nat>, n: nat): Bytes
    requires n <= |chunks| && forall k :: 0 <= k < n ==> chunks[k] < |log|
  {
    if n == 0 then [] else Joined(log, chunks, n - 1) + log[chunks[n - 1]]
  }

  predicate HeldBelow(log: seq<Bytes>, chunks: seq<nat>, n: nat)
    requires n <= |chunks|
  {
    forall k :: 0 <= k < n ==> chunks[k] < |log|
  }

  /** The first `n` chunks are in the log and fit the declared size together. */
  predicate FitsBelow(log: seq<Bytes>, ref: BlobRef, n: nat)
    requires n <= |ref.chunks|
  {
    HeldBelow(log, ref.chunks, n) && |Joined(log, ref.chunks, n)| <= ref.size
  }

  lemma {:induction false} GatherIff(log: seq<Bytes>, ref: BlobRef, n: nat)
    requires n <= |ref.chunks|
    ensures Gather(log, ref, n).Ok? <==> FitsBelow(log, ref, n)
    ensures Gather(log, ref, n).Ok? ==> Gather(log, ref, n).value == Joined(log, ref.chunks, n)
  {
    if n > 0 {
      GatherIff(log, ref, n - 1);
    }
  }

  /** A read returns the named blocks, joined, exactly if all are in the log and they have the declared size and hash. */
  lemma ReadIff(hash: Bytes -> string, log: seq<Bytes>, ref: BlobRef, content: Bytes)
    ensures Read(hash, log, ref) == Ok(content) <==>
              && HeldBelow(log, ref.chunks, |ref.chunks|) && Joined(log, ref.chunks, |ref.chunks|) == content
              && |content| == ref.size && hash(content) == ref.id
  {
    GatherIff(log, ref, |ref.chunks|);
  }

  /** The first chunk that is missing, or too long, is where a read stops. */
  predicate StopsAt(log: seq<Bytes>, ref: BlobRef, k: nat) {
    k < |ref.chunks| && FitsBelow(log, ref, k) && !FitsBelow(log, ref, k + 1)
  }

  ghost predicate StopsWith(log: seq<Bytes>, ref: BlobRef, e: ReadError) {
    exists k: nat :: StopsAt(log, ref, k) &&
      e == if ref.chunks[k] >= |log| then WaitsFor(ref.chunks[k]) else LongerThanDeclared
  }

  lemma {:induction false} GatherFailsIff(log: seq<Bytes>, ref: BlobRef, n: nat, e: ReadError)
    requires n <= |ref.chunks|
    ensures Gather(log, ref, n) == Err(e) <==>
              exists k: nat :: k < n && StopsAt(log, ref, k) &&
                e == if ref.chunks[k] >= |log| then WaitsFor(ref.chunks[k]) else LongerThanDeclared
  {
    if n > 0 {
      GatherFailsIff(log, ref, n - 1, e);
      GatherIff(log, ref, n - 1);
      GatherIff(log, ref, n);
      if Gather(log, ref, n) == Err(e) && Gather(log, ref, n - 1).Ok? {
        assert StopsAt(log, ref, n - 1);
      }
    }
  }

  /** Which error a read reports: where it stops, or what is wrong with all of it. */
  lemma ReadFailsIff(hash: Bytes -> string, log: seq<Bytes>, ref: BlobRef, e: ReadError)
    ensures var n := |ref.chunks|;
            Read(hash, log, ref) == Err(e) <==>
              || StopsWith(log, ref, e)
              || (FitsBelow(log, ref, n) &&
                    var all := Joined(log, ref.chunks, n);
                    if |all| < ref.size then e == ShorterThanDeclared(|all|)
                    else hash(all) != ref.id && e == WrongHash(hash(all)))
  {
    GatherIff(log, ref, |ref.chunks|);
    GatherFailsIff(log, ref, |ref.chunks|, e);
  }

  lemma {:induction false} GatherIsStable(log: seq<Bytes>, more: seq<Bytes>, ref: BlobRef, n: nat)
    requires n <= |ref.chunks| && Gather(log, ref, n).Ok?
    ensures Gather(log + more, ref, n) == Gather(log, ref, n)
  {
    if n > 0 {
      GatherIsStable(log, more, ref, n - 1);
    }
  }

  /** What reads today reads the same after any further appends. */
  lemma ReadIsStable(hash: Bytes -> string, log: seq<Bytes>, more: seq<Bytes>, ref: BlobRef)
    requires Read(hash, log, ref).Ok?
    ensures Read(hash, log + more, ref) == Read(hash, log, ref)
  {
    GatherIsStable(log, more, ref, |ref.chunks|);
  }

  // ---------------------------------------------------------------------
  // Writing
  // ---------------------------------------------------------------------

  function ChunkCount(size: nat): nat {
    (size + CHUNK_BYTES - 1) / CHUNK_BYTES
  }

  function ChunkEnd(size: nat, offset: nat): nat {
    if offset + CHUNK_BYTES < size then offset + CHUNK_BYTES else size
  }

  predicate Increasing(indices: seq<nat>) {
    forall i, j :: 0 <= i < j < |indices| ==> indices[i] < indices[j]
  }

  /** Every cached reference reads back to content of its own hash. */
  ghost predicate CacheAgrees(hash: Bytes -> string, log: seq<Bytes>, seen: map<string, BlobRef>) {
    forall id :: id in seen ==> seen[id].id == id && Read(hash, log, seen[id]).Ok?
  }

  lemma CacheOutlivesAppends(hash: Bytes -> string, log: seq<Bytes>, more: seq<Bytes>, seen: map<string, BlobRef>)
    requires CacheAgrees(hash, log, seen)
    ensures CacheAgrees(hash, log + more, seen)
    ensures forall id :: id in seen ==> Read(hash, log + more, seen[id]) == Read(hash, log, seen[id])
  {
    forall id | id in seen ensures Read(hash, log + more, seen[id]) == Read(hash, log, seen[id]) {
      ReadIsStable(hash, log, more, seen[id]);
    }
  }

  /** What the log gains: before each chunk whatever others append, then the chunk. */
  function Gained(content: Bytes, others: seq<seq<Bytes>>, k: nat): seq<Bytes>
    requires k * CHUNK_BYTES < |content| + CHUNK_BYTES
  {
    if k == 0 then []
    else
      var offset := (k - 1) * CHUNK_BYTES;
      Gained(content, others, k - 1)
        + (if k - 1 < |others| then others[k - 1] else [])
        + [content[offset..ChunkEnd(|content|, offset)]]
  }

  /** How much of the content is written once the loop reaches `offset`. */
  function Covered(size: nat, offset: nat): nat {
    if offset < size then offset else size
  }

  lemma GainedStep(content: Bytes, others: seq<seq<Bytes>>, k: nat, log: seq<Bytes>)
    requires (k + 1) * CHUNK_BYTES < |content| + CHUNK_BYTES
    ensures var offset := k * CHUNK_BYTES;
            log + Gained(content, others, k + 1) ==
              log + Gained(content, others, k)
                + (if k < |others| then others[k] else [])
                + [content[offset..ChunkEnd(|content|, offset)]]
  {
  }

  lemma NothingWritten(content: Bytes, others: seq<seq<Bytes>>, log: seq<Bytes>, empty: BlobRef)
    requires empty.chunks == []
    ensures log + Gained(content, others, 0) == log
    ensures Gather(log, empty, 0) == Ok(content[..Covered(|content|, 0)])
  {
    assert content[..0] == [] && log + [] == log;
  }

  lemma NextOffset(k: nat)
    ensures (k + 1) * CHUNK_BYTES == k * CHUNK_BYTES + CHUNK_BYTES
  {
  }

  lemma CountCovers(size: nat, k: nat)
    ensures k * CHUNK_BYTES < size ==> k < ChunkCount(size) && (k + 1) * CHUNK_BYTES < size + CHUNK_BYTES
    ensures k * CHUNK_BYTES >= size && k * CHUNK_BYTES < size + CHUNK_BYTES ==> k == ChunkCount(size)
  {
  }

  /** One more chunk, appended after whatever others appended, is gathered after the ones before it. */
  lemma GatherNext(log: seq<Bytes>, between: seq<Bytes>, chunk: Bytes, ref: BlobRef, indices: seq<nat>, next: BlobRef)
    requires ref.chunks == indices && Gather(log, ref, |indices|).Ok?
    requires next == ref.(chunks := indices + [|log| + |between|])
    requires |Gather(log, ref, |indices|).value| + |chunk| <= ref.size
    ensures Gather(log + between + [chunk], next, |indices| + 1) ==
              Ok(Gather(log, ref, |indices|).value + chunk)
  {
    var after := log + between + [chunk];
    SamePrefixSameGather(log, ref, next, |indices|);
    GatherIsStable(log, between + [chunk], next, |indices|);
    assert log + (between + [chunk]) == after;
    assert after[|log| + |between|] == chunk;
  }

  lemma {:induction false} SamePrefixSameGather(log: seq<Bytes>, a: BlobRef, b: BlobRef, n: nat)
    requires n <= |a.chunks| && n <= |b.chunks| && a.chunks[..n] == b.chunks[..n] && a.size == b.size
    ensures Gather(log, a, n) == Gather(log, b, n)
  {
    if n > 0 {
      assert a.chunks[..n][n - 1] == b.chunks[..n][n - 1];
      assert a.chunks[..n - 1] == a.chunks[..n][..n - 1] && b.chunks[..n - 1] == b.chunks[..n][..n - 1];
      SamePrefixSameGather(log, a, b, n - 1);
    }
  }

  /** `out.set(chunk, offset)`. */
  method Fill(out: array<Byte>, offset: nat, chunk: Bytes)
    requires offset + |chunk| <= out.Length
    modifies out
    ensures out[..offset + |chunk|] == old(out[..offset]) + chunk
  {
    ghost var filled := out[..offset];
    for i := 0 to |chunk|
      invariant out[..offset + i] == filled + chunk[..i]
    {
      out[offset + i] := chunk[i];
      assert out[..offset + i + 1] == out[..offset + i] + [chunk[i]];
    }
    assert chunk[..|chunk|] == chunk;
  }

  class BlobStore {
    const hash: Bytes -> string
    var log: seq<Bytes>                // the plaintext blocks of the blob log
    var seen: map<string, BlobRef>

    ghost predicate Valid()
      reads this
    {
      CacheAgrees(hash, log, seen)
    }

    constructor (hash: Bytes -> string, log: seq<Bytes>)
      ensures Valid() && this.hash == hash && this.log == log && seen == map[]
    {
      this.hash := hash;
      this.log := log;
      seen := map[];
    }

    method Append(block: Bytes) returns (length: nat)
      requires Valid()
      modifies this`log
      ensures Valid() && log == old(log) + [block] && length == |log|
    {
      CacheOutlivesAppends(hash, log, [block], seen);
      log := log + [block];
      length := |log|;
    }

    /** Other writers, between two of our appends. */
    method OthersAppend(blocks: seq<Bytes>)
      requires Valid()
      modifies this`log
      ensures Valid() && log == old(log) + blocks
    {
      CacheOutlivesAppends(hash, log, blocks, seen);
      log := log + blocks;
    }

    /** Append the chunk that ends at `end`, after whatever other writers append first. */
    method AppendChunk(chunk: Bytes, between: seq<Bytes>, ref: BlobRef) returns (next: BlobRef)
      requires Valid()
      requires Gather(log, ref, |ref.chunks|).Ok?
      requires |Gather(log, ref, |ref.chunks|).value| + |chunk| <= ref.size
      modifies this`log
      ensures Valid() && log == old(log) + between + [chunk]
      ensures next == ref.(chunks := ref.chunks + [|log| - 1])
      ensures Gather(log, next, |next.chunks|) == Ok(Gather(old(log), ref, |ref.chunks|).value + chunk)
    {
      hide Gather, CacheAgrees;
      OthersAppend(between);
      var length := Append(chunk);
      next := ref.(chunks := ref.chunks + [length - 1]);
      GatherNext(old(log), between, chunk, ref, ref.chunks, next);
    }

    /** The chunking loop: `draft` names the chunks written so far. */
    method WriteChunks(content: Bytes, others: seq<seq<Bytes>>, empty: BlobRef) returns (draft: BlobRef)
      requires Valid() && empty.chunks == [] && empty.size == |content|
      modifies this`log
      ensures Valid() && log == old(log) + Gained(content, others, ChunkCount(|content|))
      ensures draft == empty.(chunks := draft.chunks)
      ensures |draft.chunks| == ChunkCount(|content|) && Increasing(draft.chunks)
      ensures forall k :: 0 <= k < |draft.chunks| ==> |old(log)| <= draft.chunks[k] < |log|
      ensures Gather(log, draft, |draft.chunks|) == Ok(content)
    {
      hide CacheAgrees, Gather, Gained, ChunkCount;
      draft := empty;
      var offset: nat := 0;
      NothingWritten(content, others, old(log), empty);
      while offset < |content|
        invariant Valid()
        invariant offset == |draft.chunks| * CHUNK_BYTES < |content| + CHUNK_BYTES
        invariant draft == empty.(chunks := draft.chunks) && Increasing(draft.chunks)
        invariant |old(log)| <= |log|
        invariant forall i :: 0 <= i < |draft.chunks| ==> |old(log)| <= draft.chunks[i] < |log|
        invariant log == old(log) + Gained(content, others, |draft.chunks|)
        invariant Gather(log, draft, |draft.chunks|) == Ok(content[..Covered(|content|, offset)])
      {
        var k := |draft.chunks|;
        CountCovers(|content|, k);
        var end := ChunkEnd(|content|, offset);
        var between := if k < |others| then others[k] else [];
        ghost var before := log;
        draft := AppendChunk(content[offset..end], between, draft);
        assert content[..offset] + content[offset..end] == content[..end];
        GainedStep(content, others, k, old(log));
        NextOffset(k);
        offset := offset + CHUNK_BYTES;
      }
      CountCovers(|content|, |draft.chunks|);
      assert content[..|content|] == content;
    }

    /** `others[k]` is what other writers append just before the `k`-th chunk. */
    method WriteBlob(content: Bytes, contentType: Option<string>, others: seq<seq<Bytes>>)
      returns (result: Result<BlobRef, WriteError>)
      requires Valid()
      modifies this
      ensures Valid()
      ensures result.Err? <==> |content| > MAX_BLOB_BYTES
      ensures result.Err? ==> result.error == TooBig(|content|) && log == old(log) && seen == old(seen)
      ensures result.Ok? && hash(content) in old(seen) ==>
                result.value == old(seen)[hash(content)] && log == old(log) && seen == old(seen)
      ensures result.Ok? && hash(content) !in old(seen) ==>
                && log == old(log) + Gained(content, others, ChunkCount(|content|))
                && seen == old(seen)[hash(content) := result.value]
                && |result.value.chunks| == ChunkCount(|content|) && Increasing(result.value.chunks)
                && (forall k :: 0 <= k < |result.value.chunks| ==> |old(log)| <= result.value.chunks[k] < |log|)
                && result.value.size == |content| && result.value.contentType == contentType
                && Read(hash, log, result.value) == Ok(content)
      ensures result.Ok? ==>
                && result.value.id == hash(content)
                && Read(hash, log, result.value).Ok?
                && hash(Read(hash, log, result.value).value) == hash(content)
    {
      hide Gather, Gained, Increasing, ChunkCount;
      if |content| > MAX_BLOB_BYTES {
        return Err(TooBig(|content|));
      }
      var id := hash(content);
      if id in seen {
        ReadIsChecked(hash, log, seen[id]);
        return Ok(seen[id]);
      }
      var ref := WriteChunks(content, others, BlobRef(id, |content|, [], contentType));
      seen := seen[id := ref];
      return Ok(ref);
    }

    method ReadBlob(ref: BlobRef) returns (result: Result<Bytes, ReadError>)
      ensures result == Read(hash, log, ref)
    {
      var out := new Byte[ref.size](_ => 0);
      var offset: nat := 0;
      assert out[..0] == [];
      for k := 0 to |ref.chunks|
        invariant offset <= out.Length
        invariant Gather(log, ref, k) == Ok(out[..offset])
      {
        var index := ref.chunks[k];
        if index >= |log| {
          FailsFrom(log, ref, k + 1);
          return Err(WaitsFor(index));
        }
        var chunk := log[index];
        if offset + |chunk| > ref.size {
          FailsFrom(log, ref, k + 1);
          return Err(LongerThanDeclared);
        }
        Fill(out, offset, chunk);
        offset := offset + |chunk|;
      }
      if offset != ref.size {
        return Err(ShorterThanDeclared(offset));
      }
      var content := out[..];
      assert content == out[..offset];
      var actual := hash(content);
      if actual != ref.id {
        return Err(WrongHash(actual));
      }
      return Ok(content);
    }
  }

  lemma {:induction false} FailsFrom(log: seq<Bytes>, ref: BlobRef, n: nat)
    requires n <= |ref.chunks| && Gather(log, ref, n).Err?
    ensures Gather(log, ref, |ref.chunks|) == Gather(log, ref, n)
    decreases |ref.chunks| - n
  {
    if n < |ref.chunks| {
      FailsFrom(log, ref, n + 1);
    }
  }

  /**
   A reference that was just made, or found in the cache, gives its content back
   through any later appends, provided no other content shares the hash.
   */
  lemma BlobComesBack(hash: Bytes -> string, log: seq<Bytes>, more: seq<Bytes>, ref: BlobRef, content: Bytes)
    requires ref.id == hash(content) && Read(hash, log, ref).Ok?
    requires forall other: Bytes :: hash(other) == hash(content) ==> other == content
    ensures Read(hash, log + more, ref) == Ok(content)
  {
    ReadIsChecked(hash, log, ref);
    ReadIsStable(hash, log, more, ref);
  }

  // ---------------------------------------------------------------------
  // Several writers at once
  // ---------------------------------------------------------------------

  /** One `writeBlob` suspended between two of its appends. */
  datatype Writer = Writer(content: Bytes, draft: BlobRef)

  /** A `writeBlob` that returned: what it was given and what it gave. */
  datatype Returned = Returned(content: Bytes, ref: BlobRef)

  /** A session: the log, the cache all its writers share, and the writers. */
  datatype Session = Session(log: seq<Bytes>, seen: map<string, BlobRef>, writers: map<nat, Writer>, returned: seq<Returned>)

  datatype Step =
    | Start(w: nat, content: Bytes, contentType: Option<string>)  // size check, hash, cache lookup
    | Chunk(w: nat)                                               // the next append resolves
    | Finish(w: nat)                                              // the loop is over: `seen.set`
    | Others(blocks: seq<Bytes>)                                  // any other appends

  predicate Enabled(s: Session, e: Step) {
    match e
    case Start(w, content, _) => w !in s.writers && |content| <= MAX_BLOB_BYTES
    case Chunk(w) => w in s.writers && |s.writers[w].draft.chunks| * CHUNK_BYTES < |s.writers[w].content|
    case Finish(w) => w in s.writers && |s.writers[w].draft.chunks| * CHUNK_BYTES >= |s.writers[w].content|
    case Others(_) => true
  }

  function Extended(log: seq<Bytes>, writer: Writer): (out: (seq<Bytes>, Writer))
    requires |writer.draft.chunks| * CHUNK_BYTES < |writer.content|
  {
    var offset := |writer.draft.chunks| * CHUNK_BYTES;
    (log + [writer.content[offset..ChunkEnd(|writer.content|, offset)]],
     writer.(draft := writer.draft.(chunks := writer.draft.chunks + [|log|])))
  }

  function Next(hash: Bytes -> string, s: Session, e: Step): Session
    requires Enabled(s, e)
  {
    match e
    case Start(w, content, contentType) =>
      if hash(content) in s.seen then s.(returned := s.returned + [Returned(content, s.seen[hash(content)])])
      else s.(writers := s.writers[w := Writer(content, BlobRef(hash(content), |content|, [], contentType))])
    case Chunk(w) =>
      var (log, writer) := Extended(s.log, s.writers[w]);
      s.(log := log, writers := s.writers[w := writer])
    case Finish(w) =>
      var writer := s.writers[w];
      s.(seen := s.seen[writer.draft.id := writer.draft], writers := s.writers - {w},
         returned := s.returned + [Returned(writer.content, writer.draft)])
    case Others(blocks) => s.(log := s.log + blocks)
  }

  /** What a suspended writer has appended so far is the beginning of its content. */
  ghost predicate Drafted(hash: Bytes -> string, log: seq<Bytes>, writer: Writer) {
    var offset := |writer.draft.chunks| * CHUNK_BYTES;
    && writer.draft.id == hash(writer.content) && writer.draft.size == |writer.content|
    && offset < |writer.content| + CHUNK_BYTES
    && Increasing(writer.draft.chunks)
    && (forall k :: 0 <= k < |writer.draft.chunks| ==> writer.draft.chunks[k] < |log|)
    && Gather(log, writer.draft, |writer.draft.chunks|) == Ok(writer.content[..Covered(|writer.content|, offset)])
  }

  /** A returned reference names content of the hash that was asked for, and reads. */
  ghost predicate ReadsBack(hash: Bytes -> string, log: seq<Bytes>, r: Returned) {
    r.ref.id == hash(r.content) && Read(hash, log, r.ref).Ok?
  }

  ghost predicate SessionInv(hash: Bytes -> string, s: Session) {
    && CacheAgrees(hash, s.log, s.seen)
    && (forall w :: w in s.writers ==> Drafted(hash, s.log, s.writers[w]))
    && (forall k :: 0 <= k < |s.returned| ==> ReadsBack(hash, s.log, s.returned[k]))
  }

  lemma DraftOutlivesAppends(hash: Bytes -> string, log: seq<Bytes>, more: seq<Bytes>, writer: Writer)
    requires Drafted(hash, log, writer)
    ensures Drafted(hash, log + more, writer)
  {
    hide Gather, Increasing;
    GatherIsStable(log, more, writer.draft, |writer.draft.chunks|);
  }

  lemma ReturnedOutlivesAppends(hash: Bytes -> string, log: seq<Bytes>, more: seq<Bytes>, r: Returned)
    requires ReadsBack(hash, log, r)
    ensures ReadsBack(hash, log + more, r)
  {
    hide Read;
    ReadIsStable(hash, log, more, r.ref);
  }

  lemma AppendsKeepSession(hash: Bytes -> string, s: Session, more: seq<Bytes>)
    requires SessionInv(hash, s)
    ensures SessionInv(hash, s.(log := s.log + more))
  {
    hide Drafted, ReadsBack, Read, CacheAgrees;
    CacheOutlivesAppends(hash, s.log, more, s.seen);
    forall w | w in s.writers ensures Drafted(hash, s.log + more, s.writers[w]) {
      DraftOutlivesAppends(hash, s.log, more, s.writers[w]);
    }
    forall k | 0 <= k < |s.returned| ensures ReadsBack(hash, s.log + more, s.returned[k]) {
      ReturnedOutlivesAppends(hash, s.log, more, s.returned[k]);
    }
  }

  lemma ChunkDrafts(hash: Bytes -> string, log: seq<Bytes>, writer: Writer)
    requires Drafted(hash, log, writer) && |writer.draft.chunks| * CHUNK_BYTES < |writer.content|
    ensures Drafted(hash, Extended(log, writer).0, Extended(log, writer).1)
  {
    hide Gather, ChunkCount;
    var k := |writer.draft.chunks|;
    var offset := k * CHUNK_BYTES;
    var end := ChunkEnd(|writer.content|, offset);
    var next := Extended(log, writer).1.draft;
    CountCovers(|writer.content|, k);
    NextOffset(k);
    assert writer.content[..offset] + writer.content[offset..end] == writer.content[..end];
    assert log + [] == log;
    GatherNext(log, [], writer.content[offset..end], writer.draft, writer.draft.chunks, next);
  }

  /** A writer whose loop is over has a reference that reads back to its content. */
  lemma FinishedReads(hash: Bytes -> string, log: seq<Bytes>, writer: Writer)
    requires Drafted(hash, log, writer) && |writer.draft.chunks| * CHUNK_BYTES >= |writer.content|
    ensures Read(hash, log, writer.draft) == Ok(writer.content) && |writer.draft.chunks| == ChunkCount(|writer.content|)
  {
    hide Gather;
    CountCovers(|writer.content|, |writer.draft.chunks|);
    assert writer.content[..|writer.content|] == writer.content;
  }

  lemma StepKeepsSession(hash: Bytes -> string, s: Session, e: Step)
    requires SessionInv(hash, s) && Enabled(s, e)
    ensures SessionInv(hash, Next(hash, s, e))
  {
    hide Drafted, Read;
    match e {
      case Start(w, content, contentType) =>
        NothingDrafted(hash, s.log, content, contentType);
      case Chunk(w) =>
        var (log, writer) := Extended(s.log, s.writers[w]);
        AppendsKeepSession(hash, s, [log[|s.log|]]);
        ChunkDrafts(hash, s.log, s.writers[w]);
      case Finish(w) =>
        FinishedReads(hash, s.log, s.writers[w]);
        DraftKnowsItsHash(hash, s.log, s.writers[w]);
      case Others(blocks) => AppendsKeepSession(hash, s, blocks);
    }
  }

  lemma NothingDrafted(hash: Bytes -> string, log: seq<Bytes>, content: Bytes, contentType: Option<string>)
    ensures Drafted(hash, log, Writer(content, BlobRef(hash(content), |content|, [], contentType)))
  {
    assert content[..0] == [];
  }

  lemma DraftKnowsItsHash(hash: Bytes -> string, log: seq<Bytes>, writer: Writer)
    requires Drafted(hash, log, writer)
    ensures writer.draft.id == hash(writer.content)
  {
  }

  predicate Runs(hash: Bytes -> string, s: Session, steps: seq<Step>)
    decreases |steps|
  {
    steps == [] || (Enabled(s, steps[0]) && Runs(hash, Next(hash, s, steps[0]), steps[1..]))
  }

  function Run(hash: Bytes -> string, s: Session, steps: seq<Step>): Session
    requires Runs(hash, s, steps)
    decreases |steps|
  {
    if steps == [] then s else Run(hash, Next(hash, s, steps[0]), steps[1..])
  }

  lemma {:induction false} RunKeepsSession(hash: Bytes -> string, s: Session, steps: seq<Step>)
    requires SessionInv(hash, s) && Runs(hash, s, steps)
    ensures SessionInv(hash, Run(hash, s, steps))
    decreases |steps|
  {
    hide SessionInv, Next;
    if steps != [] {
      StepKeepsSession(hash, s, steps[0]);
      RunKeepsSession(hash, Next(hash, s, steps[0]), steps[1..]);
    }
  }

  /**
   Any number of writers on one cache, their appends, finishes and those of
   others in any order: every cached reference reads back to content of its
   hash, and absent collisions every `writeBlob` that returned gave a reference
   to exactly what it was given.
   */
  lemma InterleavedWritersAgree(hash: Bytes -> string, log: seq<Bytes>, steps: seq<Step>)
    requires Runs(hash, Session(log, map[], map[], []), steps)
    ensures var s := Run(hash, Session(log, map[], map[], []), steps);
            && CacheAgrees(hash, s.log, s.seen)
            && forall k :: 0 <= k < |s.returned| ==>
                 && ReadsBack(hash, s.log, s.returned[k])
                 && ((forall a, b :: hash(a) == hash(b) ==> a == b) ==>
                       Read(hash, s.log, s.returned[k].ref) == Ok(s.returned[k].content))
  {
    RunKeepsSession(hash, Session(log, map[], map[], []), steps);
    hide Run, Runs;
    var s := Run(hash, Session(log, map[], map[], []), steps);
    forall k | 0 <= k < |s.returned|
      ensures ReadsBack(hash, s.log, s.returned[k])
      ensures (forall a, b :: hash(a) == hash(b) ==> a == b) ==>
                Read(hash, s.log, s.returned[k].ref) == Ok(s.returned[k].content)
    {
      ReadIsChecked(hash, s.log, s.returned[k].ref);
    }
  }
}
