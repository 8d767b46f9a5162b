/**
 The workspace above the transport form: a log sealed under the workspace key,
 `write`, `entries`, `flushStore`, and what a copied folder yields on a device
 that has never met the writer.
 */
module WorkspaceFolder {
  import opened Results
  import opened Strings
  import opened SeqNames
  import opened Sealing
  import opened Replicas
  import opened Transport
  import opened FlushOrder
  import opened FlushRound
  import opened FlushExact
  import opened TransportHistory

  // ---------------------------------------------------------------------
  // encryptedLog
  // ---------------------------------------------------------------------

  /** `get` returns a block that is held, and otherwise waits for a peer to supply it. */
  datatype Fetch<+T> = Got(value: T) | Waits | Fails

  function AppendTo(r: Replica, block: Block): Replica {
    Replica(r.length + 1, r.have[r.length := block])
  }

  class RawLog {
    var replica: Replica

    constructor (replica: Replica)
      ensures this.replica == replica
    {
      this.replica := replica;
    }

    method Append(block: Block) returns (length: nat)
      modifies this
      ensures replica == AppendTo(old(replica), block) && length == replica.length
    {
      replica := Replica(replica.length + 1, replica.have[replica.length := block]);
      length := replica.length;
    }

    method Get(index: nat) returns (r: Fetch<Block>)
      ensures r == if index in replica.have then Got(replica.have[index]) else Waits
    {
      if index in replica.have {
        r := Got(replica.have[index]);
      } else {
        r := Waits;
      }
    }
  }

  /** What a holder of `key` reads at `index`. */
  function PlainAt(r: Replica, key: Bytes, index: nat): Fetch<Bytes> {
    if index !in r.have then Waits
    else
      match Open(r.have[index], key)
      case Some(plain) => Got(plain)
      case None => Fails
  }

  class EncryptedLog {
    const log: RawLog
    const key: Bytes

    constructor (log: RawLog, key: Bytes)
      requires |key| == SEAL_KEY_BYTES
      ensures this.log == log && this.key == key
    {
      this.log := log;
      this.key := key;
    }

    method Append(plain: Bytes, nonce: nat) returns (length: nat)
      modifies log
      ensures log.replica == AppendTo(old(log.replica), Seal(plain, key, nonce)) && length == log.replica.length
    {
      length := log.Append(Seal(plain, key, nonce));
    }

    method Get(index: nat) returns (r: Fetch<Bytes>)
      ensures r == PlainAt(log.replica, key, index)
    {
      var sealed := log.Get(index);
      match sealed {
        case Waits => r := Waits;
        case Fails => r := Fails;
        case Got(block) =>
          match Open(block, key) {
            case Some(plain) => r := Got(plain);
            case None => r := Fails;
          }
      }
    }
  }

  /** `encryptedLog(log, key)`, which refuses a key of the wrong size. */
  method WrapLog(log: RawLog, key: Bytes) returns (wrapped: EncryptedLog?)
    ensures wrapped == null <==> |key| != SEAL_KEY_BYTES
    ensures wrapped != null ==> wrapped.log == log && wrapped.key == key
  {
    if |key| != SEAL_KEY_BYTES {
      wrapped := null;
    } else {
      wrapped := new EncryptedLog(log, key);
    }
  }

  /** Appending through the wrapper appends to the plaintext view: the new entry reads back, the others are as before. */
  lemma WrapperRefinesPlainLog(r: Replica, key: Bytes, plain: Bytes, nonce: nat, index: nat)
    requires forall i :: i in r.have ==> i < r.length
    ensures PlainAt(AppendTo(r, Seal(plain, key, nonce)), key, index) ==
              if index == r.length then Got(plain) else PlainAt(r, key, index)
  {
  }

  // ---------------------------------------------------------------------
  // entries
  // ---------------------------------------------------------------------

  datatype Entries = Entries(plains: seq<Bytes>) | WaitsAt(index: nat) | FailsAt(index: nat)

  /** Reading the first `n` entries in order, stopping at the first that waits or fails. */
  function ReadEntries(r: Replica, key: Bytes, n: nat): Entries {
    if n == 0 then Entries([])
    else
      var before := ReadEntries(r, key, n - 1);
      if !before.Entries? then before
      else
        match PlainAt(r, key, n - 1)
        case Got(plain) => Entries(before.plains + [plain])
        case Waits => WaitsAt(n - 1)
        case Fails => FailsAt(n - 1)
  }

  /** How far `entries()` reads: a local-only log must not wait for a block nobody can supply. */
  function Readable(r: Replica, replicates: bool): nat {
    if replicates then r.length else ContiguousLength(r)
  }

  method ReadAll(log: EncryptedLog, replicates: bool) returns (result: Entries)
    ensures result == ReadEntries(log.log.replica, log.key, Readable(log.log.replica, replicates))
  {
    var readable := Readable(log.log.replica, replicates);
    var out: seq<Bytes> := [];
    for i := 0 to readable
      invariant ReadEntries(log.log.replica, log.key, i) == Entries(out)
    {
      var r := log.Get(i);
      match r {
        case Got(plain) =>
          out := out + [plain];
        case Waits =>
          StopsAt(log.log.replica, log.key, i + 1, readable);
          return WaitsAt(i);
        case Fails =>
          StopsAt(log.log.replica, log.key, i + 1, readable);
          return FailsAt(i);
      }
    }
    return Entries(out);
  }

  lemma {:induction false} StopsAt(r: Replica, key: Bytes, m: nat, n: nat)
    requires m <= n && !ReadEntries(r, key, m).Entries?
    ensures ReadEntries(r, key, n) == ReadEntries(r, key, m)
    decreases n
  {
    if m < n {
      StopsAt(r, key, m, n - 1);
    }
  }

  /** A read waits exactly when it goes past the contiguous prefix of a log it can open. */
  lemma {:induction false} WaitsIff(r: Replica, key: Bytes, n: nat)
    requires forall i :: i in r.have ==> Open(r.have[i], key).Some?
    ensures ReadEntries(r, key, n).WaitsAt? <==> !HoldsBelow(r, n)
    ensures !ReadEntries(r, key, n).FailsAt?
  {
    if n > 0 {
      WaitsIff(r, key, n - 1);
    }
  }

  /** A local-only workspace never waits, whatever its log holds. */
  lemma LocalOnlyNeverWaits(r: Replica, key: Bytes)
    ensures !ReadEntries(r, key, Readable(r, false)).WaitsAt?
  {
    ContiguousIsHeld(r, 0);
    HeldNeverWaits(r, key, ContiguousLength(r));
  }

  lemma {:induction false} HeldNeverWaits(r: Replica, key: Bytes, n: nat)
    requires HoldsBelow(r, n)
    ensures !ReadEntries(r, key, n).WaitsAt?
  {
    if n > 0 {
      HeldNeverWaits(r, key, n - 1);
    }
  }

  // ---------------------------------------------------------------------
  // What a read yields
  // ---------------------------------------------------------------------

  /** `block` is what some nonce makes of `plain` under `key`. */
  ghost predicate SealOf(block: Block, key: Bytes, plain: Bytes) {
    exists nonce: nat :: block == Seal(plain, key, nonce)
  }

  ghost predicate SealedUnder(block: Block, key: Bytes) {
    exists plain :: SealOf(block, key, plain)
  }

  ghost predicate HeldAs(r: Replica, key: Bytes, i: nat, plain: Bytes) {
    i in r.have && SealOf(r.have[i], key, plain)
  }

  ghost predicate ReadsBelow(r: Replica, key: Bytes, n: nat) {
    forall i: nat :: i < n ==> i in r.have && SealedUnder(r.have[i], key)
  }

  lemma OpensIffSealed(block: Block, key: Bytes)
    ensures forall plain :: Open(block, key) == Some(plain) <==> SealOf(block, key, plain)
    ensures Open(block, key).Some? <==> SealedUnder(block, key)
  {
    forall plain ensures Open(block, key) == Some(plain) <==> SealOf(block, key, plain) {
      if Open(block, key) == Some(plain) {
        assert block == Seal(plain, key, block.nonce);
      }
    }
    if Open(block, key).Some? {
      assert SealOf(block, key, Open(block, key).value);
    }
  }

  /** The entries come back when every one of them is held as a seal under this key, and they are what was sealed. */
  lemma {:induction false} ReadsIff(r: Replica, key: Bytes, n: nat, plains: seq<Bytes>)
    ensures ReadEntries(r, key, n) == Entries(plains) <==>
              |plains| == n && forall i: nat :: i < n ==> HeldAs(r, key, i, plains[i])
  {
    hide SealOf;
    if n > 0 {
      if n - 1 in r.have {
        OpensIffSealed(r.have[n - 1], key);
      }
      if |plains| == n {
        ReadsIff(r, key, n - 1, plains[..n - 1]);
        assert plains == plains[..n - 1] + [plains[n - 1]];
      }
      if ReadEntries(r, key, n) == Entries(plains) {
        ReadsIff(r, key, n - 1, ReadEntries(r, key, n - 1).plains);
      }
    }
  }

  lemma {:induction false} ReadsWhenSealed(r: Replica, key: Bytes, n: nat)
    ensures ReadEntries(r, key, n).Entries? <==> ReadsBelow(r, key, n)
  {
    hide SealedUnder;
    if n > 0 {
      ReadsWhenSealed(r, key, n - 1);
      if n - 1 in r.have {
        OpensIffSealed(r.have[n - 1], key);
      }
    }
  }

  /** A read waits at the first block that is not held, if every block before it opens. */
  lemma {:induction false} WaitsAtIff(r: Replica, key: Bytes, n: nat, i: nat)
    ensures ReadEntries(r, key, n) == WaitsAt(i) <==> i < n && i !in r.have && ReadsBelow(r, key, i)
  {
    hide SealedUnder;
    if n > 0 {
      WaitsAtIff(r, key, n - 1, i);
      ReadsWhenSealed(r, key, n - 1);
    }
  }

  /** A read fails at the first held block that is no seal under this key: a wrong key, or tampering. */
  lemma {:induction false} FailsAtIff(r: Replica, key: Bytes, n: nat, i: nat)
    ensures ReadEntries(r, key, n) == FailsAt(i) <==>
              i < n && i in r.have && !SealedUnder(r.have[i], key) && ReadsBelow(r, key, i)
  {
    hide SealedUnder;
    if n > 0 {
      FailsAtIff(r, key, n - 1, i);
      ReadsWhenSealed(r, key, n - 1);
      if n - 1 in r.have {
        OpensIffSealed(r.have[n - 1], key);
      }
    }
  }

  /**
   A replicating workspace reads to the end of the log. It yields all of it when
   it holds every block sealed under its key, waits at the first block it does
   not hold, and fails at the first that is not a seal under its key.
   */
  lemma ReplicatingReadIff(r: Replica, key: Bytes)
    ensures ReadEntries(r, key, Readable(r, true)).Entries? <==> ReadsBelow(r, key, r.length)
    ensures forall i: nat :: ReadEntries(r, key, Readable(r, true)) == WaitsAt(i) <==>
              i < r.length && i !in r.have && ReadsBelow(r, key, i)
    ensures forall i: nat :: ReadEntries(r, key, Readable(r, true)) == FailsAt(i) <==>
              i < r.length && i in r.have && !SealedUnder(r.have[i], key) && ReadsBelow(r, key, i)
  {
    hide SealedUnder, ReadsBelow;
    ReadsWhenSealed(r, key, r.length);
    forall i: nat
      ensures ReadEntries(r, key, r.length) == WaitsAt(i) <==> i < r.length && i !in r.have && ReadsBelow(r, key, i)
    {
      WaitsAtIff(r, key, r.length, i);
    }
    forall i: nat
      ensures ReadEntries(r, key, r.length) == FailsAt(i) <==>
                i < r.length && i in r.have && !SealedUnder(r.have[i], key) && ReadsBelow(r, key, i)
    {
      FailsAtIff(r, key, r.length, i);
    }
  }

  /** On a log that opens, the replicating read waits exactly when a block is missing, at the end of the contiguous prefix. */
  lemma ReplicatingWaitsIff(r: Replica, key: Bytes)
    requires forall i :: i in r.have ==> SealedUnder(r.have[i], key)
    ensures ReadEntries(r, key, Readable(r, true)) == WaitsAt(ContiguousLength(r)) <==> !HoldsBelow(r, r.length)
    ensures ReadEntries(r, key, Readable(r, true)).Entries? <==> HoldsBelow(r, r.length)
  {
    hide SealedUnder;
    ContiguousIsHeld(r, 0);
    ContiguousCovers(r, r.length);
    ReplicatingReadIff(r, key);
  }

  /**
   A local-only workspace reads the blocks before the first gap: all of them
   when they open, and otherwise it fails at the first that does not.
   */
  lemma LocalOnlyReadIff(r: Replica, key: Bytes, n: nat)
    requires HoldsBelow(r, n) && n <= r.length && (n < r.length ==> n !in r.have)
    ensures Readable(r, false) == n
    ensures ReadEntries(r, key, Readable(r, false)).Entries? <==> ReadsBelow(r, key, n)
    ensures forall i: nat :: ReadEntries(r, key, Readable(r, false)) == FailsAt(i) <==>
              i < n && !SealedUnder(r.have[i], key) && ReadsBelow(r, key, i)
  {
    hide SealedUnder, ReadsBelow;
    ContiguousIsHeld(r, 0);
    ContiguousCovers(r, n);
    ReadsWhenSealed(r, key, n);
    forall i: nat
      ensures ReadEntries(r, key, n) == FailsAt(i) <==>
                i < n && i in r.have && !SealedUnder(r.have[i], key) && ReadsBelow(r, key, i)
    {
      FailsAtIff(r, key, n, i);
    }
  }

  // ---------------------------------------------------------------------
  // What the writer wrote
  // ---------------------------------------------------------------------

  /** The log is what `write` makes of these plaintexts under this key. */
  ghost predicate Wrote(log: seq<Block>, key: Bytes, plains: seq<Bytes>) {
    && |log| == |plains|
    && forall i :: 0 <= i < |log| ==> Open(log[i], key) == Some(plains[i])
  }

  lemma WriteExtends(log: seq<Block>, key: Bytes, plains: seq<Bytes>, plain: Bytes, nonce: nat)
    requires Wrote(log, key, plains)
    ensures Wrote(log + [Seal(plain, key, nonce)], key, plains + [plain])
  {
  }

  lemma {:induction false} PrefixReads(log: seq<Block>, key: Bytes, plains: seq<Bytes>, r: Replica, n: nat)
    requires Wrote(log, key, plains) && Genuine(log, r) && HoldsBelow(r, n) && n <= r.length
    ensures ReadEntries(r, key, n) == Entries(plains[..n])
  {
    if n > 0 {
      PrefixReads(log, key, plains, r, n - 1);
      assert plains[..n] == plains[..n - 1] + [plains[n - 1]];
    }
  }

  /** A replicating workspace that holds its log whole reads everything written to that length. */
  lemma WholeLogReads(log: seq<Block>, key: Bytes, plains: seq<Bytes>, r: Replica)
    requires Wrote(log, key, plains) && Genuine(log, r) && HoldsBelow(r, r.length)
    ensures ReadEntries(r, key, Readable(r, true)) == Entries(plains[..r.length])
  {
    PrefixReads(log, key, plains, r, r.length);
  }

  /**
   Folder copy, safety: open any copy of the folder with an empty store and no
   network. Whatever happened to the files, `entries()` is a prefix of what the
   writer wrote.
   */
  lemma AnyCopyYieldsAPrefix(log: seq<Block>, key: Bytes, plains: seq<Bytes>, copy: Dir)
    requires Wrote(log, key, plains)
    ensures var r := Hydrate(log, EMPTY, copy).replica;
            && ContiguousLength(r) <= |plains|
            && ReadEntries(r, key, Readable(r, false)) == Entries(plains[..ContiguousLength(r)])
  {
    HydrationIsSafe(log, EMPTY, copy);
    var r := Hydrate(log, EMPTY, copy).replica;
    ContiguousIsHeld(r, 0);
    PrefixReads(log, key, plains, r, ContiguousLength(r));
  }

  /** Folder copy, completeness: an intact copy yields every entry the last completed flush held without a gap. */
  lemma IntactCopyYieldsTheFlushedPrefix(w: World, events: seq<Event>, key: Bytes, plains: seq<Bytes>, copy: Dir)
    requires Initial(w) && PossibleAll(w, events)
    requires Wrote(ApplyAll(w, events).log, key, plains)
    requires AgreeBelow(ApplyAll(w, events).dir, copy, SEQ_LIMIT)
    ensures var v := ApplyAll(w, events);
            var r := Hydrate(v.log, EMPTY, copy).replica;
            && r == v.covered
            && ContiguousLength(v.covered) <= |plains|
            && ReadEntries(r, key, Readable(r, false)) == Entries(plains[..ContiguousLength(v.covered)])
  {
    InitiallyExact(w);
    FlushThenHydrateIsExact(w, events);
    IntactCopyIsExact(ApplyAll(w, events), copy);
    AnyCopyYieldsAPrefix(ApplyAll(w, events).log, key, plains, copy);
  }

  lemma {:induction false} ApplyAllSnoc(w: World, events: seq<Event>, e: Event)
    requires PossibleAll(w, events)
    requires Possible(ApplyAll(w, events), e) && Sound(ApplyAll(w, events), e)
    ensures PossibleAll(w, events + [e])
    ensures ApplyAll(w, events + [e]) == Apply(ApplyAll(w, events), e)
    decreases |events|
  {
    if events == [] {
      assert (events + [e])[1..] == [];
      assert ApplyAll(Apply(w, e), []) == Apply(w, e);
    } else {
      assert (events + [e])[1..] == events[1..] + [e];
      ApplyAllSnoc(Apply(w, events[0]), events[1..], e);
    }
  }

  lemma FlushCompletesCopy(u: World, steps: seq<Step>, key: Bytes, plains: seq<Bytes>, copy: Dir)
    requires FolderInv(u) && Possible(u, Flush(steps)) && Sound(u, Flush(steps)) && NoAppend(steps)
    requires Replicates(u) || ContiguousLength(Rebuilt(u)) >= |u.log|
    requires Wrote(u.log, key, plains)
    requires AgreeBelow(Apply(u, Flush(steps)).dir, copy, SEQ_LIMIT)
    ensures var v := Apply(u, Flush(steps));
            var r := Hydrate(v.log, EMPTY, copy).replica;
            v.log == u.log && ReadEntries(r, key, Readable(r, false)) == Entries(plains)
  {
    hide SeqName, TmpName, BodiesBelow, NamesBelow, Replay, AgreeBelow, Run, Runs, Complete, ReadEntries, NoAppend;
    var v := Apply(u, Flush(steps));
    if Replicates(u) {
      QuietRunKeepsLog(RoundStart(u), steps);
    }
    FlushKeepsExact(u, steps);
    IntactCopyIsExact(v, copy);
    AnyCopyYieldsAPrefix(v.log, key, plains, copy);
    if |u.log| > 0 {
      FlushCoversIff(u, steps);
      HeldIsKnown(v.log, v.covered, |v.log|);
      ContiguousCovers(v.covered, |v.log|);
    }
    assert plains[..|plains|] == plains;
  }

  /**
   The folder-copy theorem: after any history ending in a flush during which
   the writer stayed quiet, and which replicated or found no gap, every intact
   copy opened without a network yields every entry ever written.
   */
  lemma CopiedFolderIsComplete(
    w: World, events: seq<Event>, steps: seq<Step>, key: Bytes, plains: seq<Bytes>, copy: Dir)
    requires Initial(w) && PossibleAll(w, events)
    requires Possible(ApplyAll(w, events), Flush(steps)) && Sound(ApplyAll(w, events), Flush(steps))
    requires NoAppend(steps)
    requires Replicates(ApplyAll(w, events)) ||
             ContiguousLength(Rebuilt(ApplyAll(w, events))) >= |ApplyAll(w, events).log|
    requires Wrote(ApplyAll(w, events).log, key, plains)
    requires AgreeBelow(Apply(ApplyAll(w, events), Flush(steps)).dir, copy, SEQ_LIMIT)
    ensures var v := Apply(ApplyAll(w, events), Flush(steps));
            var r := Hydrate(v.log, EMPTY, copy).replica;
            ReadEntries(r, key, Readable(r, false)) == Entries(plains)
  {
    InitiallyExact(w);
    FlushThenHydrateIsExact(w, events);
    FlushCompletesCopy(ApplyAll(w, events), steps, key, plains, copy);
  }

  // ---------------------------------------------------------------------
  // From calls of `write` to a copied folder
  // ---------------------------------------------------------------------

  /** A call of `write`; the seal picks the nonce. */
  datatype Entry = Entry(plain: Bytes, nonce: nat)

  /** A step of a flush round, with the writer's appends as calls of `write`. */
  datatype Tick = Meanwhile(entry: Entry) | Proof(step: Step)

  /** What happens to a workspace and its folder, from the caller's side. */
  datatype Act = Save(entry: Entry) | FlushNow(ticks: seq<Tick>) | Lose | Foreign(name: string, body: FileBody)

  function SealEntry(key: Bytes, e: Entry): Block {
    Seal(e.plain, key, e.nonce)
  }

  function ToStep(key: Bytes, t: Tick): Step {
    match t
    case Meanwhile(e) => Append(SealEntry(key, e))
    case Proof(step) => step
  }

  function ToSteps(key: Bytes, ticks: seq<Tick>): (steps: seq<Step>)
    ensures |steps| == |ticks| && forall k :: 0 <= k < |ticks| ==> steps[k] == ToStep(key, ticks[k])
  {
    seq(|ticks|, k requires 0 <= k < |ticks| => ToStep(key, ticks[k]))
  }

  function ToEvent(key: Bytes, a: Act): Event {
    match a
    case Save(e) => Write(SealEntry(key, e))
    case FlushNow(ticks) => Flush(ToSteps(key, ticks))
    case Lose => LoseCapture
    case Foreign(name, body) => Clutter(name, body)
  }

  function ToEvents(key: Bytes, acts: seq<Act>): (events: seq<Event>)
    ensures |events| == |acts| && forall k :: 0 <= k < |acts| ==> events[k] == ToEvent(key, acts[k])
  {
    seq(|acts|, k requires 0 <= k < |acts| => ToEvent(key, acts[k]))
  }

  /** Proofs are not appends: the writer appends through `write` only. */
  predicate OnlyWrites(a: Act) {
    a.FlushNow? ==> forall k :: 0 <= k < |a.ticks| ==> a.ticks[k].Proof? ==> !a.ticks[k].step.Append?
  }

  function SavedIn(ticks: seq<Tick>): seq<Bytes> {
    if ticks == [] then []
    else (if ticks[0].Meanwhile? then [ticks[0].entry.plain] else []) + SavedIn(ticks[1..])
  }

  function SavedBy(a: Act): seq<Bytes> {
    match a
    case Save(e) => [e.plain]
    case FlushNow(ticks) => SavedIn(ticks)
    case _ => []
  }

  /** The plaintexts passed to `write`, in order, those written while a round ran included. */
  function Saved(acts: seq<Act>): seq<Bytes> {
    if acts == [] then [] else SavedBy(acts[0]) + Saved(acts[1..])
  }

  lemma {:induction false} RoundWrites(s: Round, key: Bytes, ticks: seq<Tick>, plains: seq<Bytes>)
    requires Runs(s, ToSteps(key, ticks)) && Wrote(s.log, key, plains)
    requires forall k :: 0 <= k < |ticks| ==> ticks[k].Proof? ==> !ticks[k].step.Append?
    ensures Wrote(Run(s, ToSteps(key, ticks)).log, key, plains + SavedIn(ticks))
    decreases |ticks|
  {
    hide Wrote, Verify, TmpName, SeqName;
    if ticks == [] {
      assert plains + SavedIn(ticks) == plains;
    } else {
      var steps, rest := ToSteps(key, ticks), ticks[1..];
      assert steps[1..] == ToSteps(key, rest);
      var more := if ticks[0].Meanwhile? then [ticks[0].entry.plain] else [];
      assert Wrote(Next(s, steps[0]).log, key, plains + more) by {
        if ticks[0].Meanwhile? {
          WriteExtends(s.log, key, plains, ticks[0].entry.plain, ticks[0].entry.nonce);
        } else {
          assert plains + more == plains;
        }
      }
      RoundWrites(Next(s, steps[0]), key, rest, plains + more);
      assert plains + (more + SavedIn(rest)) == (plains + more) + SavedIn(rest);
    }
  }

  lemma ActWrites(w: World, key: Bytes, a: Act, plains: seq<Bytes>)
    requires Possible(w, ToEvent(key, a)) && OnlyWrites(a) && Wrote(w.log, key, plains)
    ensures Wrote(Apply(w, ToEvent(key, a)).log, key, plains + SavedBy(a))
  {
    hide Wrote, Run, Runs, Complete, FirstFree, Rebuilt;
    match a {
      case Save(e) => WriteExtends(w.log, key, plains, e.plain, e.nonce);
      case FlushNow(ticks) =>
        if Replicates(w) {
          RoundWrites(RoundStart(w), key, ticks, plains);
        } else {
          assert plains + SavedIn([]) == plains;
        }
      case _ => assert plains + [] == plains;
    }
  }

  /** After any acts the log is what `write` made of the plaintexts it was called with. */
  lemma {:induction false} ActsWrite(w: World, key: Bytes, acts: seq<Act>, plains: seq<Bytes>)
    requires PossibleAll(w, ToEvents(key, acts)) && Wrote(w.log, key, plains)
    requires forall k :: 0 <= k < |acts| ==> OnlyWrites(acts[k])
    ensures Wrote(ApplyAll(w, ToEvents(key, acts)).log, key, plains + Saved(acts))
    decreases |acts|
  {
    hide Wrote, Possible, Sound, Apply, OnlyWrites;
    if acts == [] {
      assert plains + Saved(acts) == plains;
    } else {
      var events := ToEvents(key, acts);
      assert events[1..] == ToEvents(key, acts[1..]);
      ActWrites(w, key, acts[0], plains);
      ActsWrite(Apply(w, events[0]), key, acts[1..], plains + SavedBy(acts[0]));
      assert plains + (SavedBy(acts[0]) + Saved(acts[1..])) == (plains + SavedBy(acts[0])) + Saved(acts[1..]);
    }
  }

  /** A workspace nothing has been written to, in a folder no flush has touched. */
  ghost predicate JustCreated(w: World) {
    Initial(w) && w.log == []
  }

  /**
   The folder-copy theorem, from calls of `write`: whatever happened to the
   copy, `entries()` on it is a prefix of the plaintexts written; and when the
   copy is intact and the last act was a flush during which nothing was
   written, and which replicated or found no gap, it is all of them.
   */
  lemma CopyYieldsWhatWasWritten(w: World, key: Bytes, acts: seq<Act>, steps: seq<Step>, copy: Dir)
    requires JustCreated(w) && PossibleAll(w, ToEvents(key, acts))
    requires forall k :: 0 <= k < |acts| ==> OnlyWrites(acts[k])
    requires var u := ApplyAll(w, ToEvents(key, acts)); Possible(u, Flush(steps)) && Sound(u, Flush(steps)) && NoAppend(steps)
    ensures var u := ApplyAll(w, ToEvents(key, acts));
            var v := Apply(u, Flush(steps));
            var r := Hydrate(v.log, EMPTY, copy).replica;
            && ContiguousLength(r) <= |Saved(acts)|
            && ReadEntries(r, key, Readable(r, false)) == Entries(Saved(acts)[..ContiguousLength(r)])
            && (AgreeBelow(v.dir, copy, SEQ_LIMIT) && (Replicates(u) || ContiguousLength(Rebuilt(u)) >= |u.log|) ==>
                  ReadEntries(r, key, Readable(r, false)) == Entries(Saved(acts)))
  {
    hide Wrote, Possible, Sound, Apply, OnlyWrites, ReadEntries, NoAppend, AgreeBelow, Replicates, Rebuilt;
    hide BodiesBelow, NamesBelow, Replay, FolderInv, PossibleAll, ApplyAll;
    var events := ToEvents(key, acts);
    var u := ApplyAll(w, events);
    assert [] + Saved(acts) == Saved(acts);
    NothingWrote(w.log, key);
    ActsWrite(w, key, acts, []);
    InitiallyExact(w);
    FlushThenHydrateIsExact(w, events);
    QuietFlushKeepsLog(u, steps);
    AnyCopyYieldsAPrefix(Apply(u, Flush(steps)).log, key, Saved(acts), copy);
    if AgreeBelow(Apply(u, Flush(steps)).dir, copy, SEQ_LIMIT) && (Replicates(u) || ContiguousLength(Rebuilt(u)) >= |u.log|) {
      FlushCompletesCopy(u, steps, key, Saved(acts), copy);
    }
  }

  lemma NothingWrote(log: seq<Block>, key: Bytes)
    requires log == []
    ensures Wrote(log, key, [])
  {
  }

  lemma QuietFlushKeepsLog(u: World, steps: seq<Step>)
    requires Possible(u, Flush(steps)) && NoAppend(steps)
    ensures Apply(u, Flush(steps)).log == u.log
  {
    if Replicates(u) {
      QuietRunKeepsLog(RoundStart(u), steps);
    }
  }

  /** The proof that brings a cold replica to a log of one block. */
  function WholeOf(b: Block): Message {
    Message(FORK, Some(Upgrade(0, 1)), Some(Data(0, b)))
  }

  /** The shortest such history: one write, one flush, and the folder itself as the copy. */
  lemma OneWriteIsCopied(key: Bytes, plain: Bytes, nonce: nat)
    ensures var b := Seal(plain, key, nonce);
            var w := World([b], map[], EMPTY, EMPTY);
            && Initial(w) && Replicates(w)
            && Possible(w, Flush(Alone(WholeOf(b)))) && Sound(w, Flush(Alone(WholeOf(b))))
            && NoAppend(Alone(WholeOf(b)))
            && var v := Apply(w, Flush(Alone(WholeOf(b))));
            var r := Hydrate(v.log, EMPTY, v.dir).replica;
            ReadEntries(r, key, Readable(r, false)) == Entries([plain])
  {
    hide SeqName, TmpName, BodiesBelow, NamesBelow, ReadEntries, AgreeBelow;
    var b := Seal(plain, key, nonce);
    var w := World([b], map[], EMPTY, EMPTY);
    InitiallyExact(w);
    RebuildRecovers(w);
    FirstFreeIs(w.dir, 0);
    AloneRuns(RoundStart(w), WholeOf(b));
    SameDirAgrees(Apply(w, Flush(Alone(WholeOf(b)))).dir);
    FlushCompletesCopy(w, Alone(WholeOf(b)), key, [plain], Apply(w, Flush(Alone(WholeOf(b)))).dir);
  }

  lemma SameDirAgrees(dir: Dir)
    ensures AgreeBelow(dir, dir, SEQ_LIMIT)
  {
  }

  // ---------------------------------------------------------------------
  // flushStore
  // ---------------------------------------------------------------------

  /** One of the workspace's logs: what this device holds of it, and its transport form. */
  datatype StoreLog = NoLog | StoreLog(view: Replica, world: World)

  /** What the code tests before it flushes a log. */
  predicate Flushable(s: StoreLog) {
    s.StoreLog? && ContiguousLength(s.view) >= s.view.length
  }

  /** This device holds every block of the log. */
  ghost predicate Held(s: StoreLog) {
    s.StoreLog? && HoldsBelow(s.view, s.view.length)
  }

  /** The test picks exactly the logs this device holds whole, the empty one included. */
  lemma FlushableIffHeld(s: StoreLog)
    ensures Flushable(s) <==> Held(s)
  {
    if s.StoreLog? {
      ContiguousCovers(s.view, s.view.length);
    }
  }

  /** What one flush of the store is given: the directory's names and the round's schedule. */
  datatype Turn = Turn(names: seq<string>, steps: seq<Step>)

  ghost predicate TurnFits(s: StoreLog, turn: Turn) {
    Held(s) ==>
      && Genuine(s.world.log, s.view) && s.view.length == |s.world.log|
      && (set x | x in turn.names) == s.world.dir.Keys
      && (forall i, j :: 0 <= i < j < |turn.names| ==> turn.names[i] != turn.names[j])
      && Possible(s.world, Flush(turn.steps))
  }

  ghost function Flushed(s: StoreLog, turn: Turn): StoreLog
    requires Held(s) ==> Possible(s.world, Flush(turn.steps))
  {
    if Held(s) then s.(world := Apply(s.world, Flush(turn.steps))) else s
  }

  ghost function WrittenBy(s: StoreLog, turn: Turn): nat
    requires Held(s) ==> Possible(s.world, Flush(turn.steps))
  {
    if Held(s) && Replicates(s.world) then |Run(RoundStart(s.world), turn.steps).calls| else 0
  }

  ghost predicate AllFit(stores: seq<StoreLog>, turns: seq<Turn>) {
    |turns| == |stores| && forall k :: 0 <= k < |stores| ==> TurnFits(stores[k], turns[k])
  }

  ghost function TotalWritten(stores: seq<StoreLog>, turns: seq<Turn>, n: nat): nat
    requires AllFit(stores, turns) && n <= |stores|
  {
    if n == 0 then 0 else TotalWritten(stores, turns, n - 1) + WrittenBy(stores[n - 1], turns[n - 1])
  }

  function FileCount(s: StoreLog): nat {
    if s.StoreLog? then |SeqFiles(s.world.dir)| else 0
  }

  ghost predicate TurnInSixDigits(s: StoreLog, turn: Turn)
    requires TurnFits(s, turn)
  {
    Held(s) ==> FitsSixDigits(s.world, Flush(turn.steps))
  }

  /** What a turn counts as written is the number of files the folder gained, exactly within six digits. */
  lemma WrittenIsGainedIff(s: StoreLog, turn: Turn)
    requires TurnFits(s, turn)
    ensures WrittenBy(s, turn) == FileCount(Flushed(s, turn)) - FileCount(s) <==> TurnInSixDigits(s, turn)
  {
    if Held(s) && Replicates(s.world) {
      RoundGains(RoundStart(s.world), turn.steps);
    }
  }

  lemma RoundGains(s: Round, steps: seq<Step>)
    requires Fresh(s) && Runs(s, steps) && Complete(Run(s, steps))
    ensures var t := Run(s, steps);
            |t.calls| == |SeqFiles(t.dir)| - |SeqFiles(s.dir)| <==> t.seqNo <= SEQ_LIMIT
  {
    hide BodiesBelow, NamesBelow, SeqName, TmpName;
    var t := Run(s, steps);
    FirstFreeIsFree(s.dir);
    FreshFiles(s);
    RunKeepsFiles(s, steps, s.dir, s.seqNo);
    CompletedOrder(t, s.dir, s.seqNo);
    PermutationLength(t.order, |t.calls|);
    RoundListing(t, s.dir, s.seqNo);
    NamesMatchBodies(s.dir, SEQ_LIMIT);
    NamesMatchBodies(t.dir, SEQ_LIMIT);
  }

  function StoreFiles(stores: seq<StoreLog>, n: nat): nat
    requires n <= |stores|
  {
    if n == 0 then 0 else StoreFiles(stores, n - 1) + FileCount(stores[n - 1])
  }

  /** What `flushStore` reports is the number of files the folder gained. */
  lemma {:induction false} TotalIsGained(before: seq<StoreLog>, after: seq<StoreLog>, turns: seq<Turn>, n: nat)
    requires AllFit(before, turns) && n <= |before| == |after|
    requires forall k :: 0 <= k < n ==> after[k] == Flushed(before[k], turns[k]) && TurnInSixDigits(before[k], turns[k])
    ensures TotalWritten(before, turns, n) == StoreFiles(after, n) - StoreFiles(before, n)
  {
    hide FileCount, TurnInSixDigits, WrittenBy, Flushed, TurnFits;
    if n > 0 {
      TotalIsGained(before, after, turns, n - 1);
      WrittenIsGainedIff(before[n - 1], turns[n - 1]);
    }
  }

  class Store {
    var logs: seq<StoreLog>  // data, key delivery, blobs

    constructor (logs: seq<StoreLog>)
      ensures this.logs == logs
    {
      this.logs := logs;
    }

    /** None when the runtime cannot flush; nothing is written to a folder that is gone. */
    method FlushStore(canFlush: bool, folderExists: bool, turns: seq<Turn>) returns (result: Option<nat>)
      requires AllFit(logs, turns)
      modifies this
      ensures !canFlush ==> result == None && logs == old(logs)
      ensures canFlush && !folderExists ==> result == Some(0) && logs == old(logs)
      ensures canFlush && folderExists ==>
                && |logs| == |turns|
                && (forall k :: 0 <= k < |logs| ==> logs[k] == Flushed(old(logs)[k], turns[k]))
                && result == Some(TotalWritten(old(logs), turns, |turns|))
    {
      hide HoldsBelow, ContiguousLength, Possible, Apply, Replicates, RoundStart, Run, Genuine;
      if !canFlush {
        return None;
      }
      if !folderExists {
        return Some(0);
      }
      var before := logs;
      var written := 0;
      for k := 0 to |before|
        invariant |logs| == |before|
        invariant forall i :: 0 <= i < k ==> logs[i] == Flushed(before[i], turns[i])
        invariant forall i :: k <= i < |logs| ==> logs[i] == before[i]
        invariant written == TotalWritten(before, turns, k)
      {
        FlushableIffHeld(before[k]);
        if Flushable(before[k]) {
          var w := before[k].world;
          var r := FlushOne(w, turns[k]);
          logs := logs[k := before[k].(world := r.0)];
          written := written + r.1;
        }
      }
      return Some(written);
    }
  }

  method FlushOne(w: World, turn: Turn) returns (r: (World, nat))
    requires (set x | x in turn.names) == w.dir.Keys
    requires forall i, j :: 0 <= i < j < |turn.names| ==> turn.names[i] != turn.names[j]
    requires Possible(w, Flush(turn.steps))
    ensures r.0 == Apply(w, Flush(turn.steps))
    ensures r.1 == if Replicates(w) then |Run(RoundStart(w), turn.steps).calls| else 0
  {
    var flusher := new Flusher(w.log, w.dir, w.cap);
    var result := flusher.FlushLogToDir(turn.names, turn.steps);
    var covered := if |w.log| == 0 then w.covered else flusher.cap;
    if Replicates(w) {
      AllRenamed(Run(RoundStart(w), turn.steps).calls);
    }
    r := (World(flusher.log, flusher.dir, flusher.cap, covered), result.written);
  }

  /**
   After `flushStore`, with the writer quiet and no gap in any capture replica,
   every log this device holds whole hydrates whole from the folder.
   */
  lemma FlushedStoreIsComplete(s: StoreLog, turn: Turn)
    requires TurnFits(s, turn) && Held(s)
    requires FolderInv(s.world) && NoGap(s.world.covered) && NoAppend(turn.steps)
    requires Sound(s.world, Flush(turn.steps))
    ensures var v := Flushed(s, turn).world;
            && FolderInv(v) && NoGap(v.covered)
            && Hydrate(v.log, EMPTY, v.dir).replica == s.view
  {
    hide SeqName, TmpName, BodiesBelow, NamesBelow, Replay, Run, Runs, Complete, NoAppend;
    QuietFlushCoversAll(s.world, turn.steps);
    FlushKeepsExact(s.world, turn.steps);
    ContiguousCovers(s.view, s.view.length);
    HeldIsKnown(s.world.log, Flushed(s, turn).world.covered, |s.world.log|);
    WholeIsUnique(s.world.log, Flushed(s, turn).world.covered, s.view);
  }

  /** A replica that holds a whole log is determined by it. */
  lemma WholeIsUnique(log: seq<Block>, a: Replica, b: Replica)
    requires Genuine(log, a) && HoldsBelow(a, |log|) && a.length == |log|
    requires Genuine(log, b) && HoldsBelow(b, |log|) && b.length == |log|
    ensures a == b
  {
    assert a.have.Keys == b.have.Keys;
    assert a.have == b.have;
  }
}
