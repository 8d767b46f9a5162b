/**
 The transport form of one log: a directory of proof files, and what replaying
 them into a replica does.
 */
module Transport {
  import opened Results
  import opened Strings
  import opened SeqNames
  import opened Sealing
  import opened Replicas

  /** A file's bytes either decode to a proof message or they do not. */
  datatype FileBody = Encoded(msg: Message) | Undecodable

  type Dir = map<string, FileBody>

  datatype Replayed = Replayed(replica: Replica, applied: nat, skipped: nat)

  /** One turn of the replay loop: an exception is a skip, everything else is applied. */
  function ReplayOne(log: seq<Block>, state: Replayed, body: FileBody): Replayed {
    match body
    case Undecodable => state.(skipped := state.skipped + 1)
    case Encoded(m) =>
      var o := Verify(log, state.replica, m);
      if o.Rejected? then state.(skipped := state.skipped + 1)
      else Replayed(After(state.replica, o), state.applied + 1, state.skipped)
  }

  function Replay(log: seq<Block>, r: Replica, bodies: seq<FileBody>): Replayed {
    if bodies == [] then Replayed(r, 0, 0)
    else ReplayOne(log, Replay(log, r, bodies[..|bodies| - 1]), bodies[|bodies| - 1])
  }

  /** The bodies of the sequence files with a number below `n`, in allocation order. */
  function BodiesBelow(dir: Dir, n: nat): seq<FileBody>
    decreases n, dir
  {
    if n == 0 then []
    else BodiesBelow(dir, n - 1) + if SeqName(n - 1) in dir then [dir[SeqName(n - 1)]] else []
  }

  function SeqFiles(dir: Dir): seq<string> {
    NamesBelow(dir.Keys, SEQ_LIMIT)
  }

  /** The files `hydrateLogFromDir` reads, in the order it reads them. */
  function Bodies(dir: Dir): seq<FileBody> {
    BodiesBelow(dir, SEQ_LIMIT)
  }

  // ---------------------------------------------------------------------
  // Facts about replay
  // ---------------------------------------------------------------------

  lemma {:induction false} ReplayOfConcat(log: seq<Block>, r: Replica, xs: seq<FileBody>, ys: seq<FileBody>)
    ensures var a := Replay(log, r, xs);
            var b := Replay(log, a.replica, ys);
            Replay(log, r, xs + ys) == Replayed(b.replica, a.applied + b.applied, a.skipped + b.skipped)
  {
    if ys == [] {
      assert xs + ys == xs;
    } else {
      var n := |ys| - 1;
      ReplayOfConcat(log, r, xs, ys[..n]);
      assert (xs + ys)[..|xs + ys| - 1] == xs + ys[..n];
    }
  }

  /** Whatever the files hold, the replica keeps to the writer's blocks and loses nothing. */
  lemma {:induction false} ReplayIsSafe(log: seq<Block>, r: Replica, bodies: seq<FileBody>)
    requires Genuine(log, r)
    ensures var out := Replay(log, r, bodies);
            && Genuine(log, out.replica)
            && Extends(r, out.replica)
            && out.applied + out.skipped == |bodies|
  {
    if bodies != [] {
      var n := |bodies| - 1;
      ReplayIsSafe(log, r, bodies[..n]);
      if bodies[n].Encoded? {
        VerifyIsGenuine(log, Replay(log, r, bodies[..n]).replica, bodies[n].msg);
      }
    }
  }

  /** A replay that skipped nothing repeats exactly after the writer has appended more. */
  lemma {:induction false} CleanReplayIsStable(log: seq<Block>, longer: seq<Block>, r: Replica, bodies: seq<FileBody>)
    requires log <= longer && Replay(log, r, bodies).skipped == 0
    ensures Replay(longer, r, bodies) == Replay(log, r, bodies)
  {
    if bodies != [] {
      var n := |bodies| - 1;
      CleanReplayIsStable(log, longer, r, bodies[..n]);
      if bodies[n].Encoded? {
        VerifyIsStable(log, longer, Replay(log, r, bodies[..n]).replica, bodies[n].msg);
      }
    }
  }

  /** Which of the files are applied: those that decode and whose proof `verify` does not throw on, where they stand. */
  predicate Applies(log: seq<Block>, r: Replica, bodies: seq<FileBody>, k: nat)
    requires k < |bodies|
  {
    bodies[k].Encoded? && !Verify(log, Replay(log, r, bodies[..k]).replica, bodies[k].msg).Rejected?
  }

  function AppliedCount(log: seq<Block>, r: Replica, bodies: seq<FileBody>, n: nat): nat
    requires n <= |bodies|
  {
    if n == 0 then 0 else AppliedCount(log, r, bodies, n - 1) + if Applies(log, r, bodies, n - 1) then 1 else 0
  }

  /** Exactly those count as applied, all others as skipped, and only those touch the replica. */
  lemma {:induction false} ReplayCounts(log: seq<Block>, r: Replica, bodies: seq<FileBody>, n: nat)
    requires n <= |bodies|
    ensures Replay(log, r, bodies[..n]).applied == AppliedCount(log, r, bodies, n)
    ensures Replay(log, r, bodies[..n]).skipped == n - AppliedCount(log, r, bodies, n)
    ensures n > 0 ==>
      Replay(log, r, bodies[..n]).replica ==
        var before := Replay(log, r, bodies[..n - 1]).replica;
        if Applies(log, r, bodies, n - 1) then After(before, Verify(log, before, bodies[n - 1].msg)) else before
    decreases n
  {
    if n > 0 {
      ReplayCounts(log, r, bodies, n - 1);
      assert bodies[..n][..n - 1] == bodies[..n - 1];
    }
  }

  /** A replay skips nothing exactly when every file decodes and passes. */
  lemma {:induction false} SkipsNothingIff(log: seq<Block>, r: Replica, bodies: seq<FileBody>)
    ensures Replay(log, r, bodies).skipped == 0 <==> forall k :: 0 <= k < |bodies| ==> Applies(log, r, bodies, k)
  {
    ReplayCounts(log, r, bodies, |bodies|);
    AllApplyIff(log, r, bodies, |bodies|);
    assert bodies[..|bodies|] == bodies;
  }

  lemma {:induction false} AllApplyIff(log: seq<Block>, r: Replica, bodies: seq<FileBody>, n: nat)
    requires n <= |bodies|
    ensures AppliedCount(log, r, bodies, n) <= n
    ensures AppliedCount(log, r, bodies, n) == n <==> forall k :: 0 <= k < n ==> Applies(log, r, bodies, k)
  {
    hide Applies;
    if n > 0 {
      AllApplyIff(log, r, bodies, n - 1);
    }
  }

  /** A file that does not decode costs one skip and changes nothing else, wherever it stands. */
  lemma {:induction false} TornFileIsSkipped(log: seq<Block>, r: Replica, xs: seq<FileBody>, ys: seq<FileBody>)
    ensures var without, torn := Replay(log, r, xs + ys), Replay(log, r, xs + [Undecodable] + ys);
            torn.replica == without.replica && torn.applied == without.applied && torn.skipped == without.skipped + 1
  {
    ReplayOfConcat(log, r, xs, ys);
    ReplayOfConcat(log, r, xs + [Undecodable], ys);
    ReplayOfConcat(log, r, xs, [Undecodable]);
    assert [Undecodable][..0] == [];
  }

  // ---------------------------------------------------------------------
  // Facts about the listing
  // ---------------------------------------------------------------------

  /** Names and bodies are listed in step. */
  lemma {:induction false} NamesMatchBodies(dir: Dir, n: nat)
    ensures |NamesBelow(dir.Keys, n)| == |BodiesBelow(dir, n)|
    ensures forall k :: 0 <= k < |NamesBelow(dir.Keys, n)| ==>
              && NamesBelow(dir.Keys, n)[k] in dir
              && dir[NamesBelow(dir.Keys, n)[k]] == BodiesBelow(dir, n)[k]
              && AllDigits(NamesBelow(dir.Keys, n)[k])
              && ValueOf(NamesBelow(dir.Keys, n)[k]) < n
    decreases n
  {
    if n > 0 {
      NamesMatchBodies(dir, n - 1);
      SeqNameValue(n - 1);
    }
  }

  /** Directories that agree on the names up to `n` list the same files up to `n`. */
  lemma {:induction false} SameFilesSameBodies(a: Dir, b: Dir, n: nat)
    requires forall k: nat :: k < n ==> (SeqName(k) in a <==> SeqName(k) in b)
    requires forall k: nat :: k < n && SeqName(k) in a ==> a[SeqName(k)] == b[SeqName(k)]
    ensures BodiesBelow(a, n) == BodiesBelow(b, n)
    decreases n
  {
    if n > 0 {
      SameFilesSameBodies(a, b, n - 1);
    }
  }

  /** With nothing from `m` on, listing further adds nothing. */
  lemma {:induction false} NothingAbove(dir: Dir, m: nat, n: nat)
    requires m <= n && forall k: nat :: m <= k < n ==> SeqName(k) !in dir
    ensures BodiesBelow(dir, n) == BodiesBelow(dir, m)
    decreases n
  {
    if m < n {
      NothingAbove(dir, m, n - 1);
    }
  }

  /** The first number of a round: one past the highest listed name. */
  function FirstFree(dir: Dir): (n: nat)
  {
    NamesMatchBodies(dir, SEQ_LIMIT);
    HighestPlusOne(SeqFiles(dir))
  }

  lemma {:induction false} ListedNumbers(keys: set<string>, n: nat, k: nat)
    requires k < n
    ensures SeqName(k) in keys <==> SeqName(k) in NamesBelow(keys, n)
    decreases n
  {
    if k < n - 1 {
      ListedNumbers(keys, n - 1, k);
      SeqNamesDiffer(k, n - 1);
    } else if SeqName(k) in NamesBelow(keys, n - 1) {
      NamesMatchBodies(map x | x in keys :: Undecodable, n - 1);
      assert (map x | x in keys :: Undecodable).Keys == keys;
      SeqNameValue(k);
    }
  }

  /** No listed file has a number at or above `FirstFree`. */
  lemma FirstFreeIsFree(dir: Dir)
    ensures FirstFree(dir) <= SEQ_LIMIT
    ensures forall name :: name in dir && IsSeqName(name) ==> ValueOf(name) < FirstFree(dir)
  {
    var names := SeqFiles(dir);
    NamesMatchBodies(dir, SEQ_LIMIT);
    NextIsAboveAll(names);
    forall name | name in dir && IsSeqName(name) ensures ValueOf(name) < FirstFree(dir) {
      ListedNameIsItsNumbers(name);
      ListedNumbers(dir.Keys, SEQ_LIMIT, ValueOf(name));
    }
  }

  // ---------------------------------------------------------------------
  // replayInto and hydrateLogFromDir
  // ---------------------------------------------------------------------

  datatype HydrateResult = HydrateResult(applied: nat, skipped: nat, length: nat)

  function Hydrate(log: seq<Block>, r: Replica, dir: Dir): Replayed {
    Replay(log, r, Bodies(dir))
  }

  class Core {
    var log: seq<Block>  // what the writer has signed so far
    var replica: Replica

    constructor (log: seq<Block>, replica: Replica)
      ensures this.log == log && this.replica == replica
    {
      this.log := log;
      this.replica := replica;
    }

    /** `core.verify`: false when it throws. */
    method VerifyProof(m: Message) returns (resolved: bool)
      modifies this`replica
      ensures resolved == !Verify(log, old(replica), m).Rejected?
      ensures replica == After(old(replica), Verify(log, old(replica), m))
    {
      var o := Verify(log, replica, m);
      resolved := !o.Rejected?;
      replica := After(replica, o);
    }

    /** Replay the listed files, one verify per file, skipping those that fail. */
    method ReplayInto(dir: Dir, names: seq<string>) returns (result: HydrateResult)
      requires (set x | x in names) == dir.Keys
      requires forall i, j :: 0 <= i < j < |names| ==> names[i] != names[j]
      modifies this`replica
      ensures replica == Hydrate(log, old(replica), dir).replica
      ensures result == HydrateResult(Hydrate(log, old(replica), dir).applied,
                                      Hydrate(log, old(replica), dir).skipped,
                                      replica.length)
    {
      var listed := ListSeqFiles(names);
      NamesMatchBodies(dir, SEQ_LIMIT);
      ghost var bodies := Bodies(dir);
      var applied, skipped := 0, 0;
      for k := 0 to |listed|
        invariant Replayed(replica, applied, skipped) == Replay(log, old(replica), bodies[..k])
      {
        assert bodies[..k + 1][..k] == bodies[..k];
        var body := dir[listed[k]];
        var resolved := false;
        if body.Encoded? {
          resolved := VerifyProof(body.msg);
        }
        if resolved {
          applied := applied + 1;
        } else {
          skipped := skipped + 1;
        }
      }
      assert bodies[..|listed|] == bodies;
      return HydrateResult(applied, skipped, replica.length);
    }

    method HydrateLogFromDir(dir: Dir, names: seq<string>) returns (result: HydrateResult)
      requires (set x | x in names) == dir.Keys
      requires forall i, j :: 0 <= i < j < |names| ==> names[i] != names[j]
      modifies this`replica
      ensures replica == Hydrate(log, old(replica), dir).replica
      ensures result == HydrateResult(Hydrate(log, old(replica), dir).applied,
                                      Hydrate(log, old(replica), dir).skipped,
                                      replica.length)
    {
      var listed := ListSeqFiles(names);
      if |listed| == 0 {
        NamesMatchBodies(dir, SEQ_LIMIT);
        return HydrateResult(0, 0, replica.length);
      }
      result := ReplayInto(dir, names);
    }
  }

  /**
   Hydration on any folder whatsoever: missing, torn, tampered or
   conflict-copied files cost blocks, never correctness.
   */
  lemma HydrationIsSafe(log: seq<Block>, r: Replica, dir: Dir)
    requires Genuine(log, r)
    ensures var out := Hydrate(log, r, dir);
            && Genuine(log, out.replica)
            && Extends(r, out.replica)
            && out.applied + out.skipped == |SeqFiles(dir)|
            && ContiguousLength(out.replica) <= |log|
            && forall i: nat :: i < ContiguousLength(out.replica) ==>
                 i in out.replica.have && out.replica.have[i] == log[i]
  {
    ReplayIsSafe(log, r, Bodies(dir));
    NamesMatchBodies(dir, SEQ_LIMIT);
    ContiguousIsHeld(Hydrate(log, r, dir).replica, 0);
  }

  /** A hydration that skips nothing found every file whole. */
  lemma NothingSkippedAllDecode(log: seq<Block>, r: Replica, dir: Dir)
    requires Hydrate(log, r, dir).skipped == 0
    ensures forall k :: 0 <= k < |Bodies(dir)| ==> Bodies(dir)[k].Encoded?
  {
    var bodies := Bodies(dir);
    SkipsNothingIff(log, r, bodies);
    forall k | 0 <= k < |bodies| ensures bodies[k].Encoded? {
      assert Applies(log, r, bodies, k);
    }
  }

  /** Only names that are bare sequence numbers matter: temp files and conflicted copies change nothing. */
  lemma ClutterIsIgnored(log: seq<Block>, r: Replica, dir: Dir, name: string, body: FileBody)
    requires !IsSeqName(name)
    ensures Hydrate(log, r, dir[name := body]) == Hydrate(log, r, dir)
  {
    forall k: nat | k < SEQ_LIMIT ensures SeqName(k) != name {
      ListedIffBelowLimit(k);
    }
    SameFilesSameBodies(dir, dir[name := body], SEQ_LIMIT);
  }
}
