/**
 When a completed flush round is exact. Invocations take numbers in another
 order than the replica took their proofs; replaying the files in the order of
 their numbers gives the replica back exactly when no proof took its number
 before an upgrade it needs.
 */
module FlushExact {
  import opened Results
  import opened Strings
  import opened SeqNames
  import opened Sealing
  import opened Replicas
  import opened Transport
  import opened FlushOrder
  import opened FlushRound

  predicate InRange(calls: seq<Call>, order: seq<nat>) {
    forall j :: 0 <= j < |order| ==> order[j] < |calls|
  }

  /** The proofs in the order their invocations took numbers. */
  function Ordered(calls: seq<Call>, order: seq<nat>): (bodies: seq<FileBody>)
    requires InRange(calls, order)
    ensures |bodies| == |order|
    ensures forall j :: 0 <= j < |order| ==> bodies[j] == Encoded(calls[order[j]].msg)
  {
    seq(|order|, j requires 0 <= j < |order| => Encoded(calls[order[j]].msg))
  }

  /** The proofs in the order the replica took them. */
  function Proofs(calls: seq<Call>): (ms: seq<Message>)
    ensures |ms| == |calls| && forall i :: 0 <= i < |calls| ==> ms[i] == calls[i].msg
  {
    seq(|calls|, i requires 0 <= i < |calls| => calls[i].msg)
  }

  /** No proof took its number before an upgrade it needs. */
  predicate NumberedInNeedOrder(s: Round)
    requires InRange(s.calls, s.order)
  {
    NeedsMet(Permuted(Proofs(s.calls), s.order))
  }

  // ---------------------------------------------------------------------
  // The replica is what its proofs make of it
  // ---------------------------------------------------------------------

  /** The proofs taken so far, replayed in the order they were taken, all pass and give the capture replica. */
  ghost predicate CapInv(s: Round, cap0: Replica) {
    Clean(s.log, cap0, Proofs(s.calls)) && Played(s.log, cap0, Proofs(s.calls)) == s.cap
  }

  lemma FreshCap(s: Round)
    requires Fresh(s)
    ensures CapInv(s, s.cap)
  {
    assert Proofs(s.calls) == [];
    NothingPlayed(s.log, s.cap);
  }

  lemma TakeKeepsCap(s: Round, m: Message, cap0: Replica)
    requires CapInv(s, cap0) && Enabled(s, Take(m))
    ensures CapInv(Next(s, Take(m)), cap0)
  {
    hide Replay, EncodeAll;
    var ms := Proofs(s.calls) + [m];
    assert Proofs(Next(s, Take(m)).calls) == ms;
    assert ms[..|ms| - 1] == Proofs(s.calls);
    OneMore(s.log, cap0, ms);
  }

  lemma StepKeepsCap(s: Round, step: Step, cap0: Replica)
    requires CapInv(s, cap0) && Enabled(s, step)
    ensures CapInv(Next(s, step), cap0)
  {
    match step
    case Append(b) => CleanReplayIsStable(s.log, s.log + [b], cap0, EncodeAll(Proofs(s.calls)));
    case Take(m) => TakeKeepsCap(s, m, cap0);
    case _ => assert Proofs(Next(s, step).calls) == Proofs(s.calls);
  }

  lemma {:induction false} RunKeepsCap(s: Round, steps: seq<Step>, cap0: Replica)
    requires CapInv(s, cap0) && Runs(s, steps)
    ensures CapInv(Run(s, steps), cap0)
    decreases |steps|
  {
    if steps != [] {
      StepKeepsCap(s, steps[0], cap0);
      RunKeepsCap(Next(s, steps[0]), steps[1..], cap0);
    }
  }

  lemma {:induction false} RunGrows(s: Round, steps: seq<Step>)
    requires Runs(s, steps) && Genuine(s.log, s.cap)
    ensures s.log <= Run(s, steps).log
    ensures Genuine(Run(s, steps).log, Run(s, steps).cap) && Extends(s.cap, Run(s, steps).cap)
    decreases |steps|
  {
    if steps != [] {
      if steps[0].Take? {
        VerifyIsGenuine(s.log, s.cap, steps[0].msg);
      }
      RunGrows(Next(s, steps[0]), steps[1..]);
    }
  }

  // ---------------------------------------------------------------------
  // The listing after a completed round
  // ---------------------------------------------------------------------

  /** The numbers a completed round took are all on files. */
  lemma CompletedNumber(s: Round, dir0: Dir, first: nat, j: nat)
    requires FileInv(s, dir0, first) && Complete(s) && j < |s.order|
    ensures InRange(s.calls, s.order)
    ensures SeqName(first + j) in s.dir && s.dir[SeqName(first + j)] == Ordered(s.calls, s.order)[j]
  {
    hide SeqName, TmpName;
    forall k | 0 <= k < |s.order| ensures s.order[k] < |s.calls| {
      assert TookNumber(s, first, k);
    }
    assert TookNumber(s, first, j);
    var c := s.calls[s.order[j]];
    assert c in s.calls;
    assert FileWritten(s.dir, c);
  }

  /** A sequence file that was not there before has a number this round gave out. */
  lemma OnlyOwnNumbersAreNew(s: Round, dir0: Dir, first: nat, x: string)
    requires OldFilesKept(s, dir0, first) && IsSeqName(x)
    ensures x in s.dir ==> x in dir0 || first <= ValueOf(x) < first + |s.order|
  {
  }

  lemma OldPartOfListing(s: Round, dir0: Dir, first: nat, n: nat)
    requires FileInv(s, dir0, first) && n <= first && n <= SEQ_LIMIT
    ensures BodiesBelow(s.dir, n) == BodiesBelow(dir0, n)
  {
    forall k: nat | k < n
      ensures SeqName(k) in s.dir <==> SeqName(k) in dir0
      ensures SeqName(k) in s.dir ==> s.dir[SeqName(k)] == dir0[SeqName(k)]
    {
      ListedIffBelowLimit(k);
      SeqNameValue(k);
      OnlyOwnNumbersAreNew(s, dir0, first, SeqName(k));
    }
    SameFilesSameBodies(s.dir, dir0, n);
  }

  lemma {:induction false} NewPartOfListing(s: Round, dir0: Dir, first: nat, k: nat)
    requires FileInv(s, dir0, first) && Complete(s) && k <= |s.order| && first + k <= SEQ_LIMIT
    ensures InRange(s.calls, s.order)
    ensures BodiesBelow(s.dir, first + k) == BodiesBelow(dir0, first) + Ordered(s.calls, s.order)[..k]
    decreases k
  {
    if k == 0 {
      OldPartOfListing(s, dir0, first, first);
      forall j | 0 <= j < |s.order| ensures s.order[j] < |s.calls| {
        assert TookNumber(s, first, j);
      }
    } else {
      NewPartOfListing(s, dir0, first, k - 1);
      CompletedNumber(s, dir0, first, k - 1);
      var bodies := Ordered(s.calls, s.order);
      assert bodies[..k] == bodies[..k - 1] + [bodies[k - 1]];
    }
  }

  /**
   After a completed round the folder lists its old files followed by the
   round's proofs in number order, cut off after number 999999.
   */
  lemma RoundListing(s: Round, dir0: Dir, first: nat)
    requires FileInv(s, dir0, first) && Complete(s) && first <= SEQ_LIMIT
    ensures InRange(s.calls, s.order)
    ensures var kept := if s.seqNo <= SEQ_LIMIT then |s.order| else SEQ_LIMIT - first;
            Bodies(s.dir) == Bodies(dir0) + Ordered(s.calls, s.order)[..kept]
  {
    var kept := if s.seqNo <= SEQ_LIMIT then |s.order| else SEQ_LIMIT - first;
    NewPartOfListing(s, dir0, first, kept);
    forall k: nat | first <= k < SEQ_LIMIT ensures SeqName(k) !in dir0 {
      ListedIffBelowLimit(k);
      SeqNameValue(k);
    }
    NothingAbove(dir0, first, SEQ_LIMIT);
    forall k: nat | first + kept <= k < SEQ_LIMIT ensures SeqName(k) !in s.dir {
      ListedIffBelowLimit(k);
      SeqNameValue(k);
      OnlyOwnNumbersAreNew(s, dir0, first, SeqName(k));
    }
    NothingAbove(s.dir, first + kept, SEQ_LIMIT);
  }

  // ---------------------------------------------------------------------
  // Exactness of one round
  // ---------------------------------------------------------------------

  /** Replaying the folder into an empty replica applies every file, skips none, and ends in `cap`. */
  ghost predicate Exact(log: seq<Block>, dir: Dir, cap: Replica) {
    Hydrate(log, EMPTY, dir) == Replayed(cap, |SeqFiles(dir)|, 0)
  }

  /** In a completed round every call took one number. */
  lemma CompletedOrder(s: Round, dir0: Dir, first: nat)
    requires FileInv(s, dir0, first) && Complete(s)
    ensures InRange(s.calls, s.order) && IsPermutation(s.order, |s.calls|)
  {
    hide SeqName, TmpName;
    forall j | 0 <= j < |s.order| ensures s.order[j] < |s.calls| && s.calls[s.order[j]].stage == Renamed(first + j) {
      assert TookNumber(s, first, j);
      assert s.calls[s.order[j]] in s.calls;
    }
    forall i | 0 <= i < |s.calls| ensures i in s.order {
      assert HasSlot(s, first, i);
      assert s.calls[i] in s.calls;
    }
  }

  lemma OrderedIsPermuted(calls: seq<Call>, order: seq<nat>)
    requires InRange(calls, order)
    ensures Ordered(calls, order) == EncodeAll(Permuted(Proofs(calls), order))
  {
  }

  /**
   Over every interleaving of upgrades and blocks: after a completed round the
   folder is exact again if and only if no proof took its number before an
   upgrade it needs.
   */
  lemma RoundIsExactIff(s: Round, steps: seq<Step>)
    requires Fresh(s) && Runs(s, steps) && Complete(Run(s, steps))
    requires Exact(s.log, s.dir, s.cap)
    requires Run(s, steps).seqNo <= SEQ_LIMIT
    ensures InRange(Run(s, steps).calls, Run(s, steps).order)
    ensures Exact(Run(s, steps).log, Run(s, steps).dir, Run(s, steps).cap) <==> NumberedInNeedOrder(Run(s, steps))
  {
    hide Replay, BodiesBelow, NamesBelow, SeqName, TmpName, NeedsMet;
    var t := Run(s, steps);
    var first := s.seqNo;
    FirstFreeIsFree(s.dir);
    HydrationIsSafe(s.log, EMPTY, s.dir);
    FreshFiles(s);
    RunKeepsFiles(s, steps, s.dir, first);
    FreshCap(s);
    RunKeepsCap(s, steps, s.cap);
    RunGrows(s, steps);
    CompletedOrder(t, s.dir, first);
    RoundListing(t, s.dir, first);
    OrderedIsPermuted(t.calls, t.order);
    var added := Ordered(t.calls, t.order);
    assert Bodies(t.dir) == Bodies(s.dir) + added;
    CleanReplayIsStable(s.log, t.log, EMPTY, Bodies(s.dir));
    ReplayOfConcat(t.log, EMPTY, Bodies(s.dir), added);
    ReplayIsSafe(t.log, EMPTY, Bodies(t.dir));
    NamesMatchBodies(t.dir, SEQ_LIMIT);
    ReorderedReplayIff(t.log, s.cap, Proofs(t.calls), t.order);
  }

  // ---------------------------------------------------------------------
  // A lock on upgrades is enough
  // ---------------------------------------------------------------------

  /** What a lock on upgrades gives: no proof is taken while an upgrade it needs is inside `verify`. */
  predicate Guarded(s: Round, step: Step) {
    step.Take? ==> forall c :: c in s.calls && Waiting(c) ==> !Needs(step.msg, c.msg)
  }

  predicate AllGuarded(s: Round, steps: seq<Step>)
    requires Runs(s, steps)
    decreases |steps|
  {
    steps == [] || (Guarded(s, steps[0]) && AllGuarded(Next(s, steps[0]), steps[1..]))
  }

  /** If call `a` needs call `b`, `b` has its number, and a smaller one than `a` has or will have. */
  ghost predicate InOrder(s: Round, a: nat, b: nat)
    requires a < |s.calls| && b < |s.calls|
  {
    Needs(s.calls[a].msg, s.calls[b].msg) ==>
      !Waiting(s.calls[b]) && (!Waiting(s.calls[a]) ==> s.calls[b].stage.n < s.calls[a].stage.n)
  }

  ghost predicate GuardInv(s: Round) {
    forall a, b :: 0 <= a < |s.calls| && 0 <= b < |s.calls| ==> InOrder(s, a, b)
  }

  lemma GuardedStepKeepsOrder(s: Round, step: Step, cap0: Replica, first: nat)
    requires Enabled(s, step) && Guarded(s, step)
    requires CapInv(s, cap0) && NumbersInOrder(s, first) && GuardInv(s)
    ensures GuardInv(Next(s, step))
  {
    hide Clean, SeqName, TmpName, Verify;
    var t := Next(s, step);
    StepKeepsCap(s, step, cap0);
    CleanMeetsNeeds(t.log, cap0, Proofs(t.calls));
    forall a, b | 0 <= a < |t.calls| && 0 <= b < |t.calls| ensures InOrder(t, a, b) {
      if a < |s.calls| && b < |s.calls| {
        assert InOrder(s, a, b) && HasSlot(s, first, b);
      } else if b < |s.calls| {
        assert s.calls[b] in s.calls && HasSlot(s, first, b);
      } else if a < b {
        assert !Needs(Proofs(t.calls)[a], Proofs(t.calls)[b]);
      }
    }
  }

  lemma {:induction false} GuardedRunKeepsOrder(s: Round, steps: seq<Step>, cap0: Replica, dir0: Dir, first: nat)
    requires Runs(s, steps) && AllGuarded(s, steps)
    requires CapInv(s, cap0) && FileInv(s, dir0, first) && GuardInv(s)
    ensures GuardInv(Run(s, steps))
    decreases |steps|
  {
    hide CapInv, GuardInv, FilesWritten, OldFilesKept, NumbersInOrder;
    if steps != [] {
      StepKeepsCap(s, steps[0], cap0);
      StepKeepsFiles(s, steps[0], dir0, first);
      GuardedStepKeepsOrder(s, steps[0], cap0, first);
      GuardedRunKeepsOrder(Next(s, steps[0]), steps[1..], cap0, dir0, first);
    }
  }

  /** Under the guard blocks may overlap each other and any upgrade they do not need: every completed round is exact. */
  lemma RoundIsExact(s: Round, steps: seq<Step>)
    requires Fresh(s) && Runs(s, steps) && Complete(Run(s, steps)) && AllGuarded(s, steps)
    requires Exact(s.log, s.dir, s.cap)
    requires Run(s, steps).seqNo <= SEQ_LIMIT
    ensures Exact(Run(s, steps).log, Run(s, steps).dir, Run(s, steps).cap)
  {
    RoundIsExactIff(s, steps);
    GuardedIsInNeedOrder(s, steps);
  }

  lemma GuardedIsInNeedOrder(s: Round, steps: seq<Step>)
    requires Fresh(s) && Runs(s, steps) && Complete(Run(s, steps)) && AllGuarded(s, steps)
    ensures InRange(Run(s, steps).calls, Run(s, steps).order)
    ensures NumberedInNeedOrder(Run(s, steps))
  {
    hide SeqName, TmpName;
    var t := Run(s, steps);
    FreshFiles(s);
    RunKeepsFiles(s, steps, s.dir, s.seqNo);
    FreshCap(s);
    GuardedRunKeepsOrder(s, steps, s.cap, s.dir, s.seqNo);
    CompletedOrder(t, s.dir, s.seqNo);
    forall j, k | 0 <= j < k < |t.order|
      ensures !Needs(Permuted(Proofs(t.calls), t.order)[j], Permuted(Proofs(t.calls), t.order)[k])
    {
      assert TookNumber(t, s.seqNo, j) && TookNumber(t, s.seqNo, k);
      assert InOrder(t, t.order[j], t.order[k]);
    }
  }

  // ---------------------------------------------------------------------
  // Numbering from one round to the next
  // ---------------------------------------------------------------------

  lemma FirstFreeIs(dir: Dir, n: nat)
    requires n <= SEQ_LIMIT
    requires forall name :: name in dir && IsSeqName(name) ==> ValueOf(name) < n
    requires n > 0 ==> SeqName(n - 1) in dir
    ensures FirstFree(dir) == n
  {
    FirstFreeIsFree(dir);
    var names := SeqFiles(dir);
    NamesMatchBodies(dir, SEQ_LIMIT);
    NextIsAboveAll(names);
    if n > 0 {
      ListedIffBelowLimit(n - 1);
      SeqNameValue(n - 1);
    }
    if FirstFree(dir) > 0 {
      var i :| 0 <= i < |names| && ValueOf(names[i]) == FirstFree(dir) - 1;
      ListedNamesAreSeqNames(dir.Keys, SEQ_LIMIT);
      assert names[i] in dir;
    }
  }

  lemma {:induction false} ListedNamesAreSeqNames(keys: set<string>, n: nat)
    requires n <= SEQ_LIMIT
    ensures forall k :: 0 <= k < |NamesBelow(keys, n)| ==> IsSeqName(NamesBelow(keys, n)[k])
    decreases n
  {
    if n > 0 {
      ListedNamesAreSeqNames(keys, n - 1);
      ListedIffBelowLimit(n - 1);
    }
  }

  lemma TopIsThere(dir: Dir)
    ensures FirstFree(dir) > 0 ==> SeqName(FirstFree(dir) - 1) in dir
  {
    var names := SeqFiles(dir);
    NamesMatchBodies(dir, SEQ_LIMIT);
    NextIsAboveAll(names);
    if FirstFree(dir) > 0 {
      var i :| 0 <= i < |names| && ValueOf(names[i]) == FirstFree(dir) - 1;
      ListedNamesAreSeqNames(dir.Keys, SEQ_LIMIT);
      ListedNameIsItsNumbers(names[i]);
    }
  }

  /**
   The next round starts numbering where this one stopped exactly when this one
   stayed within six digits. Past that it starts again at a number already
   used, and its files replace the earlier ones.
   */
  lemma NumberingContinuesIff(s: Round, steps: seq<Step>)
    requires Fresh(s) && Runs(s, steps) && Complete(Run(s, steps))
    ensures FirstFree(Run(s, steps).dir) == Run(s, steps).seqNo <==> Run(s, steps).seqNo <= SEQ_LIMIT
  {
    var t := Run(s, steps);
    FirstFreeIsFree(t.dir);
    FirstFreeIsFree(s.dir);
    FreshFiles(s);
    RunKeepsFiles(s, steps, s.dir, s.seqNo);
    if t.seqNo <= SEQ_LIMIT {
      LastNumberIsThere(t, s.dir);
      forall x | x in t.dir && IsSeqName(x) ensures ValueOf(x) < t.seqNo {
        OnlyOwnNumbersAreNew(t, s.dir, s.seqNo, x);
      }
      FirstFreeIs(t.dir, t.seqNo);
    }
  }

  lemma LastNumberIsThere(t: Round, dir0: Dir)
    requires FileInv(t, dir0, FirstFree(dir0)) && Complete(t) && t.seqNo <= SEQ_LIMIT
    ensures t.seqNo > 0 ==> SeqName(t.seqNo - 1) in t.dir
  {
    if |t.order| > 0 {
      CompletedNumber(t, dir0, FirstFree(dir0), |t.order| - 1);
    } else if t.seqNo > 0 {
      TopIsThere(dir0);
      ListedIffBelowLimit(t.seqNo - 1);
    }
  }

  /** The four steps of one invocation on its own. */
  function Alone(m: Message): seq<Step> {
    [Take(m), Number(0), WriteTemp(0), Rename(0)]
  }

  lemma AloneRuns(s: Round, m: Message)
    requires s.calls == [] && s.order == [] && !Verify(s.log, s.cap, m).Rejected?
    ensures Runs(s, Alone(m))
    ensures var t := Run(s, Alone(m));
            && t.log == s.log && t.cap == After(s.cap, Verify(s.log, s.cap, m))
            && t.calls == [Call(m, Renamed(s.seqNo))] && t.order == [0] && t.seqNo == s.seqNo + 1
            && t.dir == (s.dir - {TmpName(s.seqNo)})[SeqName(s.seqNo) := Encoded(m)]
  {
    hide SeqName, TmpName;
    var s1 := Next(s, Take(m));
    var s2 := Next(s1, Number(0));
    var s3 := Next(s2, WriteTemp(0));
    var s4 := Next(s3, Rename(0));
    assert s4.dir == (s.dir - {TmpName(s.seqNo)})[SeqName(s.seqNo) := Encoded(m)];
    var steps := Alone(m);
    assert steps[1..] == [Number(0), WriteTemp(0), Rename(0)];
    assert steps[1..][1..] == [WriteTemp(0), Rename(0)];
    assert steps[1..][1..][1..] == [Rename(0)];
    assert steps[1..][1..][1..][1..] == [];
    assert Runs(s4, []) && Run(s4, []) == s4;
    assert Runs(s3, [Rename(0)]) && Run(s3, [Rename(0)]) == s4;
    assert Runs(s2, [WriteTemp(0), Rename(0)]) && Run(s2, [WriteTemp(0), Rename(0)]) == s4;
    assert Runs(s1, steps[1..]) && Run(s1, steps[1..]) == s4;
  }

  // ---------------------------------------------------------------------
  // A round that is not exact
  // ---------------------------------------------------------------------

  /** An upgrade to length one, and the block it covers, taken beside it. */
  function LoneUpgrade(): Message {
    Message(FORK, Some(Upgrade(0, 1)), None)
  }

  function LoneBlock(b: Block): Message {
    Message(FORK, None, Some(Data(0, b)))
  }

  /** The block's invocation returns from `verify` first. */
  function OvertakingSteps(b: Block): seq<Step> {
    [Take(LoneUpgrade()), Take(LoneBlock(b)), Number(1), Number(0), WriteTemp(0), Rename(0), WriteTemp(1), Rename(1)]
  }

  function EmptyRound(b: Block): Round {
    Round([b], map[], EMPTY, 0, [], [])
  }

  lemma OvertakingRuns(b: Block)
    ensures Runs(EmptyRound(b), OvertakingSteps(b))
    ensures var t := Run(EmptyRound(b), OvertakingSteps(b));
            && t.calls == [Call(LoneUpgrade(), Renamed(1)), Call(LoneBlock(b), Renamed(0))]
            && t.order == [1, 0] && t.seqNo == 2 && t.log == [b] && t.cap == Replica(1, map[0 := b])
  {
    hide SeqName, TmpName;
    TmpNamesDiffer(0, 1);
    SeqNamesDiffer(1, 0);
    var steps := OvertakingSteps(b);
    var s0 := EmptyRound(b);
    var s1 := Next(s0, steps[0]);
    var s2 := Next(s1, steps[1]);
    var s3 := Next(s2, steps[2]);
    var s4 := Next(s3, steps[3]);
    var s5 := Next(s4, steps[4]);
    var s6 := Next(s5, steps[5]);
    var s7 := Next(s6, steps[6]);
    var s8 := Next(s7, steps[7]);
    RunsStep(s7, steps, 7, s8);
    RunsStep(s6, steps, 6, s8);
    RunsStep(s5, steps, 5, s8);
    RunsStep(s4, steps, 4, s8);
    RunsStep(s3, steps, 3, s8);
    RunsStep(s2, steps, 2, s8);
    RunsStep(s1, steps, 1, s8);
    RunsStep(s0, steps, 0, s8);
    assert steps[0..] == steps;
  }

  /** One more step in front of a run that is known. */
  lemma RunsStep(s: Round, steps: seq<Step>, k: nat, end: Round)
    requires k < |steps| && Enabled(s, steps[k])
    requires if k + 1 == |steps| then Next(s, steps[k]) == end
             else Runs(Next(s, steps[k]), steps[k + 1..]) && Run(Next(s, steps[k]), steps[k + 1..]) == end
    ensures Runs(s, steps[k..]) && Run(s, steps[k..]) == end
  {
    assert steps[k..][1..] == steps[k + 1..];
    if k + 1 == |steps| {
      assert steps[k + 1..] == [];
      assert Runs(end, []) && Run(end, []) == end;
    }
  }

  /**
   The case the need order rules out: a block covered only by an upgrade still
   inside `verify` takes its number first. Its file comes before the upgrade's,
   is skipped on replay, and a cold replica never gets the block.
   */
  lemma BlockBeforeItsUpgradeIsSkipped(b: Block)
    ensures Runs(EmptyRound(b), OvertakingSteps(b))
    ensures var t := Run(EmptyRound(b), OvertakingSteps(b));
            && Fresh(EmptyRound(b)) && Complete(t)
            && Hydrate(t.log, EMPTY, t.dir) == Replayed(Replica(1, map[]), 1, 1)
            && t.cap == Replica(1, map[0 := b])
  {
    hide SeqName, TmpName, BodiesBelow, NamesBelow;
    OvertakingRuns(b);
    FirstFreeIs(map[], 0);
    var s := EmptyRound(b);
    var t := Run(s, OvertakingSteps(b));
    FreshFiles(s);
    RunKeepsFiles(s, OvertakingSteps(b), s.dir, 0);
    RoundListing(t, s.dir, 0);
    EmptyFolder();
    var m, u := Encoded(LoneBlock(b)), Encoded(LoneUpgrade());
    assert Ordered(t.calls, t.order)[..2] == [m, u];
    assert Bodies(t.dir) == [m, u];
    assert [m, u][..1] == [m] && [m][..0] == [];
    assert Replay([b], EMPTY, [m]) == Replayed(EMPTY, 0, 1);
  }

  lemma EmptyFolder()
    ensures Bodies(map[]) == [] && SeqFiles(map[]) == []
  {
    NothingAbove(map[], 0, SEQ_LIMIT);
    NamesMatchBodies(map[], SEQ_LIMIT);
  }

  // ---------------------------------------------------------------------
  // A proof of another fork
  // ---------------------------------------------------------------------

  predicate AlreadyKnown(cap: Replica, m: Message) {
    m.upgrade.None? && (m.block.None? || m.block.value.index in cap.have)
  }

  /**
   Every proof `verify` resolves on costs a file that replay counts as applied.
   It leaves the capture replica as it was exactly when it is of another fork,
   or has no upgrade and no block the replica lacks.
   */
  lemma TappedProofCostsAFile(s: Round, m: Message)
    requires Fresh(s) && Exact(s.log, s.dir, s.cap) && Genuine(s.log, s.cap)
    requires s.seqNo < SEQ_LIMIT && !Verify(s.log, s.cap, m).Rejected?
    ensures Runs(s, Alone(m))
    ensures var t := Run(s, Alone(m));
            && Hydrate(t.log, EMPTY, t.dir) == Replayed(t.cap, |SeqFiles(s.dir)| + 1, 0)
            && (t.cap == s.cap <==> (m.fork != FORK || AlreadyKnown(s.cap, m)))
  {
    hide SeqName, TmpName, BodiesBelow, NamesBelow, Replay;
    AloneRuns(s, m);
    var t := Run(s, Alone(m));
    OneCallIsInNeedOrder(t, m);
    RoundIsExactIff(s, Alone(m));
    FreshFiles(s);
    RunKeepsFiles(s, Alone(m), s.dir, s.seqNo);
    RoundListing(t, s.dir, s.seqNo);
    NamesMatchBodies(s.dir, SEQ_LIMIT);
    NamesMatchBodies(t.dir, SEQ_LIMIT);
    assert m.block.Some? && m.block.value.index in s.cap.have && m.fork == FORK && m.upgrade.None? ==>
      s.cap.have[m.block.value.index := m.block.value.value] == s.cap.have;
  }

  lemma OneCallIsInNeedOrder(t: Round, m: Message)
    requires |t.calls| == 1 && t.order == [0]
    ensures InRange(t.calls, t.order) && NumberedInNeedOrder(t)
  {
  }

  /** So a proof of another fork is persisted, and counted as applied, for nothing. */
  lemma OtherForkCostsAFile(b: Block, fork: nat, upgrade: Option<Upgrade>, block: Option<Data>)
    requires fork != FORK
    ensures Runs(EmptyRound(b), Alone(Message(fork, upgrade, block)))
    ensures var t := Run(EmptyRound(b), Alone(Message(fork, upgrade, block)));
            && t.cap == EMPTY && SeqName(0) in t.dir
            && Hydrate(t.log, EMPTY, t.dir) == Replayed(EMPTY, 1, 0)
  {
    hide SeqName, TmpName, BodiesBelow, NamesBelow;
    EmptyFolder();
    FirstFreeIs(map[], 0);
    AloneRuns(EmptyRound(b), Message(fork, upgrade, block));
    TappedProofCostsAFile(EmptyRound(b), Message(fork, upgrade, block));
  }

  /** The round that follows a round ending in `s`. */
  function FollowUp(s: Round): Round {
    s.(seqNo := FirstFree(s.dir), calls := [], order := [])
  }

  /** From a full folder, two one-proof rounds take the same number, and the second replaces the first one's proof. */
  lemma PastTheLimitProofsAreReplaced(s: Round, m: Message, later: Message)
    requires Fresh(s) && s.seqNo == SEQ_LIMIT && !Verify(s.log, s.cap, m).Rejected?
    requires !Verify(s.log, After(s.cap, Verify(s.log, s.cap, m)), later).Rejected?
    ensures Runs(s, Alone(m)) && Runs(FollowUp(Run(s, Alone(m))), Alone(later))
    ensures var mid := Run(s, Alone(m));
            var end := Run(FollowUp(mid), Alone(later));
            && SeqName(SEQ_LIMIT) in mid.dir && mid.dir[SeqName(SEQ_LIMIT)] == Encoded(m)
            && SeqName(SEQ_LIMIT) in end.dir && end.dir[SeqName(SEQ_LIMIT)] == Encoded(later)
  {
    hide SeqName, TmpName;
    AloneRuns(s, m);
    var mid := Run(s, Alone(m));
    TmpNamesDiffer(SEQ_LIMIT, SEQ_LIMIT);
    StillFull(s.dir, mid.dir);
    AloneRuns(FollowUp(mid), later);
  }

  lemma StillFull(dir: Dir, after: Dir)
    requires FirstFree(dir) == SEQ_LIMIT
    requires forall x :: x in dir && IsSeqName(x) ==> x in after
    ensures FirstFree(after) == SEQ_LIMIT
  {
    TopIsThere(dir);
    SeqNameValue(SEQ_LIMIT - 1);
    ListedIffBelowLimit(SEQ_LIMIT - 1);
    forall x | x in after && IsSeqName(x) ensures ValueOf(x) < SEQ_LIMIT {
      ListedNameIsItsNumbers(x);
    }
    FirstFreeIs(after, SEQ_LIMIT);
  }

  /** One file with number 999999 makes a folder full, whatever the file holds. */
  lemma OneFileFillsTheFolder(body: FileBody)
    ensures FirstFree(map[SeqName(SEQ_LIMIT - 1) := body]) == SEQ_LIMIT
  {
    SeqNameValue(SEQ_LIMIT - 1);
    FirstFreeIs(map[SeqName(SEQ_LIMIT - 1) := body], SEQ_LIMIT);
  }
}
