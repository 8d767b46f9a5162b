/**
 One flush round: the tapped `verify` of the capture replica, running many
 invocations at once. Each invocation verifies its proof, takes a number,
 writes a temp file and renames it. The steps of different invocations, upgrades
 and blocks alike, interleave freely, and the writer may append meanwhile.
 */
module FlushRound {
  import opened Results
  import opened Strings
  import opened SeqNames
  import opened Sealing
  import opened Replicas
  import opened Transport

  /** How far one tapped invocation has come. */
  datatype Stage =
    | Verified            // the replica has taken the proof; `verify` has not returned yet
    | Numbered(n: nat)    // returned, and `seq++` done in the same turn
    | Staged(n: nat)      // `.tmp-<n>` written
    | Renamed(n: nat)     // renamed to its sequence name

  datatype Call = Call(msg: Message, stage: Stage)

  /** `calls` is in acceptance order; `order` lists calls in the order they took numbers. */
  datatype Round = Round(log: seq<Block>, dir: Dir, cap: Replica, seqNo: nat, calls: seq<Call>, order: seq<nat>)

  datatype Step =
    | Append(block: Block)   // the writer appends
    | Take(msg: Message)     // the capture replica verifies a proof
    | Number(i: nat)
    | WriteTemp(i: nat)
    | Rename(i: nat)

  predicate Waiting(c: Call) {
    c.stage.Verified?
  }

  predicate Enabled(s: Round, step: Step) {
    match step
    case Append(_) => true
    case Take(m) => !Verify(s.log, s.cap, m).Rejected?
    case Number(i) => i < |s.calls| && s.calls[i].stage.Verified?
    case WriteTemp(i) => i < |s.calls| && s.calls[i].stage.Numbered?
    case Rename(i) => i < |s.calls| && s.calls[i].stage.Staged? && TmpName(s.calls[i].stage.n) in s.dir
  }

  function SetStage(calls: seq<Call>, i: nat, stage: Stage): seq<Call>
    requires i < |calls|
  {
    calls[i := calls[i].(stage := stage)]
  }

  function Next(s: Round, step: Step): Round
    requires Enabled(s, step)
  {
    match step
    case Append(b) => s.(log := s.log + [b])
    case Take(m) => s.(cap := After(s.cap, Verify(s.log, s.cap, m)), calls := s.calls + [Call(m, Verified)])
    case Number(i) =>
      s.(seqNo := s.seqNo + 1, calls := SetStage(s.calls, i, Numbered(s.seqNo)), order := s.order + [i])
    case WriteTemp(i) =>
      var n := s.calls[i].stage.n;
      s.(dir := s.dir[TmpName(n) := Encoded(s.calls[i].msg)], calls := SetStage(s.calls, i, Staged(n)))
    case Rename(i) =>
      var n := s.calls[i].stage.n;
      s.(dir := (s.dir - {TmpName(n)})[SeqName(n) := s.dir[TmpName(n)]],
         calls := SetStage(s.calls, i, Renamed(n)))
  }

  /** The steps of a schedule can be taken one after another. */
  predicate Runs(s: Round, steps: seq<Step>)
    decreases |steps|
  {
    steps == [] || (Enabled(s, steps[0]) && Runs(Next(s, steps[0]), steps[1..]))
  }

  function Run(s: Round, steps: seq<Step>): Round
    requires Runs(s, steps)
    decreases |steps|
  {
    if steps == [] then s else Run(Next(s, steps[0]), steps[1..])
  }

  /** A round starts with nothing in flight. */
  predicate Fresh(s: Round) {
    s.calls == [] && s.order == [] && s.seqNo == FirstFree(s.dir)
  }

  /** Every tapped invocation has renamed its file. */
  predicate Complete(s: Round) {
    forall c :: c in s.calls ==> c.stage.Renamed?
  }

  // ---------------------------------------------------------------------
  // Numbers and files
  // ---------------------------------------------------------------------

  /** The `j`-th call to take a number took `first + j`. */
  ghost predicate TookNumber(s: Round, first: nat, j: nat)
    requires j < |s.order|
  {
    && s.order[j] < |s.calls|
    && !s.calls[s.order[j]].stage.Verified?
    && s.calls[s.order[j]].stage.n == first + j
  }

  /** A call that has a number is the one recorded for that number. */
  ghost predicate HasSlot(s: Round, first: nat, i: nat)
    requires i < |s.calls|
  {
    !s.calls[i].stage.Verified? ==>
      && first <= s.calls[i].stage.n < first + |s.order|
      && s.order[s.calls[i].stage.n - first] == i
  }

  ghost predicate NumbersInOrder(s: Round, first: nat) {
    && s.seqNo == first + |s.order|
    && (forall j :: 0 <= j < |s.order| ==> TookNumber(s, first, j))
    && (forall i :: 0 <= i < |s.calls| ==> HasSlot(s, first, i))
  }

  /** What an invocation has written is there, under its temp name or its final name. */
  ghost predicate FileWritten(dir: Dir, c: Call) {
    && (c.stage.Staged? ==> TmpName(c.stage.n) in dir && dir[TmpName(c.stage.n)] == Encoded(c.msg))
    && (c.stage.Renamed? ==> SeqName(c.stage.n) in dir && dir[SeqName(c.stage.n)] == Encoded(c.msg))
  }

  ghost predicate FilesWritten(s: Round) {
    forall i :: 0 <= i < |s.calls| ==> FileWritten(s.dir, s.calls[i])
  }

  /** The sequence file `x` was renamed by the call that took its number. */
  ghost predicate RenamedHere(s: Round, first: nat, x: string)
    requires AllDigits(x)
  {
    && first <= ValueOf(x) < first + |s.order|
    && s.order[ValueOf(x) - first] < |s.calls|
    && s.calls[s.order[ValueOf(x) - first]].stage == Renamed(ValueOf(x))
  }

  /** The sequence files are the old ones, untouched, and those renamed by this round. */
  ghost predicate OldFilesKept(s: Round, dir0: Dir, first: nat) {
    && (forall x :: x in dir0 && IsSeqName(x) ==> x in s.dir && s.dir[x] == dir0[x] && ValueOf(x) < first)
    && (forall x :: x in s.dir && IsSeqName(x) && x !in dir0 ==> RenamedHere(s, first, x))
  }

  ghost predicate FileInv(s: Round, dir0: Dir, first: nat) {
    NumbersInOrder(s, first) && FilesWritten(s) && OldFilesKept(s, dir0, first)
  }

  lemma FreshFiles(s: Round)
    requires Fresh(s)
    ensures FileInv(s, s.dir, s.seqNo)
  {
    FirstFreeIsFree(s.dir);
  }

  lemma NumberKeepsNumbers(s: Round, i: nat, first: nat)
    requires NumbersInOrder(s, first) && Enabled(s, Number(i))
    ensures NumbersInOrder(Next(s, Number(i)), first)
  {
    hide TmpName, SeqName;
    var t := Next(s, Number(i));
    forall j | 0 <= j < |t.order| ensures TookNumber(t, first, j) {
      assert j < |s.order| ==> TookNumber(s, first, j);
    }
    forall k | 0 <= k < |t.calls| ensures HasSlot(t, first, k) {
      assert HasSlot(s, first, k);
    }
  }

  lemma TakeKeepsNumbers(s: Round, t: Round, m: Message, first: nat)
    requires NumbersInOrder(s, first)
    requires t.calls == s.calls + [Call(m, Verified)] && t.order == s.order && t.seqNo == s.seqNo
    ensures NumbersInOrder(t, first)
  {
    forall j | 0 <= j < |t.order| ensures TookNumber(t, first, j) {
      assert TookNumber(s, first, j);
    }
    forall k | 0 <= k < |t.calls| ensures HasSlot(t, first, k) {
      assert k < |s.calls| ==> HasSlot(s, first, k);
    }
  }

  /** Moving on to a later stage keeps an invocation's number. */
  lemma AdvanceKeepsNumbers(s: Round, t: Round, i: nat, stage: Stage, first: nat)
    requires NumbersInOrder(s, first)
    requires i < |s.calls| && !s.calls[i].stage.Verified?
    requires !stage.Verified? && stage.n == s.calls[i].stage.n
    requires t.calls == SetStage(s.calls, i, stage) && t.order == s.order && t.seqNo == s.seqNo
    ensures NumbersInOrder(t, first)
  {
    forall j | 0 <= j < |t.order| ensures TookNumber(t, first, j) {
      assert TookNumber(s, first, j);
    }
    forall k | 0 <= k < |t.calls| ensures HasSlot(t, first, k) {
      assert HasSlot(s, first, k);
    }
  }

  /** Two invocations that have numbers have different ones, and different names. */
  lemma OwnNumber(s: Round, first: nat, i: nat, k: nat)
    requires NumbersInOrder(s, first)
    requires i < |s.calls| && k < |s.calls| && i != k
    requires !s.calls[i].stage.Verified? && !s.calls[k].stage.Verified?
    ensures s.calls[i].stage.n != s.calls[k].stage.n
    ensures TmpName(s.calls[i].stage.n) != TmpName(s.calls[k].stage.n)
    ensures SeqName(s.calls[i].stage.n) != SeqName(s.calls[k].stage.n)
  {
    assert HasSlot(s, first, i) && HasSlot(s, first, k);
    TmpNamesDiffer(s.calls[i].stage.n, s.calls[k].stage.n);
    SeqNamesDiffer(s.calls[i].stage.n, s.calls[k].stage.n);
  }

  /** Another invocation's files are not touched by writing or renaming under the number of `i`. */
  lemma OthersAreKept(s: Round, t: Round, first: nat, i: nat)
    requires NumbersInOrder(s, first) && FilesWritten(s)
    requires i < |s.calls| && !s.calls[i].stage.Verified?
    requires forall x :: x != TmpName(s.calls[i].stage.n) && x != SeqName(s.calls[i].stage.n) ==>
               (x in t.dir <==> x in s.dir) && (x in s.dir ==> t.dir[x] == s.dir[x])
    ensures forall k :: 0 <= k < |s.calls| && k != i ==> FileWritten(t.dir, s.calls[k])
  {
    hide SeqName, TmpName;
    forall k | 0 <= k < |s.calls| && k != i && !s.calls[k].stage.Verified?
      ensures FileWritten(t.dir, s.calls[k])
    {
      OwnNumber(s, first, i, k);
      SeqNamesDiffer(s.calls[k].stage.n, s.calls[i].stage.n);
      SeqNamesDiffer(s.calls[i].stage.n, s.calls[k].stage.n);
      assert FileWritten(s.dir, s.calls[k]);
    }
  }

  /** A file renamed earlier stays the file of its call when call `i`, not yet renamed, moves on. */
  lemma RenamedStays(s: Round, t: Round, i: nat, stage: Stage, first: nat, x: string)
    requires AllDigits(x) && RenamedHere(s, first, x)
    requires i < |s.calls| && !s.calls[i].stage.Renamed?
    requires t.calls == SetStage(s.calls, i, stage) && s.order <= t.order
    ensures RenamedHere(t, first, x)
  {
  }

  lemma NumberKeepsFiles(s: Round, i: nat, dir0: Dir, first: nat)
    requires FileInv(s, dir0, first) && Enabled(s, Number(i))
    ensures FileInv(Next(s, Number(i)), dir0, first)
  {
    hide SeqName, TmpName;
    var t := Next(s, Number(i));
    NumberKeepsNumbers(s, i, first);
    forall k | 0 <= k < |t.calls| ensures FileWritten(t.dir, t.calls[k]) {
      assert FileWritten(s.dir, s.calls[k]);
    }
    forall x | x in t.dir && IsSeqName(x) && x !in dir0 ensures RenamedHere(t, first, x) {
      RenamedStays(s, t, i, t.calls[i].stage, first, x);
    }
  }

  lemma WriteTempKeepsFiles(s: Round, i: nat, dir0: Dir, first: nat)
    requires FileInv(s, dir0, first) && Enabled(s, WriteTemp(i))
    ensures FileInv(Next(s, WriteTemp(i)), dir0, first)
  {
    hide SeqName, TmpName;
    var t := Next(s, WriteTemp(i));
    var n := s.calls[i].stage.n;
    AdvanceKeepsNumbers(s, t, i, Staged(n), first);
    OthersAreKept(s, t, first, i);
    forall k | 0 <= k < |t.calls| ensures FileWritten(t.dir, t.calls[k]) {
      assert k != i ==> t.calls[k] == s.calls[k];
    }
    TmpNamesDiffer(n, n);
    forall x | x in t.dir && IsSeqName(x) && x !in dir0 ensures RenamedHere(t, first, x) {
      RenamedStays(s, t, i, Staged(n), first, x);
    }
  }

  lemma RenameKeepsOldFiles(s: Round, i: nat, dir0: Dir, first: nat)
    requires FileInv(s, dir0, first) && Enabled(s, Rename(i))
    ensures OldFilesKept(Next(s, Rename(i)), dir0, first)
  {
    hide SeqName, TmpName;
    var t := Next(s, Rename(i));
    var n := s.calls[i].stage.n;
    TmpNamesDiffer(n, n);
    SeqNameValue(n);
    assert HasSlot(s, first, i);
    forall x | x in dir0 && IsSeqName(x) ensures x in t.dir && t.dir[x] == dir0[x] {
      assert ValueOf(x) < first;
    }
    forall x | x in t.dir && IsSeqName(x) && x !in dir0 ensures RenamedHere(t, first, x) {
      if x != SeqName(n) {
        RenamedStays(s, t, i, Renamed(n), first, x);
      }
    }
  }

  lemma RenameKeepsFiles(s: Round, i: nat, dir0: Dir, first: nat)
    requires FileInv(s, dir0, first) && Enabled(s, Rename(i))
    ensures FileInv(Next(s, Rename(i)), dir0, first)
  {
    hide SeqName, TmpName;
    var t := Next(s, Rename(i));
    AdvanceKeepsNumbers(s, t, i, Renamed(s.calls[i].stage.n), first);
    OthersAreKept(s, t, first, i);
    assert FileWritten(s.dir, s.calls[i]);
    forall k | 0 <= k < |t.calls| ensures FileWritten(t.dir, t.calls[k]) {
      assert k != i ==> t.calls[k] == s.calls[k];
    }
    RenameKeepsOldFiles(s, i, dir0, first);
  }

  lemma AppendKeepsFiles(s: Round, t: Round, dir0: Dir, first: nat)
    requires FileInv(s, dir0, first) && t.(log := s.log) == s
    ensures FileInv(t, dir0, first)
  {
    hide SeqName, TmpName;
    forall j | 0 <= j < |t.order| ensures TookNumber(t, first, j) {
      assert TookNumber(s, first, j);
    }
    forall k | 0 <= k < |t.calls| ensures HasSlot(t, first, k) {
      assert HasSlot(s, first, k);
    }
    forall x | x in t.dir && IsSeqName(x) && x !in dir0 ensures RenamedHere(t, first, x) {
      assert RenamedHere(s, first, x);
    }
  }

  lemma StepKeepsFiles(s: Round, step: Step, dir0: Dir, first: nat)
    requires FileInv(s, dir0, first) && Enabled(s, step)
    ensures FileInv(Next(s, step), dir0, first)
  {
    hide SeqName, TmpName;
    match step
    case Append(_) => AppendKeepsFiles(s, Next(s, step), dir0, first);
    case Take(m) =>
      var t := Next(s, step);
      TakeKeepsNumbers(s, t, m, first);
      forall k | 0 <= k < |t.calls| ensures FileWritten(t.dir, t.calls[k]) {
        assert k < |s.calls| ==> FileWritten(s.dir, s.calls[k]);
      }
      forall x | x in t.dir && IsSeqName(x) && x !in dir0 ensures RenamedHere(t, first, x) {
        assert RenamedHere(s, first, x);
      }
    case Number(i) => NumberKeepsFiles(s, i, dir0, first);
    case WriteTemp(i) => WriteTempKeepsFiles(s, i, dir0, first);
    case Rename(i) => RenameKeepsFiles(s, i, dir0, first);
  }

  lemma {:induction false} RunKeepsFiles(s: Round, steps: seq<Step>, dir0: Dir, first: nat)
    requires FileInv(s, dir0, first) && Runs(s, steps)
    ensures FileInv(Run(s, steps), dir0, first)
    decreases |steps|
  {
    if steps != [] {
      StepKeepsFiles(s, steps[0], dir0, first);
      RunKeepsFiles(Next(s, steps[0]), steps[1..], dir0, first);
    }
  }

  /** In every interleaving, two invocations never share a number, a temp name or a final name. */
  lemma NoTwoCallsCollide(s: Round, steps: seq<Step>)
    requires Fresh(s) && Runs(s, steps)
    ensures var t := Run(s, steps);
            forall i, j :: 0 <= i < j < |t.calls| && !t.calls[i].stage.Verified? && !t.calls[j].stage.Verified? ==>
              && t.calls[i].stage.n != t.calls[j].stage.n
              && TmpName(t.calls[i].stage.n) != TmpName(t.calls[j].stage.n)
              && SeqName(t.calls[i].stage.n) != SeqName(t.calls[j].stage.n)
  {
    hide SeqName, TmpName;
    FreshFiles(s);
    RunKeepsFiles(s, steps, s.dir, s.seqNo);
    var t := Run(s, steps);
    forall i, j | 0 <= i < j < |t.calls| && !t.calls[i].stage.Verified? && !t.calls[j].stage.Verified?
      ensures
        && t.calls[i].stage.n != t.calls[j].stage.n
        && TmpName(t.calls[i].stage.n) != TmpName(t.calls[j].stage.n)
        && SeqName(t.calls[i].stage.n) != SeqName(t.calls[j].stage.n)
    {
      OwnNumber(t, s.seqNo, i, j);
    }
  }

  lemma StepReplacesNothing(t: Round, step: Step, dir0: Dir, first: nat)
    requires FileInv(t, dir0, first) && Enabled(t, step)
    ensures var u := Next(t, step);
            forall x :: x in t.dir && IsSeqName(x) ==> x in u.dir && u.dir[x] == t.dir[x]
  {
    hide SeqName, TmpName;
    var u := Next(t, step);
    StepKeepsFiles(t, step, dir0, first);
    forall x | x in t.dir && IsSeqName(x) && x !in dir0 ensures x in u.dir && u.dir[x] == t.dir[x] {
      ListedNameIsItsNumbers(x);
      var i := t.order[ValueOf(x) - first];
      assert t.calls[i].stage.Renamed? && t.calls[i].stage.n == ValueOf(x);
      assert FileWritten(t.dir, t.calls[i]) && FileWritten(u.dir, u.calls[i]);
      assert u.calls[i] == t.calls[i];
    }
  }

  /**
   No step of any interleaving replaces a sequence file: neither one that was
   there before the round nor one the round has written.
   */
  lemma NoFileIsReplaced(s: Round, before: seq<Step>, step: Step)
    requires Fresh(s) && Runs(s, before) && Enabled(Run(s, before), step)
    ensures var t := Run(s, before);
            var u := Next(t, step);
            && (forall x :: x in s.dir && IsSeqName(x) ==> x in t.dir && t.dir[x] == s.dir[x])
            && (forall x :: x in t.dir && IsSeqName(x) ==> x in u.dir && u.dir[x] == t.dir[x])
            && (forall i :: 0 <= i < |t.calls| && t.calls[i].stage.Renamed? ==>
                  && SeqName(t.calls[i].stage.n) in u.dir
                  && u.dir[SeqName(t.calls[i].stage.n)] == Encoded(t.calls[i].msg))
  {
    hide SeqName, TmpName;
    FreshFiles(s);
    RunKeepsFiles(s, before, s.dir, s.seqNo);
    var t := Run(s, before);
    var u := Next(t, step);
    StepKeepsFiles(t, step, s.dir, s.seqNo);
    StepReplacesNothing(t, step, s.dir, s.seqNo);
    forall i | 0 <= i < |t.calls| && t.calls[i].stage.Renamed?
      ensures FileWritten(u.dir, u.calls[i]) && u.calls[i] == t.calls[i]
    {
    }
  }
}
