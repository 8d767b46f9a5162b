/**
 Whole histories of one log's transport form: the writer appends, flush rounds
 run to completion, the capture replica is lost and rebuilt, sync engines leave
 other files beside the sequence files.
 */
module TransportHistory {
  import opened Results
  import opened Strings
  import opened SeqNames
  import opened Sealing
  import opened Replicas
  import opened Transport
  import opened FlushOrder
  import opened FlushRound
  import opened FlushExact

  /** `covered` records the capture replica as of the last completed flush. */
  datatype World = World(log: seq<Block>, dir: Dir, cap: Replica, covered: Replica)

  datatype Event =
    | Write(block: Block)
    | Flush(steps: seq<Step>)
    | LoseCapture
    | Clutter(name: string, body: FileBody)

  /** A folder no flush has written to yet. */
  ghost predicate Initial(w: World) {
    && (forall name :: name in w.dir ==> !IsSeqName(name))
    && w.cap == EMPTY && w.covered == EMPTY
  }

  // ---------------------------------------------------------------------
  // flushLogToDir as a transition
  // ---------------------------------------------------------------------

  /** The capture replica after the rebuild a lost one gets from the folder. */
  function Rebuilt(w: World): Replica {
    if w.cap.length == 0 && SeqFiles(w.dir) != [] then Hydrate(w.log, w.cap, w.dir).replica else w.cap
  }

  /** The flush gets past its early returns and replicates. */
  predicate Replicates(w: World) {
    |w.log| > 0 && Rebuilt(w).length < |w.log|
  }

  function RoundStart(w: World): Round {
    Round(w.log, w.dir, Rebuilt(w), FirstFree(w.dir), [], [])
  }

  /** What the replication streams do while this flush runs: nothing when it does not replicate. */
  predicate Schedulable(w: World, steps: seq<Step>) {
    if Replicates(w) then Runs(RoundStart(w), steps) else steps == []
  }

  /** The state when the flush returns, whether or not every invocation has renamed by then. */
  function AfterFlush(w: World, steps: seq<Step>): World
    requires Schedulable(w, steps)
  {
    if |w.log| == 0 then w
    else if Replicates(w) then
      var t := Run(RoundStart(w), steps);
      World(t.log, t.dir, t.cap, t.cap)
    else w.(cap := Rebuilt(w), covered := Rebuilt(w))
  }

  /** A completed round: every invocation renamed, and `download` of the log as it was has finished. */
  predicate CompletesRound(w: World, steps: seq<Step>) {
    && Runs(RoundStart(w), steps)
    && Complete(Run(RoundStart(w), steps))
    && HoldsBelow(Run(RoundStart(w), steps).cap, |w.log|)
  }

  predicate Possible(w: World, e: Event) {
    match e
    case Write(_) => true
    case Flush(steps) => if Replicates(w) then CompletesRound(w, steps) else steps == []
    case LoseCapture => true
    case Clutter(name, _) => !IsSeqName(name)
  }

  function Apply(w: World, e: Event): World
    requires Possible(w, e)
  {
    match e
    case Write(b) => w.(log := w.log + [b])
    case Flush(steps) => AfterFlush(w, steps)
    case LoseCapture => w.(cap := EMPTY)
    case Clutter(name, body) => w.(dir := w.dir[name := body])
  }

  /** The highest number ever used stays at or below 999999. */
  predicate FitsSixDigits(w: World, e: Event)
    requires Possible(w, e)
  {
    e.Flush? && Replicates(w) ==> Run(RoundStart(w), e.steps).seqNo <= SEQ_LIMIT
  }

  /** No proof of the round took its number before an upgrade it needs. */
  predicate MeetsNeeds(w: World, e: Event)
    requires Possible(w, e)
  {
    e.Flush? && Replicates(w) ==>
      InRange(Run(RoundStart(w), e.steps).calls, Run(RoundStart(w), e.steps).order)
      && NumberedInNeedOrder(Run(RoundStart(w), e.steps))
  }

  /** A flush whose folder hydrates into its capture replica: see `FlushKeepsExactIff`. */
  predicate Sound(w: World, e: Event)
    requires Possible(w, e)
  {
    FitsSixDigits(w, e) && MeetsNeeds(w, e)
  }

  predicate PossibleAll(w: World, events: seq<Event>)
    decreases |events|
  {
    events == [] ||
    (Possible(w, events[0]) && Sound(w, events[0]) && PossibleAll(Apply(w, events[0]), events[1..]))
  }

  function ApplyAll(w: World, events: seq<Event>): World
    requires PossibleAll(w, events)
    decreases |events|
  {
    if events == [] then w else ApplyAll(Apply(w, events[0]), events[1..])
  }

  // ---------------------------------------------------------------------
  // The folder stays exact
  // ---------------------------------------------------------------------

  ghost predicate FolderInv(w: World) {
    && Genuine(w.log, w.covered)
    && Exact(w.log, w.dir, w.covered)
    && (w.cap == w.covered || w.cap == EMPTY)
  }

  lemma InitiallyExact(w: World)
    requires Initial(w)
    ensures FolderInv(w)
  {
    hide SeqName;
    forall k: nat | k < SEQ_LIMIT ensures SeqName(k) !in w.dir {
      ListedIffBelowLimit(k);
    }
    NothingAbove(w.dir, 0, SEQ_LIMIT);
    NamesMatchBodies(w.dir, SEQ_LIMIT);
  }

  /** A capture replica that was lost is rebuilt to exactly what it was. */
  lemma RebuildRecovers(w: World)
    requires FolderInv(w)
    ensures Rebuilt(w) == w.covered
  {
    NamesMatchBodies(w.dir, SEQ_LIMIT);
    if w.cap.length == 0 {
      assert w.cap == w.covered ==> w.covered.have == map[];
      assert w.cap == EMPTY;
    }
  }

  /**
   Over every interleaving of a completed round within six digits: the folder
   stays exact if and only if the round met every need.
   */
  lemma FlushKeepsExactIff(w: World, steps: seq<Step>)
    requires FolderInv(w) && Possible(w, Flush(steps)) && FitsSixDigits(w, Flush(steps))
    ensures FolderInv(Apply(w, Flush(steps))) <==> MeetsNeeds(w, Flush(steps))
    ensures |w.log| > 0 ==> Apply(w, Flush(steps)).cap == Apply(w, Flush(steps)).covered
    ensures Extends(w.covered, Apply(w, Flush(steps)).covered)
  {
    hide Exact, NumberedInNeedOrder;
    RebuildRecovers(w);
    if Replicates(w) {
      RunGrows(RoundStart(w), steps);
      RoundIsExactIff(RoundStart(w), steps);
    }
  }

  lemma FlushKeepsExact(w: World, steps: seq<Step>)
    requires FolderInv(w) && Possible(w, Flush(steps)) && Sound(w, Flush(steps))
    ensures FolderInv(Apply(w, Flush(steps)))
    ensures |w.log| > 0 ==> Apply(w, Flush(steps)).cap == Apply(w, Flush(steps)).covered
    ensures Extends(w.covered, Apply(w, Flush(steps)).covered)
  {
    hide FolderInv, MeetsNeeds, Apply;
    FlushKeepsExactIff(w, steps);
  }

  /** A lock on upgrades meets every need. */
  lemma GuardedFlushMeetsNeeds(w: World, steps: seq<Step>)
    requires Possible(w, Flush(steps))
    requires Replicates(w) ==> AllGuarded(RoundStart(w), steps)
    ensures MeetsNeeds(w, Flush(steps))
  {
    if Replicates(w) {
      GuardedIsInNeedOrder(RoundStart(w), steps);
    }
  }

  lemma OneCallMeetsNeeds(w: World, steps: seq<Step>)
    requires Possible(w, Flush(steps))
    requires Replicates(w) ==>
      |Run(RoundStart(w), steps).calls| == 1 && Run(RoundStart(w), steps).order == [0]
    ensures MeetsNeeds(w, Flush(steps))
  {
  }

  lemma WriteKeepsExact(w: World, b: Block)
    requires FolderInv(w)
    ensures FolderInv(Apply(w, Write(b)))
  {
    hide SeqName, BodiesBelow, NamesBelow;
    CleanReplayIsStable(w.log, w.log + [b], EMPTY, Bodies(w.dir));
  }

  lemma ClutterKeepsExact(w: World, name: string, body: FileBody)
    requires FolderInv(w) && !IsSeqName(name)
    ensures FolderInv(Apply(w, Clutter(name, body)))
  {
    hide SeqName, BodiesBelow, NamesBelow;
    var dir' := w.dir[name := body];
    ClutterIsIgnored(w.log, EMPTY, w.dir, name, body);
    HydrationIsSafe(w.log, EMPTY, w.dir);
    HydrationIsSafe(w.log, EMPTY, dir');
  }

  lemma EventKeepsExact(w: World, e: Event)
    requires FolderInv(w) && Possible(w, e) && Sound(w, e)
    ensures FolderInv(Apply(w, e))
    ensures Extends(w.covered, Apply(w, e).covered)
  {
    match e
    case Write(b) => WriteKeepsExact(w, b);
    case Flush(steps) => FlushKeepsExact(w, steps);
    case LoseCapture =>
    case Clutter(name, body) => ClutterKeepsExact(w, name, body);
  }

  /**
   Flush then hydrate is exact, over every history of appends, completed
   rounds that met every need, lost captures and foreign files: a cold replica
   applies every sequence file, skips none, and ends as the capture replica
   ended the last flush.
   */
  lemma {:induction false} FlushThenHydrateIsExact(w: World, events: seq<Event>)
    requires FolderInv(w) && PossibleAll(w, events)
    ensures FolderInv(ApplyAll(w, events))
    ensures Extends(w.covered, ApplyAll(w, events).covered)
    decreases |events|
  {
    if events != [] {
      EventKeepsExact(w, events[0]);
      FlushThenHydrateIsExact(Apply(w, events[0]), events[1..]);
    }
  }

  // ---------------------------------------------------------------------
  // What a completed flush covers
  // ---------------------------------------------------------------------

  /**
   A flush that returned has put every block of the log as it was at the start
   into the folder exactly when it replicated, or its capture replica had no
   gap. The early return compares lengths only.
   */
  lemma FlushCoversIff(w: World, steps: seq<Step>)
    requires FolderInv(w) && Possible(w, Flush(steps)) && Sound(w, Flush(steps)) && |w.log| > 0
    ensures var v := Apply(w, Flush(steps));
            HoldsBelow(Hydrate(v.log, EMPTY, v.dir).replica, |w.log|) <==>
              Rebuilt(w).length < |w.log| || ContiguousLength(Rebuilt(w)) >= |w.log|
  {
    RebuildRecovers(w);
    FlushKeepsExact(w, steps);
    if !Replicates(w) {
      ContiguousCovers(Rebuilt(w), |w.log|);
    }
  }

  /** A capture replica that holds every block it knows of. */
  ghost predicate NoGap(r: Replica) {
    HoldsBelow(r, r.length)
  }

  predicate NoAppend(steps: seq<Step>) {
    forall k :: 0 <= k < |steps| ==> !steps[k].Append?
  }

  lemma {:induction false} QuietRunKeepsLog(s: Round, steps: seq<Step>)
    requires Runs(s, steps) && NoAppend(steps)
    ensures Run(s, steps).log == s.log
    decreases |steps|
  {
    if steps != [] {
      assert !steps[0].Append?;
      QuietRunKeepsLog(Next(s, steps[0]), steps[1..]);
    }
  }

  /** While the writer is quiet during rounds, no gap ever forms and every completed flush covers the whole log. */
  lemma QuietFlushCoversAll(w: World, steps: seq<Step>)
    requires FolderInv(w) && NoGap(w.covered)
    requires Possible(w, Flush(steps)) && Sound(w, Flush(steps)) && NoAppend(steps)
    ensures var v := Apply(w, Flush(steps));
            NoGap(v.covered) && v.log == w.log && HoldsBelow(Hydrate(v.log, EMPTY, v.dir).replica, |v.log|)
  {
    RebuildRecovers(w);
    FlushKeepsExact(w, steps);
    if Replicates(w) {
      QuietRunKeepsLog(RoundStart(w), steps);
    }
  }

  /** The writer appends while the first flush runs, and the upgrade reaches the new length. */
  function OutrunSteps(b0: Block, b1: Block): seq<Step> {
    [Append(b1)] + Alone(Message(FORK, Some(Upgrade(0, 2)), Some(Data(0, b0))))
  }

  lemma OutrunRuns(b0: Block, b1: Block)
    ensures var w := World([b0], map[], EMPTY, EMPTY);
            && Initial(w) && Replicates(w)
            && CompletesRound(w, OutrunSteps(b0, b1)) && Sound(w, Flush(OutrunSteps(b0, b1)))
            && var v := Apply(w, Flush(OutrunSteps(b0, b1)));
            v.log == [b0, b1] && v.cap == Replica(2, map[0 := b0])
  {
    hide SeqName, TmpName, BodiesBelow, NamesBelow;
    var w := World([b0], map[], EMPTY, EMPTY);
    var m := Message(FORK, Some(Upgrade(0, 2)), Some(Data(0, b0)));
    InitiallyExact(w);
    RebuildRecovers(w);
    FirstFreeIs(w.dir, 0);
    var s := Next(RoundStart(w), Append(b1));
    AloneRuns(s, m);
    assert OutrunSteps(b0, b1)[1..] == Alone(m);
    assert Run(RoundStart(w), OutrunSteps(b0, b1)) == Run(s, Alone(m));
    OneCallMeetsNeeds(w, OutrunSteps(b0, b1));
  }

  /**
   The concrete gap: the next flush returns at once, reporting a length of two,
   and the folder yields one block of two.
   */
  lemma EarlyReturnCanLeaveAGap(b0: Block, b1: Block)
    ensures var w := World([b0], map[], EMPTY, EMPTY);
            && CompletesRound(w, OutrunSteps(b0, b1))
            && Replicates(w)
            && var v := Apply(w, Flush(OutrunSteps(b0, b1)));
            && Possible(v, Flush([]))
            && var u := Apply(v, Flush([]));
            && Rebuilt(v).length == |u.log| == 2
            && ContiguousLength(Hydrate(u.log, EMPTY, u.dir).replica) == 1
  {
    OutrunRuns(b0, b1);
    var w := World([b0], map[], EMPTY, EMPTY);
    InitiallyExact(w);
    FlushKeepsExact(w, OutrunSteps(b0, b1));
    hide BodiesBelow, NamesBelow;
    var v := Apply(w, Flush(OutrunSteps(b0, b1)));
    RebuildRecovers(v);
    ContiguousIsHeld(v.covered, 0);
  }

  // ---------------------------------------------------------------------
  // Copies of the folder
  // ---------------------------------------------------------------------

  /** The two directories have the same sequence files with numbers below `n`. */
  ghost predicate AgreeBelow(a: Dir, b: Dir, n: nat) {
    forall k: nat :: k < n ==>
      (SeqName(k) in a <==> SeqName(k) in b) && (SeqName(k) in a ==> a[SeqName(k)] == b[SeqName(k)])
  }

  /**
   A copy that is intact up to number `n` and anything beyond it yields at
   least what the first `n` numbers of the original yield.
   */
  lemma IntactPrefixIsRecovered(log: seq<Block>, original: Dir, copy: Dir, n: nat)
    requires AgreeBelow(original, copy, n) && n <= SEQ_LIMIT
    ensures Extends(Replay(log, EMPTY, BodiesBelow(original, n)).replica, Hydrate(log, EMPTY, copy).replica)
  {
    SameFilesSameBodies(original, copy, n);
    var later := LaterBodies(copy, n, SEQ_LIMIT);
    ReplayOfConcat(log, EMPTY, BodiesBelow(copy, n), later);
    ReplayIsSafe(log, EMPTY, BodiesBelow(copy, n));
    ReplayIsSafe(log, Replay(log, EMPTY, BodiesBelow(copy, n)).replica, later);
  }

  lemma {:induction false} LaterBodies(dir: Dir, m: nat, n: nat) returns (later: seq<FileBody>)
    requires m <= n
    ensures BodiesBelow(dir, n) == BodiesBelow(dir, m) + later
    decreases n
  {
    if m == n {
      later := [];
    } else {
      later := LaterBodies(dir, m, n - 1);
      later := later + if SeqName(n - 1) in dir then [dir[SeqName(n - 1)]] else [];
    }
  }

  /** An intact copy hydrates into exactly the replica the last flush left. */
  lemma IntactCopyIsExact(w: World, copy: Dir)
    requires FolderInv(w) && AgreeBelow(w.dir, copy, SEQ_LIMIT)
    ensures Hydrate(w.log, EMPTY, copy) == Replayed(w.covered, |SeqFiles(copy)|, 0)
  {
    SameFilesSameBodies(w.dir, copy, SEQ_LIMIT);
    NamesMatchBodies(w.dir, SEQ_LIMIT);
    NamesMatchBodies(copy, SEQ_LIMIT);
  }

  // ---------------------------------------------------------------------
  // flushLogToDir
  // ---------------------------------------------------------------------

  datatype FlushResult = FlushResult(written: nat, length: nat)

  class Flusher {
    var log: seq<Block>
    var dir: Dir
    var cap: Replica

    constructor (log: seq<Block>, dir: Dir, cap: Replica)
      ensures this.log == log && this.dir == dir && this.cap == cap
    {
      this.log := log;
      this.dir := dir;
      this.cap := cap;
    }

    /**
     One flush. `names` is what `readdir` returns; `schedule` is what the
     replication streams and the event loop do while the round runs, down to
     the order in which tapped invocations resume. Some may not have renamed
     their file yet when the download is done and the flush returns.
     */
    method FlushLogToDir(names: seq<string>, schedule: seq<Step>) returns (result: FlushResult)
      requires (set x | x in names) == dir.Keys
      requires forall i, j :: 0 <= i < j < |names| ==> names[i] != names[j]
      requires Schedulable(World(log, dir, cap, cap), schedule)
      modifies this
      ensures var v := AfterFlush(old(World(log, dir, cap, cap)), schedule);
              log == v.log && dir == v.dir && cap == v.cap
      ensures old(|log|) == 0 ==> result == FlushResult(0, 0)
      ensures old(|log|) > 0 ==> result.length == cap.length
      ensures old(Replicates(World(log, dir, cap, cap))) ==>
                result.written == RenamedCount(Run(old(RoundStart(World(log, dir, cap, cap))), schedule).calls)
      ensures !old(Replicates(World(log, dir, cap, cap))) ==> result.written == 0
    {
      hide SeqName, TmpName, BodiesBelow, NamesBelow, Replay, HighestPlusOne, Run, Runs, Complete;
      var existing := ListSeqFiles(names);
      NamesMatchBodies(dir, SEQ_LIMIT);
      var seqNo := NextSeq(existing, DigitsToNumber);
      ListedNamesAreSeqNames(dir.Keys, SEQ_LIMIT);
      NextOfSeqNames(DigitsToNumber, existing, seqNo);
      if |log| == 0 {
        return FlushResult(0, 0);
      }
      if cap.length == 0 && |existing| > 0 {
        var core := new Core(log, cap);
        var _ := core.ReplayInto(dir, names);
        cap := core.replica;
      }
      if cap.length >= |log| {
        return FlushResult(0, cap.length);
      }
      var written := RunSchedule(seqNo, schedule);
      return FlushResult(written, cap.length);
    }

    /** The replication itself, with the tap in place. Returns how many files were renamed. */
    method RunSchedule(first: nat, schedule: seq<Step>) returns (written: nat)
      requires Runs(Round(log, dir, cap, first, [], []), schedule)
      modifies this
      ensures var t := Run(old(Round(log, dir, cap, first, [], [])), schedule);
              log == t.log && dir == t.dir && cap == t.cap && written == RenamedCount(t.calls)
    {
      ghost var start := Round(log, dir, cap, first, [], []);
      var seqNo := first;
      var calls: seq<Call> := [];
      ghost var order: seq<nat> := [];
      written := 0;
      for k := 0 to |schedule|
        invariant Runs(Round(log, dir, cap, seqNo, calls, order), schedule[k..])
        invariant Run(Round(log, dir, cap, seqNo, calls, order), schedule[k..]) == Run(start, schedule)
        invariant written == RenamedCount(calls)
      {
        assert schedule[k..][0] == schedule[k] && schedule[k..][1..] == schedule[k + 1..];
        match schedule[k] {
          case Append(b) =>
            log := log + [b];
          case Take(m) =>
            RenamedCountOf(calls, Call(m, Verified));
            cap := After(cap, Verify(log, cap, m));
            calls := calls + [Call(m, Verified)];
          case Number(i) =>
            var mySeq := seqNo;
            seqNo := seqNo + 1;
            StageCount(calls, i, Numbered(mySeq));
            calls := SetStage(calls, i, Numbered(mySeq));
            order := order + [i];
          case WriteTemp(i) =>
            var mySeq := calls[i].stage.n;
            dir := dir[TmpName(mySeq) := Encoded(calls[i].msg)];
            StageCount(calls, i, Staged(mySeq));
            calls := SetStage(calls, i, Staged(mySeq));
          case Rename(i) =>
            var mySeq := calls[i].stage.n;
            var bytes := dir[TmpName(mySeq)];
            dir := (dir - {TmpName(mySeq)})[SeqName(mySeq) := bytes];
            StageCount(calls, i, Renamed(mySeq));
            calls := SetStage(calls, i, Renamed(mySeq));
            written := written + 1;
        }
      }
    }
  }

  function RenamedCount(calls: seq<Call>): nat {
    if calls == [] then 0
    else RenamedCount(calls[..|calls| - 1]) + if calls[|calls| - 1].stage.Renamed? then 1 else 0
  }

  lemma RenamedCountOf(calls: seq<Call>, c: Call)
    ensures RenamedCount(calls + [c]) == RenamedCount(calls) + if c.stage.Renamed? then 1 else 0
  {
    assert (calls + [c])[..|calls|] == calls;
  }

  lemma {:induction false} StageCount(calls: seq<Call>, i: nat, stage: Stage)
    requires i < |calls| && !calls[i].stage.Renamed?
    ensures RenamedCount(SetStage(calls, i, stage)) == RenamedCount(calls) + if stage.Renamed? then 1 else 0
  {
    var n := |calls| - 1;
    if i < n {
      StageCount(calls[..n], i, stage);
      assert SetStage(calls, i, stage)[..n] == SetStage(calls[..n], i, stage);
    } else {
      assert SetStage(calls, i, stage)[..n] == calls[..n];
    }
  }

  lemma {:induction false} AllRenamed(calls: seq<Call>)
    requires forall c :: c in calls ==> c.stage.Renamed?
    ensures RenamedCount(calls) == |calls|
  {
    if calls != [] {
      assert calls[|calls| - 1] in calls;
      AllRenamed(calls[..|calls| - 1]);
    }
  }
}
