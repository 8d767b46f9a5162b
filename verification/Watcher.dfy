/**
 The working-tree watcher: debounce timers, size stabilisation and the digest
 filter, as callbacks that interleave in any order. The file system and the event
 loop are the environment: any event, `stat` and `readFile` outcome may come.
 */
module Watcher {
  import opened Results
  import opened Sealing
  import WorkingTree

  type Path = string
  type TimerId = nat
  type SettleId = nat

  /** Where a settle is suspended. */
  datatype Phase = Stat | Sleep | Read

  /** One running `settleInner`; `sizes` records every size it has seen. */
  datatype Settle = Settle(path: Path, phase: Phase, lastSize: int, steady: nat, sizes: seq<nat>)

  /** A call of `report`: contents, or None for a path that is gone. */
  datatype Change = Change(path: Path, bytes: Option<Bytes>, sizes: seq<nat>)

  /** `hash` is SHA-256, `stableReads` the option of that name. */
  datatype Config = Config(hash: Bytes -> string, stableReads: int)

  /**
   `timers` is the source's map, `live` the timers the event loop holds. `observed`
   and `reported` record the calls of `report` and of `onChange`.
   */
  datatype State = State(
    timers: map<Path, TimerId>, live: map<TimerId, Path>, nextTimer: TimerId,
    settling: set<Path>, settles: map<SettleId, Settle>, nextSettle: SettleId,
    lastDigest: map<Path, Option<string>>, stopped: bool,
    observed: seq<Change>, reported: seq<Change>)

  const IDLE: State := State(map[], map[], 0, {}, map[], 0, map[], false, [], [])

  datatype StatResult = IsDirectory | Size(size: nat) | Gone | Unreadable
  datatype ReadResult = Contents(bytes: Bytes) | Vanished | Failed

  datatype Event =
    | Notify(path: Path)                       // the host's watch callback
    | Fire(timer: TimerId)                     // a debounce timer elapses
    | StatDone(id: SettleId, stat: StatResult)
    | Wake(id: SettleId)                       // the sleep between two stats ends
    | ReadDone(id: SettleId, read: ReadResult)
    | Stop

  predicate Enabled(s: State, e: Event) {
    match e
    case Notify(_) => true
    case Fire(t) => t in s.live
    case StatDone(id, _) => id in s.settles && s.settles[id].phase.Stat?
    case Wake(id) => id in s.settles && s.settles[id].phase.Sleep?
    case ReadDone(id, _) => id in s.settles && s.settles[id].phase.Read?
    case Stop => true
  }

  function DigestOf(c: Config, bytes: Option<Bytes>): Option<string> {
    match bytes
    case None => None
    case Some(b) => Some(c.hash(b))
  }

  /** `report`: drop a change that leaves the digest as it was last reported. */
  function Reported(c: Config, s: State, change: Change): State {
    var digest := DigestOf(c, change.bytes);
    var seen := s.(observed := s.observed + [change]);
    if change.path in s.lastDigest && s.lastDigest[change.path] == digest then seen
    else seen.(lastDigest := s.lastDigest[change.path := digest], reported := s.reported + [change])
  }

  /** `schedule`: the path's timer starts over. */
  function Schedule(s: State, path: Path): State {
    var live := if path in s.timers then s.live - {s.timers[path]} else s.live;
    s.(timers := s.timers[path := s.nextTimer], live := live[s.nextTimer := path], nextTimer := s.nextTimer + 1)
  }

  /** The end of a settle: its `finally`. */
  function Ended(s: State, id: SettleId): State
    requires id in s.settles
  {
    s.(settling := s.settling - {s.settles[id].path}, settles := s.settles - {id})
  }

  /** One size read: steady long enough, or another round. */
  function Measured(c: Config, t: Settle, size: nat): Settle {
    var sizes := t.sizes + [size];
    if size == t.lastSize then
      if t.steady + 1 >= c.stableReads - 1 then t.(phase := Read, steady := t.steady + 1, sizes := sizes)
      else t.(phase := Sleep, steady := t.steady + 1, sizes := sizes)
    else t.(phase := Sleep, steady := 0, lastSize := size, sizes := sizes)
  }

  function Next(c: Config, s: State, e: Event): State
    requires Enabled(s, e)
  {
    match e
    case Notify(path) =>
      if s.stopped || !WorkingTree.IsWatchablePath(path) then s else Schedule(s, path)
    case Fire(timer) =>
      var path := s.live[timer];
      var t := s.(live := s.live - {timer}, timers := s.timers - {path});
      if s.stopped || path in s.settling then t
      else t.(settling := s.settling + {path},
              settles := s.settles[s.nextSettle := Settle(path, Stat, -1, 0, [])],
              nextSettle := s.nextSettle + 1)
    case StatDone(id, stat) =>
      var t := s.settles[id];
      (match stat
       case IsDirectory => Ended(s, id)
       case Size(size) => s.(settles := s.settles[id := Measured(c, t, size)])
       case Gone => Ended(Reported(c, s, Change(t.path, None, t.sizes)), id)
       case Unreadable => Ended(s, id))
    case Wake(id) =>
      if s.stopped then Ended(s, id) else s.(settles := s.settles[id := s.settles[id].(phase := Stat)])
    case ReadDone(id, read) =>
      var t := s.settles[id];
      if s.stopped then Ended(s, id)
      else
        (match read
         case Contents(bytes) => Ended(Reported(c, s, Change(t.path, Some(bytes), t.sizes)), id)
         case Vanished => Ended(Reported(c, s, Change(t.path, None, t.sizes)), id)
         case Failed => Ended(s, id))
    case Stop => s.(stopped := true, live := s.live - s.timers.Values, timers := map[])
  }

  predicate Runs(c: Config, s: State, events: seq<Event>)
    decreases |events|
  {
    events == [] || (Enabled(s, events[0]) && Runs(c, Next(c, s, events[0]), events[1..]))
  }

  function Run(c: Config, s: State, events: seq<Event>): State
    requires Runs(c, s, events)
    decreases |events|
  {
    if events == [] then s else Run(c, Next(c, s, events[0]), events[1..])
  }

  // ---------------------------------------------------------------------
  // At most one timer and one settle per path
  // ---------------------------------------------------------------------

  /** The map and the event loop agree: each live timer is the one its path's entry names, and the other way round. */
  ghost predicate Paired(timers: map<Path, TimerId>, live: map<TimerId, Path>, next: TimerId) {
    && (forall p :: p in timers ==> timers[p] in live && live[timers[p]] == p)
    && (forall t :: t in live ==> t < next && live[t] in timers && timers[live[t]] == t)
  }

  ghost predicate TimersAgree(s: State) {
    Paired(s.timers, s.live, s.nextTimer) && (s.stopped ==> s.live == map[])
  }

  /** `settling` names exactly the paths with a settle in flight, each with one. */
  ghost predicate OneEach(settling: set<Path>, settles: map<SettleId, Settle>, next: SettleId) {
    && (forall id :: id in settles ==> id < next && settles[id].path in settling)
    && (forall a, b :: a in settles && b in settles && settles[a].path == settles[b].path ==> a == b)
    && (forall p :: p in settling ==> InFlight(settles, p))
  }

  ghost predicate InFlight(settles: map<SettleId, Settle>, p: Path) {
    exists id :: id in settles && settles[id].path == p
  }

  ghost predicate SettlesAgree(s: State) {
    OneEach(s.settling, s.settles, s.nextSettle)
  }

  lemma SchedulePairs(s: State, path: Path)
    requires Paired(s.timers, s.live, s.nextTimer)
    ensures var t := Schedule(s, path); Paired(t.timers, t.live, t.nextTimer)
  {
  }

  lemma FirePairs(s: State, timer: TimerId)
    requires Paired(s.timers, s.live, s.nextTimer) && timer in s.live
    ensures Paired(s.timers - {s.live[timer]}, s.live - {timer}, s.nextTimer)
  {
  }

  lemma StopClearsAll(s: State)
    requires Paired(s.timers, s.live, s.nextTimer)
    ensures s.live - s.timers.Values == map[]
  {
    forall t | t in s.live ensures t in s.timers.Values {
      assert s.timers[s.live[t]] == t;
    }
  }

  lemma StepKeepsTimers(c: Config, s: State, e: Event)
    requires TimersAgree(s) && Enabled(s, e)
    ensures TimersAgree(Next(c, s, e))
  {
    hide WorkingTree.IsWatchablePath, Measured, Paired;
    match e {
      case Notify(path) => SchedulePairs(s, path);
      case Fire(timer) => FirePairs(s, timer);
      case Stop =>
        StopClearsAll(s);
        NoTimersPair(s.nextTimer);
      case _ =>
    }
  }

  lemma NoTimersPair(next: TimerId)
    ensures Paired(map[], map[], next)
  {
  }

  lemma StartKeepsOneEach(settling: set<Path>, settles: map<SettleId, Settle>, next: SettleId, t: Settle)
    requires OneEach(settling, settles, next) && t.path !in settling
    ensures OneEach(settling + {t.path}, settles[next := t], next + 1)
  {
    var after := settles[next := t];
    forall p | p in settling + {t.path} ensures InFlight(after, p) {
      if p in settling {
        assert InFlight(settles, p);
        var id :| id in settles && settles[id].path == p;
        assert id in after && after[id].path == p;
      } else {
        assert next in after && after[next].path == p;
      }
    }
  }

  lemma EndKeepsOneEach(settling: set<Path>, settles: map<SettleId, Settle>, next: SettleId, id: SettleId)
    requires OneEach(settling, settles, next) && id in settles
    ensures OneEach(settling - {settles[id].path}, settles - {id}, next)
  {
    var after := settles - {id};
    forall p | p in settling - {settles[id].path} ensures InFlight(after, p) {
      assert InFlight(settles, p);
      var other :| other in settles && settles[other].path == p;
      assert other in after && after[other].path == p;
    }
  }

  lemma ProgressKeepsOneEach(settling: set<Path>, settles: map<SettleId, Settle>, next: SettleId, id: SettleId, t: Settle)
    requires OneEach(settling, settles, next) && id in settles && t.path == settles[id].path
    ensures OneEach(settling, settles[id := t], next)
  {
    var after := settles[id := t];
    forall p | p in settling ensures InFlight(after, p) {
      assert InFlight(settles, p);
      var other :| other in settles && settles[other].path == p;
      assert other in after && after[other].path == p;
    }
  }

  lemma StepKeepsSettles(c: Config, s: State, e: Event)
    requires SettlesAgree(s) && Enabled(s, e)
    ensures SettlesAgree(Next(c, s, e))
  {
    hide WorkingTree.IsWatchablePath, OneEach;
    match e {
      case Fire(timer) =>
        if s.live[timer] !in s.settling {
          StartKeepsOneEach(s.settling, s.settles, s.nextSettle, Settle(s.live[timer], Stat, -1, 0, []));
        }
      case StatDone(id, stat) =>
        EndKeepsOneEach(s.settling, s.settles, s.nextSettle, id);
        if stat.Size? {
          ProgressKeepsOneEach(s.settling, s.settles, s.nextSettle, id, Measured(c, s.settles[id], stat.size));
        }
      case Wake(id) =>
        EndKeepsOneEach(s.settling, s.settles, s.nextSettle, id);
        ProgressKeepsOneEach(s.settling, s.settles, s.nextSettle, id, s.settles[id].(phase := Stat));
      case ReadDone(id, _) => EndKeepsOneEach(s.settling, s.settles, s.nextSettle, id);
      case _ =>
    }
  }

  // ---------------------------------------------------------------------
  // Size stabilisation
  // ---------------------------------------------------------------------

  /** How many times in a row the last size was seen. */
  function Streak(sizes: seq<nat>): nat {
    var n := |sizes|;
    if n == 0 then 0
    else if n == 1 || sizes[n - 2] != sizes[n - 1] then 1
    else 1 + Streak(sizes[..n - 1])
  }

  function Needed(c: Config): nat {
    if c.stableReads <= 2 then 2 else c.stableReads
  }

  /** A settle still measuring has not seen enough equal sizes; one that reads has seen exactly enough. */
  predicate SettleOk(c: Config, t: Settle) {
    && (t.sizes == [] ==> t.lastSize == -1 && t.steady == 0)
    && (t.sizes != [] ==> t.lastSize == t.sizes[|t.sizes| - 1] && t.steady + 1 == Streak(t.sizes))
    && (if t.phase.Read? then Streak(t.sizes) == Needed(c) else Streak(t.sizes) < Needed(c))
  }

  predicate ChangeOk(c: Config, change: Change) {
    change.bytes.Some? ==> Streak(change.sizes) == Needed(c)
  }

  ghost predicate SizesOk(c: Config, s: State) {
    && (forall id :: id in s.settles ==> SettleOk(c, s.settles[id]))
    && (forall k :: 0 <= k < |s.observed| ==> ChangeOk(c, s.observed[k]))
    && (forall k :: 0 <= k < |s.reported| ==> ChangeOk(c, s.reported[k]))
  }

  lemma MeasuredIsOk(c: Config, t: Settle, size: nat)
    requires SettleOk(c, t) && t.phase.Stat?
    ensures SettleOk(c, Measured(c, t, size))
  {
    var sizes := t.sizes + [size];
    assert sizes[..|t.sizes|] == t.sizes;
  }

  /** The calls of `report` and `onChange` a step makes: at most one. */
  function Observes(s: State, e: Event): Option<Change>
    requires Enabled(s, e)
  {
    match e
    case StatDone(id, Gone) => Some(Change(s.settles[id].path, None, s.settles[id].sizes))
    case ReadDone(id, Contents(bytes)) =>
      if s.stopped then None else Some(Change(s.settles[id].path, Some(bytes), s.settles[id].sizes))
    case ReadDone(id, Vanished) =>
      if s.stopped then None else Some(Change(s.settles[id].path, None, s.settles[id].sizes))
    case _ => None
  }

  /** A step reports what `Observes` says, through `report`, and nothing else. */
  lemma StepObserves(c: Config, s: State, e: Event)
    requires Enabled(s, e)
    ensures var t := Next(c, s, e);
      match Observes(s, e)
      case None => t.observed == s.observed && t.reported == s.reported && t.lastDigest == s.lastDigest
      case Some(change) =>
        var r := Reported(c, s, change);
        t.observed == r.observed && t.reported == r.reported && t.lastDigest == r.lastDigest
  {
    hide WorkingTree.IsWatchablePath, Measured;
  }

  /** The settles after a step, and that `report` does not touch them. */
  function SettlesAfter(c: Config, s: State, e: Event): map<SettleId, Settle>
    requires Enabled(s, e)
  {
    match e
    case Fire(timer) =>
      if s.stopped || s.live[timer] in s.settling then s.settles
      else s.settles[s.nextSettle := Settle(s.live[timer], Stat, -1, 0, [])]
    case StatDone(id, Size(size)) => s.settles[id := Measured(c, s.settles[id], size)]
    case StatDone(id, _) => s.settles - {id}
    case Wake(id) => if s.stopped then s.settles - {id} else s.settles[id := s.settles[id].(phase := Stat)]
    case ReadDone(id, _) => s.settles - {id}
    case _ => s.settles
  }

  lemma StepSettles(c: Config, s: State, e: Event)
    requires Enabled(s, e)
    ensures Next(c, s, e).settles == SettlesAfter(c, s, e)
  {
    hide WorkingTree.IsWatchablePath, Measured, Reported;
    match e {
      case StatDone(id, Gone) => ReportKeepsSettles(c, s, Change(s.settles[id].path, None, s.settles[id].sizes));
      case ReadDone(id, Contents(bytes)) =>
        ReportKeepsSettles(c, s, Change(s.settles[id].path, Some(bytes), s.settles[id].sizes));
      case ReadDone(id, Vanished) => ReportKeepsSettles(c, s, Change(s.settles[id].path, None, s.settles[id].sizes));
      case _ =>
    }
  }

  lemma ReportKeepsSettles(c: Config, s: State, change: Change)
    ensures Reported(c, s, change).settles == s.settles && Reported(c, s, change).settling == s.settling
    ensures Reported(c, s, change).stopped == s.stopped
  {
  }

  lemma SettlesStayOk(c: Config, s: State, e: Event, id: SettleId)
    requires Enabled(s, e) && id in SettlesAfter(c, s, e)
    requires forall id :: id in s.settles ==> SettleOk(c, s.settles[id])
    ensures SettleOk(c, SettlesAfter(c, s, e)[id])
  {
    hide Measured, Streak, Needed;
    match e {
      case Fire(timer) => FreshSettleIsOk(c, s.live[timer]);
      case StatDone(id', Size(size)) => MeasuredIsOk(c, s.settles[id'], size);
      case _ =>
    }
  }

  lemma StepKeepsSizes(c: Config, s: State, e: Event)
    requires SizesOk(c, s) && Enabled(s, e)
    ensures SizesOk(c, Next(c, s, e))
  {
    hide Next, SettlesAfter, Streak, Needed;
    StepObserves(c, s, e);
    StepSettles(c, s, e);
    forall id | id in Next(c, s, e).settles ensures SettleOk(c, Next(c, s, e).settles[id]) {
      SettlesStayOk(c, s, e, id);
    }
    assert Observes(s, e).Some? ==> ChangeOk(c, Observes(s, e).value) by {
      match e {
        case ReadDone(id, _) => assert SettleOk(c, s.settles[id]);
        case _ =>
      }
    }
  }

  lemma FreshSettleIsOk(c: Config, path: Path)
    ensures SettleOk(c, Settle(path, Stat, -1, 0, []))
  {
  }

  // ---------------------------------------------------------------------
  // The digest filter
  // ---------------------------------------------------------------------

  /** What a listener knows that applies every change it is given, the last one winning. */
  function Fold(changes: seq<Change>): map<Path, Option<Bytes>> {
    if changes == [] then map[]
    else
      var last := changes[|changes| - 1];
      Fold(changes[..|changes| - 1])[last.path := last.bytes]
  }

  lemma FoldOfSnoc(changes: seq<Change>, change: Change)
    ensures Fold(changes + [change]) == Fold(changes)[change.path := change.bytes]
  {
    assert (changes + [change])[..|changes|] == changes;
  }

  /** The k-th report differs in digest from what was last reported for its path. */
  predicate IsNews(c: Config, changes: seq<Change>, k: nat)
    requires k < |changes|
  {
    var before := Fold(changes[..k]);
    changes[k].path in before ==> DigestOf(c, before[changes[k].path]) != DigestOf(c, changes[k].bytes)
  }

  predicate SameDigest(c: Config, s: State, folded: map<Path, Option<Bytes>>, p: Path) {
    p in s.lastDigest && p in folded && s.lastDigest[p] == DigestOf(c, folded[p])
  }

  /** `lastDigest` is the digests of the folded reports, and every report was news. */
  ghost predicate DigestsAgree(c: Config, s: State) {
    && s.lastDigest.Keys == Fold(s.reported).Keys
    && (forall p :: p in s.lastDigest ==> SameDigest(c, s, Fold(s.reported), p))
    && (forall k :: 0 <= k < |s.reported| ==> IsNews(c, s.reported, k))
  }

  lemma ReportKeepsDigests(c: Config, s: State, change: Change)
    requires DigestsAgree(c, s)
    ensures DigestsAgree(c, Reported(c, s, change))
  {
    hide Fold;
    var t := Reported(c, s, change);
    if t.reported != s.reported {
      FoldOfSnoc(s.reported, change);
      forall k | 0 <= k < |t.reported| ensures IsNews(c, t.reported, k) {
        assert t.reported[..|s.reported|] == s.reported;
        if k < |s.reported| {
          assert IsNews(c, s.reported, k);
          assert t.reported[..k] == s.reported[..k];
        } else if change.path in s.lastDigest {
          assert SameDigest(c, s, Fold(s.reported), change.path);
        }
      }
      forall p | p in t.lastDigest ensures SameDigest(c, t, Fold(t.reported), p) {
        if p != change.path {
          assert SameDigest(c, s, Fold(s.reported), p);
        }
      }
    } else {
      assert forall p :: SameDigest(c, s, Fold(s.reported), p) ==> SameDigest(c, t, Fold(t.reported), p);
    }
  }

  lemma StepKeepsDigests(c: Config, s: State, e: Event)
    requires DigestsAgree(c, s) && Enabled(s, e)
    ensures DigestsAgree(c, Next(c, s, e))
  {
    hide Next, Reported, Fold;
    StepObserves(c, s, e);
    var t := Next(c, s, e);
    match Observes(s, e) {
      case None => SameDigestsSameTruth(c, s, t);
      case Some(change) =>
        ReportKeepsDigests(c, s, change);
        SameDigestsSameTruth(c, Reported(c, s, change), t);
    }
  }

  lemma SameDigestsSameTruth(c: Config, s: State, t: State)
    requires DigestsAgree(c, s) && t.reported == s.reported && t.lastDigest == s.lastDigest
    ensures DigestsAgree(c, t)
  {
    hide Fold, IsNews;
    assert forall p :: SameDigest(c, s, Fold(s.reported), p) ==> SameDigest(c, t, Fold(t.reported), p);
  }

  ghost predicate NoCollisions(c: Config) {
    forall a, b :: c.hash(a) == c.hash(b) ==> a == b
  }

  /** Dropping repeats changes nothing for a listener that folds what it is told. */
  ghost predicate FoldsAgree(s: State) {
    Fold(s.reported) == Fold(s.observed)
  }

  lemma ReportKeepsFolds(c: Config, s: State, change: Change)
    requires DigestsAgree(c, s) && FoldsAgree(s) && NoCollisions(c)
    ensures FoldsAgree(Reported(c, s, change))
  {
    hide Fold;
    FoldOfSnoc(s.observed, change);
    FoldOfSnoc(s.reported, change);
    var digest := DigestOf(c, change.bytes);
    if change.path in s.lastDigest && s.lastDigest[change.path] == digest {
      assert SameDigest(c, s, Fold(s.reported), change.path);
      assert Fold(s.reported)[change.path] == change.bytes;
    }
  }

  // ---------------------------------------------------------------------
  // Every run
  // ---------------------------------------------------------------------

  ghost predicate Inv(c: Config, s: State) {
    TimersAgree(s) && SettlesAgree(s) && SizesOk(c, s) && DigestsAgree(c, s)
  }

  lemma StepKeepsInv(c: Config, s: State, e: Event)
    requires Inv(c, s) && Enabled(s, e)
    ensures Inv(c, Next(c, s, e))
  {
    hide Next, TimersAgree, SettlesAgree, SizesOk, DigestsAgree;
    StepKeepsTimers(c, s, e);
    StepKeepsSettles(c, s, e);
    StepKeepsSizes(c, s, e);
    StepKeepsDigests(c, s, e);
  }

  lemma {:induction false} RunKeepsInv(c: Config, s: State, events: seq<Event>)
    requires Inv(c, s) && Runs(c, s, events)
    ensures Inv(c, Run(c, s, events))
    decreases |events|
  {
    hide Inv, Next;
    if events != [] {
      StepKeepsInv(c, s, events[0]);
      RunKeepsInv(c, Next(c, s, events[0]), events[1..]);
    }
  }

  ghost predicate Reachable(c: Config, s: State) {
    exists events: seq<Event> :: Runs(c, IDLE, events) && Run(c, IDLE, events) == s
  }

  lemma ReachableHasInv(c: Config, s: State)
    requires Reachable(c, s)
    ensures Inv(c, s)
  {
    hide Inv;
    var events: seq<Event> :| Runs(c, IDLE, events) && Run(c, IDLE, events) == s;
    IdleHasInv(c);
    RunKeepsInv(c, IDLE, events);
  }

  lemma IdleHasInv(c: Config)
    ensures Inv(c, IDLE)
  {
  }

  /** In any run: one timer and one settle per path at most, and none of the timers survives `stop`. */
  lemma OneTimerOneSettlePerPath(c: Config, s: State)
    requires Reachable(c, s)
    ensures forall a, b :: a in s.live && b in s.live && s.live[a] == s.live[b] ==> a == b
    ensures forall a, b :: a in s.settles && b in s.settles && s.settles[a].path == s.settles[b].path ==> a == b
    ensures s.settling == set id | id in s.settles :: s.settles[id].path
    ensures s.stopped ==> s.live == map[]
  {
    ReachableHasInv(c, s);
    forall p | p in s.settling ensures p in set id | id in s.settles :: s.settles[id].path {
      assert InFlight(s.settles, p);
    }
    forall a, b | a in s.live && b in s.live && s.live[a] == s.live[b] ensures a == b {
      assert s.timers[s.live[a]] == a;
    }
  }

  /** In any run: contents are reported only after exactly max(2, stableReads) equal sizes in a row, and only when they are news. */
  lemma ContentIsSettledNews(c: Config, s: State, k: nat)
    requires Reachable(c, s) && k < |s.reported|
    ensures s.reported[k].bytes.Some? ==> Streak(s.reported[k].sizes) == Needed(c)
    ensures IsNews(c, s.reported, k)
  {
    ReachableHasInv(c, s);
    assert ChangeOk(c, s.reported[k]);
  }

  /** Consecutive reports for a path differ in digest. */
  lemma ConsecutiveReportsDiffer(c: Config, s: State, j: nat, k: nat)
    requires Reachable(c, s) && j < k < |s.reported| && s.reported[j].path == s.reported[k].path
    requires forall i :: j < i < k ==> s.reported[i].path != s.reported[k].path
    ensures DigestOf(c, s.reported[j].bytes) != DigestOf(c, s.reported[k].bytes)
  {
    ContentIsSettledNews(c, s, k);
    LatestInFold(s.reported, j, k);
  }

  lemma {:induction false} LatestInFold(changes: seq<Change>, j: nat, k: nat)
    requires j < k <= |changes|
    requires forall i :: j < i < k ==> changes[i].path != changes[j].path
    ensures changes[j].path in Fold(changes[..k]) && Fold(changes[..k])[changes[j].path] == changes[j].bytes
    decreases k
  {
    assert changes[..k] == changes[..k - 1] + [changes[k - 1]];
    FoldOfSnoc(changes[..k - 1], changes[k - 1]);
    if j < k - 1 {
      LatestInFold(changes, j, k - 1);
    }
  }

  /** In any run, folding the reports gives what folding every settled observation gives. */
  lemma FilterLosesNothing(c: Config, s: State)
    requires Reachable(c, s) && NoCollisions(c)
    ensures Fold(s.reported) == Fold(s.observed)
  {
    var events: seq<Event> :| Runs(c, IDLE, events) && Run(c, IDLE, events) == s;
    IdleHasInv(c);
    RunKeepsFolds(c, IDLE, events);
  }

  lemma {:induction false} RunKeepsFolds(c: Config, s: State, events: seq<Event>)
    requires Inv(c, s) && FoldsAgree(s) && NoCollisions(c) && Runs(c, s, events)
    ensures FoldsAgree(Run(c, s, events))
    decreases |events|
  {
    hide Next, TimersAgree, SettlesAgree, SizesOk, DigestsAgree, NoCollisions, Reported;
    if events != [] {
      StepKeepsInv(c, s, events[0]);
      StepObserves(c, s, events[0]);
      if Observes(s, events[0]).Some? {
        ReportKeepsFolds(c, s, Observes(s, events[0]).value);
      }
      RunKeepsFolds(c, Next(c, s, events[0]), events[1..]);
    }
  }

  // ---------------------------------------------------------------------
  // After stop
  // ---------------------------------------------------------------------

  /** A settle of this path has a `stat` under way. */
  ghost predicate Statting(s: State, p: Path) {
    exists id :: id in s.settles && s.settles[id].path == p && s.settles[id].phase.Stat?
  }

  lemma StoppedStep(c: Config, s: State, e: Event)
    requires TimersAgree(s) && s.stopped && Enabled(s, e)
    ensures var t := Next(c, s, e);
      && t.stopped
      && (forall p :: Statting(t, p) ==> Statting(s, p))
      && match Observes(s, e)
         case None => true
         case Some(change) => change.bytes == None && Statting(s, change.path)
  {
    hide WorkingTree.IsWatchablePath, Measured;
    var t := Next(c, s, e);
    forall p | Statting(t, p) ensures Statting(s, p) {
      var id :| id in t.settles && t.settles[id].path == p && t.settles[id].phase.Stat?;
      SettleWasThere(c, s, e, id);
    }
  }

  lemma SettleWasThere(c: Config, s: State, e: Event, id: SettleId)
    requires TimersAgree(s) && s.stopped && Enabled(s, e)
    requires id in Next(c, s, e).settles && Next(c, s, e).settles[id].phase.Stat?
    ensures id in s.settles && s.settles[id] == Next(c, s, e).settles[id]
  {
    hide WorkingTree.IsWatchablePath;
  }

  /** After `stop` no contents are reported; a delete only for a path whose `stat` was under way when it stopped. */
  lemma {:induction false} AfterStop(c: Config, s: State, events: seq<Event>)
    requires Inv(c, s) && s.stopped && Runs(c, s, events)
    ensures var t := Run(c, s, events);
      && s.reported <= t.reported
      && forall k :: |s.reported| <= k < |t.reported| ==> t.reported[k].bytes == None && Statting(s, t.reported[k].path)
    decreases |events|
  {
    hide Next, TimersAgree, SettlesAgree, SizesOk, DigestsAgree, Statting;
    if events != [] {
      StoppedStep(c, s, events[0]);
      StepObserves(c, s, events[0]);
      StepKeepsInv(c, s, events[0]);
      AfterStop(c, Next(c, s, events[0]), events[1..]);
    }
  }

  /** Exactly then: some run after `stop` still reports iff a `stat` is under way for a path not last reported as gone. */
  lemma LateDeleteIff(c: Config, s: State)
    requires Inv(c, s) && s.stopped
    ensures (exists events: seq<Event> :: Runs(c, s, events) && Run(c, s, events).reported != s.reported)
       <==> (exists id :: id in s.settles && CanReportGone(s, s.settles[id]))
  {
    if exists id :: id in s.settles && CanReportGone(s, s.settles[id]) {
      var id :| id in s.settles && CanReportGone(s, s.settles[id]);
      LateDelete(c, s, id);
    }
    if events: seq<Event> :| Runs(c, s, events) && Run(c, s, events).reported != s.reported {
      LateReportNeedsStat(c, s, events);
    }
  }

  predicate CanReportGone(s: State, t: Settle) {
    t.phase.Stat? && !(t.path in s.lastDigest && s.lastDigest[t.path] == None)
  }

  lemma LateDelete(c: Config, s: State, id: SettleId)
    requires id in s.settles && CanReportGone(s, s.settles[id])
    ensures exists events: seq<Event> :: Runs(c, s, events) && Run(c, s, events).reported != s.reported
  {
    var e := StatDone(id, Gone);
    var t := Next(c, s, e);
    assert [e][1..] == [] && Runs(c, t, []);
    assert Runs(c, s, [e]) && Run(c, s, [e]) == t;
    assert |t.reported| == |s.reported| + 1;
  }

  lemma {:induction false} LateReportNeedsStat(c: Config, s: State, events: seq<Event>)
    requires Inv(c, s) && s.stopped && Runs(c, s, events) && Run(c, s, events).reported != s.reported
    ensures exists id :: id in s.settles && CanReportGone(s, s.settles[id])
    decreases |events|
  {
    hide TimersAgree, SettlesAgree, SizesOk, DigestsAgree, WorkingTree.IsWatchablePath;
    var e := events[0];
    var t := Next(c, s, e);
    StepObserves(c, s, e);
    StoppedStep(c, s, e);
    if t.reported == s.reported {
      StepKeepsInv(c, s, e);
      LateReportNeedsStat(c, t, events[1..]);
      var id :| id in t.settles && CanReportGone(t, t.settles[id]);
      SettleWasThere(c, s, e, id);
      assert CanReportGone(s, s.settles[id]);
    } else {
      assert e.StatDone?;
      assert CanReportGone(s, s.settles[e.id]);
    }
  }

  /** The run that shows it: an event, its timer, `stop` while the `stat` is under way, and the file is gone. */
  lemma LateDeleteHappens(c: Config, path: Path)
    requires WorkingTree.IsWatchablePath(path)
    ensures var stop, late := [Notify(path), Fire(0), Stop], [Notify(path), Fire(0), Stop, StatDone(0, Gone)];
            && Runs(c, IDLE, stop) && Runs(c, IDLE, late)
            && Run(c, IDLE, stop).stopped && Run(c, IDLE, stop).reported == []
            && Run(c, IDLE, late).reported == [Change(path, None, [])]
  {
    hide WorkingTree.IsWatchablePath;
    var s1 := Next(c, IDLE, Notify(path));
    var s2 := Next(c, s1, Fire(0));
    var s3 := Next(c, s2, Stop);
    var s4 := Next(c, s3, StatDone(0, Gone));
    var stop, late := [Notify(path), Fire(0), Stop], [Notify(path), Fire(0), Stop, StatDone(0, Gone)];
    RunsStep(c, s3, late, 3, s4);
    RunsStep(c, s2, late, 2, s4);
    RunsStep(c, s1, late, 1, s4);
    RunsStep(c, IDLE, late, 0, s4);
    RunsStep(c, s2, stop, 2, s3);
    RunsStep(c, s1, stop, 1, s3);
    RunsStep(c, IDLE, stop, 0, s3);
    assert late[0..] == late && stop[0..] == stop;
    assert [] + [Change(path, None, [])] == [Change(path, None, [])];
  }

  lemma RunsStep(c: Config, s: State, events: seq<Event>, k: nat, end: State)
    requires k < |events| && Enabled(s, events[k])
    requires if k + 1 == |events| then Next(c, s, events[k]) == end
             else Runs(c, Next(c, s, events[k]), events[k + 1..]) && Run(c, Next(c, s, events[k]), events[k + 1..]) == end
    ensures Runs(c, s, events[k..]) && Run(c, s, events[k..]) == end
  {
    assert events[k..][1..] == events[k + 1..];
    if k + 1 == |events| {
      assert events[k + 1..] == [];
      assert Runs(c, end, []) && Run(c, end, []) == end;
    }
  }

  // ---------------------------------------------------------------------
  // What the events of a run brought about
  // ---------------------------------------------------------------------

  lemma {:induction false} RunOfSnoc(c: Config, s: State, events: seq<Event>, e: Event)
    ensures Runs(c, s, events + [e]) <==> Runs(c, s, events) && Enabled(Run(c, s, events), e)
    ensures Runs(c, s, events + [e]) ==> Run(c, s, events + [e]) == Next(c, Run(c, s, events), e)
    decreases |events|
  {
    hide Next;
    if events == [] {
      assert ([] + [e])[1..] == [];
    } else {
      assert (events + [e])[1..] == events[1..] + [e];
      if Enabled(s, events[0]) {
        RunOfSnoc(c, Next(c, s, events[0]), events[1..], e);
      }
    }
  }

  /** The run up to its last event, and that event. */
  lemma LastEvent(c: Config, events: seq<Event>)
    requires Runs(c, IDLE, events) && events != []
    ensures var n := |events| - 1;
            && Runs(c, IDLE, events[..n]) && Enabled(Run(c, IDLE, events[..n]), events[n])
            && Run(c, IDLE, events) == Next(c, Run(c, IDLE, events[..n]), events[n])
            && Inv(c, Run(c, IDLE, events[..n]))
  {
    hide Next, Enabled, Inv;
    var n := |events| - 1;
    assert events == events[..n] + [events[n]];
    RunOfSnoc(c, IDLE, events[..n], events[n]);
    IdleHasInv(c);
    RunKeepsInv(c, IDLE, events[..n]);
  }

  predicate HasStopped(events: seq<Event>) {
    exists j :: 0 <= j < |events| && events[j].Stop?
  }

  lemma StepStops(c: Config, s: State, e: Event)
    requires Enabled(s, e)
    ensures Next(c, s, e).stopped <==> s.stopped || e.Stop?
  {
    hide WorkingTree.IsWatchablePath, Measured, Reported;
    match e {
      case StatDone(id, Gone) => ReportKeepsSettles(c, s, Change(s.settles[id].path, None, s.settles[id].sizes));
      case ReadDone(id, Contents(bytes)) =>
        ReportKeepsSettles(c, s, Change(s.settles[id].path, Some(bytes), s.settles[id].sizes));
      case ReadDone(id, Vanished) => ReportKeepsSettles(c, s, Change(s.settles[id].path, None, s.settles[id].sizes));
      case _ =>
    }
  }

  lemma {:induction false} StoppedIff(c: Config, events: seq<Event>)
    requires Runs(c, IDLE, events)
    ensures Run(c, IDLE, events).stopped <==> HasStopped(events)
    decreases |events|
  {
    hide Next, Enabled, Inv;
    if events != [] {
      var n := |events| - 1;
      LastEvent(c, events);
      StoppedIff(c, events[..n]);
      StepStops(c, Run(c, IDLE, events[..n]), events[n]);
      assert forall j :: 0 <= j < n ==> events[..n][j] == events[j];
      assert HasStopped(events) <==> HasStopped(events[..n]) || events[n].Stop?;
    }
  }

  /** A host event named this path, and it is one that may be reported. */
  ghost predicate Notified(events: seq<Event>, path: Path) {
    WorkingTree.IsWatchablePath(path) && exists j :: 0 <= j < |events| && events[j] == Notify(path)
  }

  ghost predicate PathsKnown(s: State, events: seq<Event>) {
    && (forall t :: t in s.live ==> Notified(events, s.live[t]))
    && (forall id :: id in s.settles ==> Notified(events, s.settles[id].path))
    && (forall k :: 0 <= k < |s.observed| ==> Notified(events, s.observed[k].path))
    && (forall k :: 0 <= k < |s.reported| ==> Notified(events, s.reported[k].path))
  }

  /** In any run: every path with a timer or a settle, and every path reported, is watchable and came from a host event. */
  lemma {:induction false} OnlyNotifiedPaths(c: Config, events: seq<Event>)
    requires Runs(c, IDLE, events)
    ensures PathsKnown(Run(c, IDLE, events), events)
    decreases |events|
  {
    hide Next, SettlesAfter, Inv, Notified;
    if events != [] {
      var n := |events| - 1;
      var before, e := events[..n], events[n];
      LastEvent(c, events);
      var s := Run(c, IDLE, before);
      OnlyNotifiedPaths(c, before);
      forall path ensures Notified(before, path) ==> Notified(events, path) {
        NotifiedSnoc(events, path);
      }
      StepLive(c, s, e);
      StepObserves(c, s, e);
      StepSettles(c, s, e);
      forall id | id in SettlesAfter(c, s, e) ensures Notified(events, SettlesAfter(c, s, e)[id].path) {
        SettlePathIsOld(c, s, e, id);
      }
      if e.Notify? && WorkingTree.IsWatchablePath(e.path) {
        NotifiedSnoc(events, e.path);
      }
    }
  }

  lemma NotifiedSnoc(events: seq<Event>, path: Path)
    requires events != []
    ensures var n := |events| - 1;
            Notified(events, path) <==>
              Notified(events[..n], path) || (events[n] == Notify(path) && WorkingTree.IsWatchablePath(path))
  {
    hide WorkingTree.IsWatchablePath;
    var n := |events| - 1;
    assert forall j :: 0 <= j < n ==> events[..n][j] == events[j];
  }

  /** A timer that starts is for the path of a watchable host event. */
  lemma StepLive(c: Config, s: State, e: Event)
    requires Enabled(s, e)
    ensures forall t :: t in Next(c, s, e).live ==>
              (t in s.live && Next(c, s, e).live[t] == s.live[t]) ||
              (e == Notify(Next(c, s, e).live[t]) && WorkingTree.IsWatchablePath(Next(c, s, e).live[t]))
  {
    hide WorkingTree.IsWatchablePath, Measured;
  }

  lemma SettlePathIsOld(c: Config, s: State, e: Event, id: SettleId)
    requires Enabled(s, e) && id in SettlesAfter(c, s, e)
    ensures var path := SettlesAfter(c, s, e)[id].path;
            (id in s.settles && path == s.settles[id].path) || (e.Fire? && path == s.live[e.timer])
  {
  }

  /** An event that ends settle `id`: anything but a size, any read, or a wake-up after `stop`. */
  predicate Finishes(e: Event, stopped: bool, id: SettleId) {
    match e
    case StatDone(i, stat) => i == id && !stat.Size?
    case ReadDone(i, _) => i == id
    case Wake(i) => i == id && stopped
    case _ => false
  }

  ghost predicate FinishedBy(events: seq<Event>, id: SettleId) {
    exists j :: 0 <= j < |events| && FinishesAt(events, j, id)
  }

  predicate FinishesAt(events: seq<Event>, j: nat, id: SettleId)
    requires j < |events|
  {
    Finishes(events[j], HasStopped(events[..j]), id)
  }

  lemma FinishedBySnoc(events: seq<Event>, id: SettleId)
    requires events != []
    ensures FinishedBy(events, id) <==>
              FinishedBy(events[..|events| - 1], id) || FinishesAt(events, |events| - 1, id)
  {
    hide HasStopped, Finishes;
    var before := events[..|events| - 1];
    assert forall j :: 0 <= j < |before| ==> before[..j] == events[..j] && before[j] == events[j];
    assert forall j :: 0 <= j < |before| ==> FinishesAt(before, j, id) == FinishesAt(events, j, id);
  }

  /** In any run a settle that started is in flight until the event that ends it, and no longer. */
  lemma {:induction false} InFlightIff(c: Config, events: seq<Event>, id: SettleId)
    requires Runs(c, IDLE, events)
    ensures var s := Run(c, IDLE, events);
            && (id in s.settles <==> id < s.nextSettle && !FinishedBy(events, id))
            && (FinishedBy(events, id) ==> id < s.nextSettle)
    decreases |events|
  {
    hide Next, SettlesAfter, HasStopped, TimersAgree, SizesOk, DigestsAgree, Finishes, Enabled;
    if events != [] {
      var n := |events| - 1;
      var before, e := events[..n], events[n];
      LastEvent(c, events);
      var s := Run(c, IDLE, before);
      InFlightIff(c, before, id);
      StoppedIff(c, before);
      FinishedBySnoc(events, id);
      StepFlight(c, s, e, id);
    }
  }

  lemma StepFlight(c: Config, s: State, e: Event, id: SettleId)
    requires Enabled(s, e)
    requires forall i :: i in s.settles ==> i < s.nextSettle
    ensures var t := Next(c, s, e);
            && s.nextSettle <= t.nextSettle
            && (id in t.settles <==> (id in s.settles && !Finishes(e, s.stopped, id)) || s.nextSettle <= id < t.nextSettle)
            && (Finishes(e, s.stopped, id) ==> id in s.settles)
  {
    hide Next, Measured;
    StepSettles(c, s, e);
    StepNumbers(c, s, e);
  }

  lemma StepNumbers(c: Config, s: State, e: Event)
    requires Enabled(s, e)
    ensures Next(c, s, e).nextSettle == s.nextSettle + if e.Fire? && !s.stopped && s.live[e.timer] !in s.settling then 1 else 0
  {
    hide WorkingTree.IsWatchablePath, Measured;
  }

  /**
   The outcome of an event as `onChange` may hear it. Contents come from a read
   only, and a path is gone only when a `stat` or a read said so: whatever else
   fails is dropped. After `stop` only a `stat` is still heard.
   */
  predicate Says(e: Event, stopped: bool, id: SettleId, bytes: Option<Bytes>) {
    match bytes
    case Some(b) => e == ReadDone(id, Contents(b)) && !stopped
    case None => e == StatDone(id, Gone) || (e == ReadDone(id, Vanished) && !stopped)
  }

  ghost predicate SaysAt(c: Config, events: seq<Event>, j: nat, path: Path, bytes: Option<Bytes>)
    requires j < |events|
  {
    && Runs(c, IDLE, events[..j])
    && exists id: SettleId :: SaidOf(Run(c, IDLE, events[..j]), events[j], HasStopped(events[..j]), id, path, bytes)
  }

  predicate SaidOf(s: State, e: Event, stopped: bool, id: SettleId, path: Path, bytes: Option<Bytes>) {
    id in s.settles && s.settles[id].path == path && Says(e, stopped, id, bytes)
  }

  ghost predicate SaidBy(c: Config, events: seq<Event>, path: Path, bytes: Option<Bytes>) {
    exists j :: 0 <= j < |events| && SaysAt(c, events, j, path, bytes)
  }

  lemma SaidBySnoc(c: Config, events: seq<Event>, path: Path, bytes: Option<Bytes>)
    requires events != []
    ensures SaidBy(c, events, path, bytes) <==>
              SaidBy(c, events[..|events| - 1], path, bytes) || SaysAt(c, events, |events| - 1, path, bytes)
  {
    hide HasStopped, Runs, Run, SaidOf;
    var before := events[..|events| - 1];
    assert forall j :: 0 <= j < |before| ==> before[..j] == events[..j] && before[j] == events[j];
    assert forall j :: 0 <= j < |before| ==> SaysAt(c, before, j, path, bytes) == SaysAt(c, events, j, path, bytes);
  }

  ghost predicate Observed(s: State, path: Path, bytes: Option<Bytes>) {
    exists k :: 0 <= k < |s.observed| && IsObservation(s.observed[k], path, bytes)
  }

  predicate IsObservation(change: Change, path: Path, bytes: Option<Bytes>) {
    change.path == path && change.bytes == bytes
  }

  /** A step observes what its event says of the settle it belongs to. */
  lemma StepObservesIff(c: Config, s: State, e: Event, path: Path, bytes: Option<Bytes>)
    requires Enabled(s, e)
    ensures Observed(Next(c, s, e), path, bytes) <==>
              Observed(s, path, bytes) || exists id: SettleId :: SaidOf(s, e, s.stopped, id, path, bytes)
  {
    hide Next;
    StepObserves(c, s, e);
    var t := Next(c, s, e);
    var o := Observes(s, e);
    assert (exists id: SettleId :: SaidOf(s, e, s.stopped, id, path, bytes)) <==>
             o.Some? && IsObservation(o.value, path, bytes) by {
      if o.Some? && IsObservation(o.value, path, bytes) {
        assert SaidOf(s, e, s.stopped, e.id, path, bytes);
      }
    }
    if o.Some? {
      assert t.observed == s.observed + [o.value];
      assert t.observed[|s.observed|] == o.value;
      assert forall k :: 0 <= k < |s.observed| ==> t.observed[k] == s.observed[k];
    }
  }

  /** In any run the observations are exactly what the events said, each of the path of its own settle. */
  lemma {:induction false} ObservedIff(c: Config, events: seq<Event>, path: Path, bytes: Option<Bytes>)
    requires Runs(c, IDLE, events)
    ensures Observed(Run(c, IDLE, events), path, bytes) <==> SaidBy(c, events, path, bytes)
    decreases |events|
  {
    hide Next, Enabled, Inv, Observed, HasStopped, SaidOf;
    if events == [] {
      NothingObserved(path, bytes);
    } else {
      var n := |events| - 1;
      LastEvent(c, events);
      ObservedIff(c, events[..n], path, bytes);
      StoppedIff(c, events[..n]);
      StepObservesIff(c, Run(c, IDLE, events[..n]), events[n], path, bytes);
      SaidBySnoc(c, events, path, bytes);
    }
  }

  lemma NothingObserved(path: Path, bytes: Option<Bytes>)
    ensures !Observed(IDLE, path, bytes)
  {
  }

  // ---------------------------------------------------------------------
  // An undisturbed file is reported; an edit during a slow read is not
  // ---------------------------------------------------------------------

  /** `k` stats that find the same size, with the sleeps between them. */
  function SteadyStats(id: SettleId, size: nat, k: nat): seq<Event> {
    if k == 0 then []
    else if k == 1 then [StatDone(id, Size(size))]
    else [StatDone(id, Size(size)), Wake(id)] + SteadyStats(id, size, k - 1)
  }

  function Repeat(size: nat, k: nat): (sizes: seq<nat>)
    ensures |sizes| == k && forall i :: 0 <= i < k ==> sizes[i] == size
  {
    seq(k, _ => size)
  }

  /** The settle has seen `size` `m` times and nothing else. */
  predicate HasSeen(t: Settle, size: nat, m: nat) {
    t.sizes == Repeat(size, m) && (if m == 0 then t.lastSize == -1 && t.steady == 0 else t.lastSize == size && t.steady == m - 1)
  }

  lemma {:induction false} SteadyFileIsRead(c: Config, s: State, id: SettleId, size: nat, m: nat)
    requires id in s.settles && s.settles[id].phase.Stat? && HasSeen(s.settles[id], size, m) && m < Needed(c) && !s.stopped
    ensures var events := SteadyStats(id, size, Needed(c) - m);
            var read := Settle(s.settles[id].path, Read, size, Needed(c) - 1, Repeat(size, Needed(c)));
            Runs(c, s, events) && Run(c, s, events) == s.(settles := s.settles[id := read])
    decreases Needed(c) - m
  {
    var events := SteadyStats(id, size, Needed(c) - m);
    var measured := Measured(c, s.settles[id], size);
    assert measured.sizes == Repeat(size, m + 1);
    var s1 := Next(c, s, events[0]);
    if m + 1 == Needed(c) {
      assert events[1..] == [] && Runs(c, s1, []) && Run(c, s1, []) == s1;
    } else {
      var s2 := Next(c, s1, Wake(id));
      var rest := SteadyStats(id, size, Needed(c) - m - 1);
      SteadyFileIsRead(c, s2, id, size, m + 1);
      assert events[1..] == [Wake(id)] + rest && events[1..][1..] == rest;
      assert Runs(c, s1, events[1..]) && Run(c, s1, events[1..]) == Run(c, s2, rest);
      assert s2.settles[id := Settle(s.settles[id].path, Read, size, Needed(c) - 1, Repeat(size, Needed(c)))] ==
             s.settles[id := Settle(s.settles[id].path, Read, size, Needed(c) - 1, Repeat(size, Needed(c)))];
    }
  }

  /** A host event, its timer, the stats of a file that stands still, and the read. */
  function Undisturbed(c: Config, s: State, path: Path, size: nat, read: ReadResult): seq<Event> {
    [Notify(path), Fire(s.nextTimer)] + (SteadyStats(s.nextSettle, size, Needed(c)) + [ReadDone(s.nextSettle, read)])
  }

  /** A host event and its timer start a settle for the path and leave the rest as it is. */
  lemma SettleStarts(c: Config, s: State, path: Path)
    requires Inv(c, s) && !s.stopped && path !in s.settling && WorkingTree.IsWatchablePath(path)
    ensures var s1 := Next(c, s, Notify(path));
            && s.nextTimer in s1.live
            && var s2 := Next(c, s1, Fire(s.nextTimer));
            && s2.settles == s.settles[s.nextSettle := Settle(path, Stat, -1, 0, [])] && s.nextSettle !in s.settles
            && s2.observed == s.observed && s2.reported == s.reported && s2.lastDigest == s.lastDigest
            && path !in s2.timers && !s2.stopped
  {
    hide WorkingTree.IsWatchablePath, TimersAgree, SizesOk, DigestsAgree, Measured;
  }

  /**
   From any state with no settle for it, a watchable file that stands still after
   an event is settled, read and observed with its contents, and its timer and
   its settle are gone. So a listener ends up with these contents.
   */
  lemma UndisturbedFileIsObserved(c: Config, s: State, path: Path, size: nat, bytes: Bytes)
    requires Inv(c, s) && !s.stopped && path !in s.settling && WorkingTree.IsWatchablePath(path)
    ensures var events := Undisturbed(c, s, path, size, Contents(bytes));
            && Runs(c, s, events)
            && var t := Run(c, s, events);
            var change := Change(path, Some(bytes), Repeat(size, Needed(c)));
            && t.observed == s.observed + [change]
            && t.reported == (if path in s.lastDigest && s.lastDigest[path] == Some(c.hash(bytes)) then s.reported
                              else s.reported + [change])
            && t.settles == s.settles && path !in t.timers
  {
    hide WorkingTree.IsWatchablePath, Inv, SteadyStats, Measured, Next;
    var id := s.nextSettle;
    var events := Undisturbed(c, s, path, size, Contents(bytes));
    var s1 := Next(c, s, Notify(path));
    SettleStarts(c, s, path);
    var s2 := Next(c, s1, Fire(s.nextTimer));
    var stats := SteadyStats(id, size, Needed(c));
    SteadyFileIsRead(c, s2, id, size, 0);
    var s3 := Run(c, s2, stats);
    ContentsAreObserved(c, s3, id, bytes);
    RunOfSnoc(c, s2, stats, ReadDone(id, Contents(bytes)));
    var tail := stats + [ReadDone(id, Contents(bytes))];
    assert events[1..] == [Fire(s.nextTimer)] + tail && events[1..][1..] == tail;
    assert Runs(c, s1, events[1..]) && Run(c, s1, events[1..]) == Run(c, s2, tail);
    assert s3.settles - {id} == s.settles;
  }

  lemma ContentsAreObserved(c: Config, s: State, id: SettleId, bytes: Bytes)
    requires id in s.settles && s.settles[id].phase.Read? && !s.stopped
    ensures Enabled(s, ReadDone(id, Contents(bytes)))
    ensures var t := Next(c, s, ReadDone(id, Contents(bytes)));
            var change := Change(s.settles[id].path, Some(bytes), s.settles[id].sizes);
            && t.observed == s.observed + [change]
            && t.reported == (if change.path in s.lastDigest && s.lastDigest[change.path] == Some(c.hash(bytes)) then s.reported
                              else s.reported + [change])
            && t.settles == s.settles - {id} && t.timers == s.timers
  {
  }

  /** A timer that elapses starts a settle exactly if none is in flight for its path and the watcher runs. */
  lemma FireStartsIff(c: Config, s: State, timer: TimerId)
    requires Inv(c, s) && timer in s.live
    ensures var t := Next(c, s, Fire(timer));
            && s.nextSettle !in s.settles
            && (s.nextSettle in t.settles <==> !InFlight(s.settles, s.live[timer]))
            && (s.nextSettle in t.settles ==> t.settles[s.nextSettle].path == s.live[timer])
            && (s.nextSettle !in t.settles ==> t.settles == s.settles)
  {
    if s.live[timer] in s.settling {
      assert InFlight(s.settles, s.live[timer]);
    }
  }

  /** With no timer and no settle left, nothing is reported before the next host event. */
  lemma {:induction false} QuietIsSilent(c: Config, s: State, events: seq<Event>)
    requires s.live == map[] && s.settles == map[] && Runs(c, s, events)
    requires forall k :: 0 <= k < |events| ==> !events[k].Notify?
    ensures Run(c, s, events).reported == s.reported
    decreases |events|
  {
    hide WorkingTree.IsWatchablePath, Measured;
    if events != [] {
      assert events[0] == Stop;
      QuietIsSilent(c, Next(c, s, events[0]), events[1..]);
    }
  }

  /** An event for a file that is being read: its timer elapses and starts nothing. */
  function DuringRead(c: Config, path: Path, size: nat, stale: Bytes): seq<Event> {
    [Notify(path), Fire(0)] + (SteadyStats(0, size, Needed(c)) + [Notify(path), Fire(1), ReadDone(0, Contents(stale))])
  }

  /**
   The settle in flight does not look again: an edit whose timer elapses during
   the read of the old contents leaves the old contents as the last report, with
   nothing scheduled, whatever the options.
   */
  lemma EditDuringReadIsMissed(c: Config, path: Path, size: nat, stale: Bytes)
    requires WorkingTree.IsWatchablePath(path)
    ensures var events := DuringRead(c, path, size, stale);
            && Runs(c, IDLE, events)
            && var t := Run(c, IDLE, events);
            && t.reported == [Change(path, Some(stale), Repeat(size, Needed(c)))]
            && t.live == map[] && t.settles == map[] && !t.stopped
  {
    hide WorkingTree.IsWatchablePath;
    var events, stats := DuringRead(c, path, size, stale), SteadyStats(0, size, Needed(c));
    var s1 := Next(c, IDLE, Notify(path));
    var s2 := Next(c, s1, Fire(0));
    assert HasSeen(s2.settles[0], size, 0);
    SteadyFileIsRead(c, s2, 0, size, 0);
    RunOfSnoc(c, s2, stats, Notify(path));
    RunOfSnoc(c, s2, stats + [Notify(path)], Fire(1));
    RunOfSnoc(c, s2, stats + [Notify(path)] + [Fire(1)], ReadDone(0, Contents(stale)));
    var tail := stats + [Notify(path), Fire(1), ReadDone(0, Contents(stale))];
    assert tail == stats + [Notify(path)] + [Fire(1)] + [ReadDone(0, Contents(stale))];
    assert events[1..] == [Fire(0)] + tail && events[1..][1..] == tail;
    assert Runs(c, s1, events[1..]) && Run(c, s1, events[1..]) == Run(c, s2, tail);
  }

  // ---------------------------------------------------------------------
  // The callbacks
  // ---------------------------------------------------------------------

  /** `live` and `settles` stand for the event loop: pending timeouts and suspended calls of `settleInner`. */
  class TreeWatcher {
    const config: Config
    var timers: map<Path, TimerId>
    var live: map<TimerId, Path>
    var nextTimer: TimerId
    var settling: set<Path>
    var settles: map<SettleId, Settle>
    var nextSettle: SettleId
    var lastDigest: map<Path, Option<string>>
    var stopped: bool
    ghost var observed: seq<Change>
    var reported: seq<Change>

    ghost function Abstract(): State
      reads this
    {
      State(timers, live, nextTimer, settling, settles, nextSettle, lastDigest, stopped, observed, reported)
    }

    constructor (config: Config)
      ensures this.config == config && Abstract() == IDLE
    {
      this.config := config;
      timers, live, nextTimer := map[], map[], 0;
      settling, settles, nextSettle := {}, map[], 0;
      lastDigest, stopped, observed, reported := map[], false, [], [];
    }

    method Report(change: Change)
      modifies this
      ensures Abstract() == Reported(config, old(Abstract()), change)
    {
      observed := observed + [change];
      var digest := match change.bytes case None => None case Some(b) => Some(config.hash(b));
      if change.path in lastDigest && lastDigest[change.path] == digest {
        return;
      }
      lastDigest := lastDigest[change.path := digest];
      reported := reported + [change];
    }

    method OnNotify(path: Path)
      modifies this
      ensures Abstract() == Next(config, old(Abstract()), Notify(path))
    {
      if stopped || !WorkingTree.IsWatchablePath(path) {
        return;
      }
      if path in timers {
        live := live - {timers[path]};
      }
      timers := timers[path := nextTimer];
      live := live[nextTimer := path];
      nextTimer := nextTimer + 1;
    }

    method OnFire(timer: TimerId)
      requires timer in live
      modifies this
      ensures Abstract() == Next(config, old(Abstract()), Fire(timer))
    {
      var path := live[timer];
      live := live - {timer};
      timers := timers - {path};
      if stopped || path in settling {
        return;
      }
      settling := settling + {path};
      settles := settles[nextSettle := Settle(path, Stat, -1, 0, [])];
      nextSettle := nextSettle + 1;
    }

    method Finish(id: SettleId)
      requires id in settles
      modifies this
      ensures Abstract() == Ended(old(Abstract()), id)
    {
      settling := settling - {settles[id].path};
      settles := settles - {id};
    }

    method OnStat(id: SettleId, stat: StatResult)
      requires id in settles && settles[id].phase.Stat?
      modifies this
      ensures Abstract() == Next(config, old(Abstract()), StatDone(id, stat))
    {
      var t := settles[id];
      match stat {
        case IsDirectory => Finish(id);
        case Gone =>
          Report(Change(t.path, None, t.sizes));
          Finish(id);
        case Unreadable => Finish(id);
        case Size(size) =>
          var steady, phase := t.steady, Sleep;
          var lastSize := t.lastSize;
          if size == lastSize {
            steady := steady + 1;
            if steady >= config.stableReads - 1 {
              phase := Read;
            }
          } else {
            steady, lastSize := 0, size;
          }
          settles := settles[id := Settle(t.path, phase, lastSize, steady, t.sizes + [size])];
      }
    }

    method OnWake(id: SettleId)
      requires id in settles && settles[id].phase.Sleep?
      modifies this
      ensures Abstract() == Next(config, old(Abstract()), Wake(id))
    {
      if stopped {
        Finish(id);
      } else {
        settles := settles[id := settles[id].(phase := Stat)];
      }
    }

    method OnRead(id: SettleId, read: ReadResult)
      requires id in settles && settles[id].phase.Read?
      modifies this
      ensures Abstract() == Next(config, old(Abstract()), ReadDone(id, read))
    {
      var t := settles[id];
      if !stopped {
        match read {
          case Contents(bytes) => Report(Change(t.path, Some(bytes), t.sizes));
          case Vanished => Report(Change(t.path, None, t.sizes));
          case Failed =>
        }
      }
      Finish(id);
    }

    method OnStop()
      modifies this
      ensures Abstract() == Next(config, old(Abstract()), Stop)
    {
      stopped := true;
      live := CancelAll(live, timers);
      timers := map[];
    }

    /** `clearTimeout` on every entry of the map. */
    static method CancelAll(live: map<TimerId, Path>, timers: map<Path, TimerId>) returns (left: map<TimerId, Path>)
      ensures left == live - timers.Values
    {
      left := live;
      var todo := timers.Keys;
      while todo != {}
        invariant todo <= timers.Keys
        invariant left == live - set p | p in timers.Keys - todo :: timers[p]
        decreases |todo|
      {
        var p :| p in todo;
        left := left - {timers[p]};
        todo := todo - {p};
      }
      assert timers.Values == set p | p in timers.Keys - todo :: timers[p];
    }
  }
}
