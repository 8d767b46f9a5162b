/**
 `SpawnedRuntime`: one runtime in a child process. The child may answer anything
 in any order and may exit at any time. A promise settles in the same turn as the
 message or exit that settles it.
 */
module Spawned {
  import opened Results

  datatype Params = Init(storage: Option<string>) | Other(method_: string)

  datatype Request = Request(id: nat, params: Params)

  datatype Reply = Value(result: string) | Failed(message: string)

  /** How a request that was sent ended. */
  datatype End = Answered(reply: Reply) | ChildExited(code: Option<int>)

  /**
   `listening` says whether `ready` has attached the message and exit handlers.
   `sent`, `settled` and `refused` (requests rejected unsent) only record.
   */
  datatype State = State(
    nextId: nat, pending: map<nat, Params>, ready: bool, listening: bool, closed: bool,
    sent: seq<Request>, settled: map<nat, End>, refused: nat)

  const INITIAL_STATE: State := State(1, map[], false, false, false, [], map[], 0)

  datatype Step =
    | Ready(storage: Option<string>)
    | Rpc(method_: string)
    | Message(id: nat, reply: Reply)
    | Exit(code: Option<int>)        // the transport reports the child's exit, once
    | CloseEnds                      // the tail of `close`, after the transport closed

  predicate Enabled(s: State, e: Step) {
    match e
    case Exit(_) => !s.closed
    case CloseEnds => s.closed
    case _ => true
  }

  function Send(s: State, params: Params): State {
    if !s.ready && s.closed then s.(refused := s.refused + 1)
    else
      s.(nextId := s.nextId + 1, pending := s.pending[s.nextId := params],
         sent := s.sent + [Request(s.nextId, params)])
  }

  function Settle(s: State, id: nat, reply: Reply): State
    requires id in s.pending
  {
    s.(pending := s.pending - {id}, settled := s.settled[id := Answered(reply)],
       ready := s.ready || (s.pending[id].Init? && reply.Value?))
  }

  function AllExited(pending: map<nat, Params>, code: Option<int>): (ends: map<nat, End>)
    ensures ends.Keys == pending.Keys
  {
    map id | id in pending :: ChildExited(code)
  }

  function Next(s: State, e: Step): State
    requires Enabled(s, e)
  {
    match e
    case Ready(storage) => if s.ready then s else Send(s.(listening := true), Init(storage))
    case Rpc(m) => Send(s, Other(m))
    case Message(id, reply) => if s.listening && id in s.pending then Settle(s, id, reply) else s
    case Exit(code) =>
      var gone := s.(closed := true);
      if s.listening then
        gone.(pending := map[], settled := s.settled + AllExited(s.pending, code), ready := false)
      else gone
    case CloseEnds => s.(ready := false)
  }

  predicate Runs(s: State, steps: seq<Step>)
    decreases |steps|
  {
    steps == [] || (Enabled(s, steps[0]) && Runs(Next(s, steps[0]), steps[1..]))
  }

  function Run(s: State, steps: seq<Step>): State
    requires Runs(s, steps)
    decreases |steps|
  {
    if steps == [] then s else Run(Next(s, steps[0]), steps[1..])
  }

  // ---------------------------------------------------------------------
  // What every step keeps
  // ---------------------------------------------------------------------

  predicate SentAt(s: State, k: nat)
    requires k < |s.sent|
  {
    s.sent[k].id == k + 1 && (k + 1 in s.pending ==> s.pending[k + 1] == s.sent[k].params)
  }

  ghost predicate Inv(s: State) {
    && s.nextId == |s.sent| + 1
    && (forall k :: 0 <= k < |s.sent| ==> SentAt(s, k))
    && s.pending.Keys !! s.settled.Keys
    && (forall id :: id in s.pending || id in s.settled <==> 1 <= id < s.nextId)
    && (s.ready ==> s.listening && !s.closed)
    && (s.closed || !s.listening ==> forall id :: id in s.pending ==> !s.pending[id].Init?)
  }

  lemma SendKeepsInv(s: State, params: Params)
    requires Inv(s) && (params.Init? ==> s.listening)
    ensures Inv(Send(s, params))
  {
    var t := Send(s, params);
    forall k | 0 <= k < |t.sent| ensures SentAt(t, k) {
      assert k < |s.sent| ==> SentAt(s, k);
    }
  }

  lemma StepKeepsInv(s: State, e: Step)
    requires Inv(s) && Enabled(s, e)
    ensures Inv(Next(s, e))
  {
    var t := Next(s, e);
    match e {
      case Ready(storage) =>
        if !s.ready {
          assert forall k :: 0 <= k < |s.sent| ==> SentAt(s, k) ==> SentAt(s.(listening := true), k);
          SendKeepsInv(s.(listening := true), Init(storage));
        }
      case Rpc(m) => SendKeepsInv(s, Other(m));
      case _ =>
        assert forall k :: 0 <= k < |s.sent| ==> SentAt(s, k) ==> SentAt(t, k);
    }
  }

  lemma {:induction false} RunKeepsInv(s: State, steps: seq<Step>)
    requires Inv(s) && Runs(s, steps)
    ensures Inv(Run(s, steps))
    decreases |steps|
  {
    if steps != [] {
      StepKeepsInv(s, steps[0]);
      RunKeepsInv(Next(s, steps[0]), steps[1..]);
    }
  }

  /** A request's end is final: no later message or exit settles it again. */
  lemma {:induction false} SettledStays(s: State, steps: seq<Step>, id: nat)
    requires Inv(s) && Runs(s, steps) && id in s.settled
    ensures id in Run(s, steps).settled && Run(s, steps).settled[id] == s.settled[id]
    decreases |steps|
  {
    if steps != [] {
      StepKeepsInv(s, steps[0]);
      SettledStays(Next(s, steps[0]), steps[1..], id);
    }
  }

  lemma {:induction false} NumbersBelow(ids: set<nat>, n: nat)
    requires forall id :: id in ids <==> 1 <= id <= n
    ensures |ids| == n
  {
    if n == 0 {
      assert ids == {};
    } else {
      NumbersBelow(ids - {n}, n - 1);
    }
  }

  /** In any run, whatever the child sends: sent = settled + pending, and ids number the requests in order. */
  lemma SentIsSettledPlusPending(steps: seq<Step>)
    requires Runs(INITIAL_STATE, steps)
    ensures var s := Run(INITIAL_STATE, steps);
      && |s.sent| == |s.settled| + |s.pending|
      && s.settled.Keys !! s.pending.Keys
      && forall k :: 0 <= k < |s.sent| ==> s.sent[k].id == k + 1 && (k + 1 in s.settled || k + 1 in s.pending)
  {
    RunKeepsInv(INITIAL_STATE, steps);
    SentIsAccountedFor(Run(INITIAL_STATE, steps));
  }

  lemma SentIsAccountedFor(s: State)
    requires Inv(s)
    ensures |s.sent| == |s.settled| + |s.pending|
    ensures forall k :: 0 <= k < |s.sent| ==> s.sent[k].id == k + 1 && (k + 1 in s.settled || k + 1 in s.pending)
  {
    var a, b := s.settled.Keys, s.pending.Keys;
    forall k | 0 <= k < |s.sent| ensures s.sent[k].id == k + 1 && (k + 1 in s.settled || k + 1 in s.pending) {
      assert SentAt(s, k);
    }
    NumbersBelow(a + b, |s.sent|);
    assert |a + b| == |a| + |b|;
  }

  // ---------------------------------------------------------------------
  // After the child has exited
  // ---------------------------------------------------------------------

  /** The exit rejects everything outstanding exactly when `ready` had attached its handlers, or nothing was. */
  lemma ExitEmptiesPendingIff(s: State, code: Option<int>)
    requires Inv(s) && !s.closed
    ensures Next(s, Exit(code)).pending == map[] <==> s.listening || s.pending == map[]
    ensures s.listening ==> forall id :: id in s.pending ==>
      id in Next(s, Exit(code)).settled && Next(s, Exit(code)).settled[id] == ChildExited(code)
  {
  }

  function Requests(steps: seq<Step>): nat {
    if steps == [] then 0
    else (if steps[0].Rpc? || steps[0].Ready? then 1 else 0) + Requests(steps[1..])
  }

  /** Once the child has exited nothing is sent or left pending anew, and every request is refused. */
  lemma {:induction false} ClosedRefusesEverything(s: State, steps: seq<Step>)
    requires Inv(s) && s.closed && Runs(s, steps)
    ensures var t := Run(s, steps);
      && t.sent == s.sent && !t.ready && t.pending.Keys <= s.pending.Keys
      && t.refused == s.refused + Requests(steps)
    decreases |steps|
  {
    if steps != [] {
      StepKeepsInv(s, steps[0]);
      ClosedRefusesEverything(Next(s, steps[0]), steps[1..]);
    }
  }

  /** A runtime whose `ready` was called before the child exited has nothing pending from then on. */
  lemma {:induction false} NothingPendingAfterExit(s: State, code: Option<int>, steps: seq<Step>)
    requires Inv(s) && !s.closed && s.listening && Runs(Next(s, Exit(code)), steps)
    ensures var t := Run(Next(s, Exit(code)), steps);
      t.pending == map[] && t.sent == s.sent && |t.settled| == |s.sent|
  {
    StepKeepsInv(s, Exit(code));
    var u := Next(s, Exit(code));
    ClosedRefusesEverything(u, steps);
    RunKeepsInv(u, steps);
    NumbersBelow(Run(u, steps).settled.Keys, |s.sent|);
  }

  /** Without `ready`, a request sent before the exit stays pending for ever. */
  lemma UnreadyRequestIsStranded(m: string, code: Option<int>)
    ensures var steps := [Rpc(m), Exit(code)];
      Runs(INITIAL_STATE, steps) && 1 in Run(INITIAL_STATE, steps).pending
  {
    var s := Next(INITIAL_STATE, Rpc(m));
    var t := Next(s, Exit(code));
    assert [Rpc(m), Exit(code)][1..] == [Exit(code)] && [Exit(code)][1..] == [];
    assert Runs(t, []) && Run(t, []) == t;
    assert Runs(s, [Exit(code)]) && Run(s, [Exit(code)]) == t;
  }

  // ---------------------------------------------------------------------
  // What the steps of a run brought about
  // ---------------------------------------------------------------------

  lemma {:induction false} RunOfSnoc(s: State, steps: seq<Step>, e: Step)
    ensures Runs(s, steps + [e]) <==> Runs(s, steps) && Enabled(Run(s, steps), e)
    ensures Runs(s, steps + [e]) ==> Run(s, steps + [e]) == Next(Run(s, steps), e)
    decreases |steps|
  {
    hide Next;
    if steps == [] {
      assert ([] + [e])[1..] == [];
    } else {
      assert (steps + [e])[1..] == steps[1..] + [e];
      if Enabled(s, steps[0]) {
        RunOfSnoc(Next(s, steps[0]), steps[1..], e);
      }
    }
  }

  lemma NothingRun()
    ensures Run(INITIAL_STATE, []) == INITIAL_STATE && Inv(INITIAL_STATE) && !MadeReady([])
  {
  }

  /** The run up to its last step, and that step. */
  lemma LastStep(steps: seq<Step>)
    requires Runs(INITIAL_STATE, steps) && steps != []
    ensures var n := |steps| - 1;
      && Runs(INITIAL_STATE, steps[..n]) && Enabled(Run(INITIAL_STATE, steps[..n]), steps[n])
      && Run(INITIAL_STATE, steps) == Next(Run(INITIAL_STATE, steps[..n]), steps[n])
      && Inv(Run(INITIAL_STATE, steps[..n]))
  {
    hide Next, Enabled, Inv;
    var n := |steps| - 1;
    assert steps == steps[..n] + [steps[n]];
    RunOfSnoc(INITIAL_STATE, steps[..n], steps[n]);
    NothingRun();
    RunKeepsInv(INITIAL_STATE, steps[..n]);
  }

  /** `ready` has been called. */
  predicate ReadyCalled(steps: seq<Step>) {
    exists j :: 0 <= j < |steps| && steps[j].Ready?
  }

  predicate HasExited(steps: seq<Step>) {
    exists j :: 0 <= j < |steps| && steps[j].Exit?
  }

  lemma {:induction false} FlagsIff(steps: seq<Step>)
    requires Runs(INITIAL_STATE, steps)
    ensures Run(INITIAL_STATE, steps).listening <==> ReadyCalled(steps)
    ensures Run(INITIAL_STATE, steps).closed <==> HasExited(steps)
    decreases |steps|
  {
    if steps != [] {
      var n := |steps| - 1;
      LastStep(steps);
      FlagsIff(steps[..n]);
      assert forall j :: 0 <= j < n ==> steps[..n][j] == steps[j];
      assert ReadyCalled(steps) <==> ReadyCalled(steps[..n]) || steps[n].Ready?;
      assert HasExited(steps) <==> HasExited(steps[..n]) || steps[n].Exit?;
    }
  }

  predicate Outstanding(s: State, id: nat) {
    exists k :: 0 <= k < |s.sent| && s.sent[k].id == id && id !in s.settled
  }

  /** What is pending is what was sent and has not ended, under the parameters it was sent with. */
  lemma PendingIff(steps: seq<Step>, id: nat)
    requires Runs(INITIAL_STATE, steps)
    ensures var s := Run(INITIAL_STATE, steps);
      && (id in s.pending <==> Outstanding(s, id))
      && (id in s.pending ==> Request(id, s.pending[id]) in s.sent)
  {
    RunKeepsInv(INITIAL_STATE, steps);
    var s := Run(INITIAL_STATE, steps);
    assert 1 <= id < s.nextId ==> SentAt(s, id - 1) && s.sent[id - 1].id == id;
    if id in s.pending {
      assert s.sent[id - 1] == Request(id, s.pending[id]);
    }
    forall k | 0 <= k < |s.sent| ensures s.sent[k].id == k + 1 {
      assert SentAt(s, k);
    }
  }

  /** The parameters a call asks with. */
  predicate Asks(e: Step, params: Params) {
    match e
    case Ready(storage) => params == Init(storage)
    case Rpc(m) => params == Other(m)
    case _ => false
  }

  /** Step `j` asks before any exit, is no repeated `ready`, and is the `id`-th request sent. */
  ghost predicate SendsAt(steps: seq<Step>, j: nat, id: nat, params: Params)
    requires j < |steps|
  {
    && Runs(INITIAL_STATE, steps[..j]) && Asks(steps[j], params) && !HasExited(steps[..j])
    && !(steps[j].Ready? && Run(INITIAL_STATE, steps[..j]).ready)
    && id == |Run(INITIAL_STATE, steps[..j]).sent| + 1
  }

  ghost predicate SentBy(steps: seq<Step>, id: nat, params: Params) {
    exists j :: 0 <= j < |steps| && SendsAt(steps, j, id, params)
  }

  lemma SentBySnoc(steps: seq<Step>, id: nat, params: Params)
    requires steps != []
    ensures SentBy(steps, id, params) <==>
      SentBy(steps[..|steps| - 1], id, params) || SendsAt(steps, |steps| - 1, id, params)
  {
    hide Runs, Run, HasExited;
    var before := steps[..|steps| - 1];
    assert forall j :: 0 <= j < |before| ==> before[..j] == steps[..j] && before[j] == steps[j];
    assert forall j :: 0 <= j < |before| ==> SendsAt(before, j, id, params) == SendsAt(steps, j, id, params);
  }

  /** In any run a request was sent exactly if a step asked for it before the exit. */
  lemma {:induction false} SentIff(steps: seq<Step>, id: nat, params: Params)
    requires Runs(INITIAL_STATE, steps)
    ensures Request(id, params) in Run(INITIAL_STATE, steps).sent <==> SentBy(steps, id, params)
    decreases |steps|
  {
    hide Runs, Run, HasExited;
    if steps == [] {
      NothingRun();
    } else {
      var n := |steps| - 1;
      LastStep(steps);
      FlagsIff(steps[..n]);
      SentIff(steps[..n], id, params);
      SentBySnoc(steps, id, params);
    }
  }

  predicate Awaits(s: State, id: nat) {
    s.listening && id in s.pending
  }

  /** An answer ends its own request, the exit any. */
  predicate Brings(e: Step, id: nat, end: End) {
    match end
    case Answered(reply) => e == Message(id, reply)
    case ChildExited(code) => e == Exit(code)
  }

  /** Step `j` brings `end` while request `id` is outstanding and the handlers are attached. */
  ghost predicate EndsAt(steps: seq<Step>, j: nat, id: nat, end: End)
    requires j < |steps|
  {
    Runs(INITIAL_STATE, steps[..j]) && Awaits(Run(INITIAL_STATE, steps[..j]), id) && Brings(steps[j], id, end)
  }

  ghost predicate EndedBy(steps: seq<Step>, id: nat, end: End) {
    exists j :: 0 <= j < |steps| && EndsAt(steps, j, id, end)
  }

  lemma EndedBySnoc(steps: seq<Step>, id: nat, end: End)
    requires steps != []
    ensures EndedBy(steps, id, end) <==> EndedBy(steps[..|steps| - 1], id, end) || EndsAt(steps, |steps| - 1, id, end)
  {
    hide Runs, Run, Awaits, Brings;
    var before := steps[..|steps| - 1];
    assert forall j :: 0 <= j < |before| ==> before[..j] == steps[..j] && before[j] == steps[j];
    assert forall j :: 0 <= j < |before| ==> EndsAt(before, j, id, end) == EndsAt(steps, j, id, end);
  }

  /**
   In any run a request ended some way exactly if a step brought that end while
   it was outstanding: its own answer, whatever it says, or the child's exit.
   */
  lemma {:induction false} EndedIff(steps: seq<Step>, id: nat, end: End)
    requires Runs(INITIAL_STATE, steps)
    ensures var s := Run(INITIAL_STATE, steps);
      id in s.settled && s.settled[id] == end <==> EndedBy(steps, id, end)
    decreases |steps|
  {
    hide Runs, Run;
    if steps == [] {
      NothingRun();
    } else {
      var n := |steps| - 1;
      LastStep(steps);
      EndedIff(steps[..n], id, end);
      EndedBySnoc(steps, id, end);
    }
  }

  /** Step `j` answers an outstanding `init` with a value, and no exit or completed close follows. */
  ghost predicate MakesReady(steps: seq<Step>, j: nat)
    requires j < |steps|
  {
    && AnswersInit(steps, j)
    && forall k :: j < k < |steps| ==> !steps[k].Exit? && !steps[k].CloseEnds?
  }

  ghost predicate AnswersInit(steps: seq<Step>, j: nat)
    requires j < |steps|
  {
    && Runs(INITIAL_STATE, steps[..j]) && steps[j].Message? && steps[j].reply.Value?
    && var s := Run(INITIAL_STATE, steps[..j]);
       steps[j].id in s.pending && s.pending[steps[j].id].Init?
  }

  ghost predicate MadeReady(steps: seq<Step>) {
    exists j :: 0 <= j < |steps| && MakesReady(steps, j)
  }

  lemma MadeReadySnoc(steps: seq<Step>)
    requires steps != []
    ensures var n := |steps| - 1;
      MadeReady(steps) <==> (MadeReady(steps[..n]) && !steps[n].Exit? && !steps[n].CloseEnds?) || AnswersInit(steps, n)
  {
    hide AnswersInit;
    var n := |steps| - 1;
    var before := steps[..n];
    forall j | 0 <= j < n
      ensures MakesReady(steps, j) <==> MakesReady(before, j) && !steps[n].Exit? && !steps[n].CloseEnds?
    {
      SameAnswer(before, steps[n], j);
      assert steps == before + [steps[n]];
      assert forall k :: j < k < n ==> before[k] == steps[k];
    }
    assert MakesReady(steps, n) <==> AnswersInit(steps, n);
    if MadeReady(before) && !steps[n].Exit? && !steps[n].CloseEnds? {
      var j :| 0 <= j < n && MakesReady(before, j);
      assert MakesReady(steps, j);
    }
  }

  lemma SameAnswer(before: seq<Step>, e: Step, j: nat)
    requires j < |before|
    ensures AnswersInit(before + [e], j) == AnswersInit(before, j)
  {
    assert (before + [e])[..j] == before[..j];
  }

  /** The runtime is ready exactly from the answer that gave its `init` a value until the exit or the end of a close. */
  lemma {:induction false} ReadyIff(steps: seq<Step>)
    requires Runs(INITIAL_STATE, steps)
    ensures Run(INITIAL_STATE, steps).ready <==> MadeReady(steps)
    decreases |steps|
  {
    hide Runs, Run, MadeReady;
    if steps == [] {
      NothingRun();
    } else {
      var n := |steps| - 1;
      LastStep(steps);
      ReadyIff(steps[..n]);
      MadeReadySnoc(steps);
    }
  }

  // ---------------------------------------------------------------------
  // The class
  // ---------------------------------------------------------------------

  class SpawnedRuntime {
    var nextId: nat
    var pending: map<nat, Params>
    var ready: bool
    var listening: bool
    var closed: bool                  // the transport's flag
    var sent: seq<Request>
    var settled: map<nat, End>
    var refused: nat

    ghost function Abstract(): State
      reads this
    {
      State(nextId, pending, ready, listening, closed, sent, settled, refused)
    }

    constructor ()
      ensures Abstract() == INITIAL_STATE
    {
      nextId, pending, ready, listening, closed := 1, map[], false, false, false;
      sent, settled, refused := [], map[], 0;
    }

    method SendRpc(params: Params) returns (id: Option<nat>)
      modifies this
      ensures Abstract() == Send(old(Abstract()), params)
      ensures id == if old(ready) || !old(closed) then Some(old(nextId)) else None
    {
      if !ready && closed {
        refused := refused + 1;
        return None;
      }
      id := Some(nextId);
      nextId := nextId + 1;
      pending := pending[id.value := params];
      sent := sent + [Request(id.value, params)];
    }

    method BeReady(storage: Option<string>)
      modifies this
      ensures Abstract() == Next(old(Abstract()), Ready(storage))
    {
      if ready {
        return;
      }
      listening := true;
      var _ := SendRpc(Init(storage));
    }

    /** The transport calls this only once `ready` has subscribed. */
    method HandleMessage(id: nat, reply: Reply)
      requires listening
      modifies this
      ensures Abstract() == Next(old(Abstract()), Message(id, reply))
    {
      if id !in pending {
        return;
      }
      var params := pending[id];
      pending := pending - {id};
      settled := settled[id := Answered(reply)];
      if params.Init? && reply.Value? {
        ready := true;
      }
    }

    method HandleExit(code: Option<int>)
      requires listening && !closed
      modifies this
      ensures Abstract() == Next(old(Abstract()), Exit(code))
    {
      closed := true;
      settled := RejectAll(settled, pending, code);
      pending := map[];
      ready := false;
    }

    static method RejectAll(settled: map<nat, End>, pending: map<nat, Params>, code: Option<int>)
        returns (out: map<nat, End>)
      ensures out == settled + AllExited(pending, code)
    {
      out := settled;
      var left := pending.Keys;
      while left != {}
        invariant left <= pending.Keys
        invariant out == settled + map id | id in pending.Keys - left :: ChildExited(code)
        decreases |left|
      {
        var id :| id in left;
        out := out[id := ChildExited(code)];
        left := left - {id};
      }
      assert pending.Keys - {} == pending.Keys;
    }
  }
}
