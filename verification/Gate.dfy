/**
 The connection gate: on every connection a timer, the peer's proofs and the
 verdict race, and the store is replicated only on a positive verdict.
 */
module Gate {
  import opened Results
  import opened Base58
  import opened DidKey
  import opened Delegation
  import opened Issuing
  import opened Membership

  type ConnId = nat

  /** The verify call of a connection: the proof it was given, and when. */
  datatype Check = Check(proof: Wire, now: int)

  /**
   One connection. `messages` (what arrived, and when), `timedOut`, `decided` and
   `stuck` (counted as a peer with no close to come that would uncount it) only
   record what has happened; no handler reads them.
   */
  datatype Conn = Conn(
    key: seq<nat>, settled: bool, timer: bool, listening: bool, pending: Option<Check>,
    destroyed: bool, closed: bool, closeHook: bool,
    messages: seq<Check>, timedOut: bool, decided: Option<Check>, stuck: bool)

  datatype State = State(
    conns: map<ConnId, Conn>,
    peers: set<ConnId>,
    replicated: seq<ConnId>,   // calls of `store.replicate`, in order
    notices: seq<nat>)         // counts handed to the peer listeners, in order

  datatype Event =
    | Connect(id: ConnId, key: seq<nat>, channelFree: bool)
    | SetupThrows(id: ConnId)                       // muxing or sending our proof fails
    | TimerFires(id: ConnId)
    | Message(id: ConnId, proof: Wire, now: int)    // the peer's proof arrives
    | Verdict(id: ConnId, replicateThrows: bool, listenerThrows: bool)  // `auth.verify` resolves
    | VerifyThrows(id: ConnId)
    | Close(id: ConnId, listenerThrows: bool)       // the peer is uncounted before a listener can throw

  const EMPTY_STATE: State := State(map[], {}, [], [])

  predicate Enabled(s: State, e: Event) {
    match e
    case Connect(id, key, _) => id !in s.conns && IsKey(key)
    case SetupThrows(id) => id in s.conns
    case TimerFires(id) => id in s.conns && s.conns[id].timer
    case Message(id, _, _) => id in s.conns && s.conns[id].listening
    case Verdict(id, _, _) => id in s.conns && s.conns[id].pending.Some?
    case VerifyThrows(id) => id in s.conns && s.conns[id].pending.Some?
    case Close(id, _) => id in s.conns && !s.conns[id].closed
  }

  function Opened(key: seq<nat>, channelFree: bool): Conn {
    Conn(key, false, channelFree, channelFree, None, !channelFree, false, false, [], false, None, false)
  }

  /** `admit`: count the connection, tell the listeners, and only then hook its close. */
  function Admitted(s: State, id: ConnId, listenerThrows: bool): State
    requires id in s.conns
  {
    if id in s.peers then s
    else
      var conn := s.conns[id];
      var hooks := !conn.closed && !listenerThrows;
      s.(peers := s.peers + {id}, notices := s.notices + [|s.peers + {id}|],
         conns := s.conns[id := conn.(closeHook := hooks, stuck := !hooks)])
  }

  function Put(s: State, id: ConnId, conn: Conn): State {
    s.(conns := s.conns[id := conn])
  }

  /** A positive verdict: admit, then replicate; what either throws is caught and destroys the connection. */
  function LetIn(s: State, id: ConnId, replicateThrows: bool, listenerThrows: bool): State
    requires id in s.conns
  {
    var t := Admitted(s, id, listenerThrows);
    if listenerThrows && id !in s.peers then Put(t, id, t.conns[id].(destroyed := true))
    else
      Put(t.(replicated := t.replicated + [id]), id,
          if replicateThrows then t.conns[id].(destroyed := true) else t.conns[id])
  }

  function Next(g: Gatekeeper, s: State, e: Event): State
    requires Enabled(s, e)
  {
    match e
    case Connect(id, key, channelFree) => Put(s, id, Opened(key, channelFree))
    case SetupThrows(id) => Put(s, id, s.conns[id].(destroyed := true))
    case TimerFires(id) =>
      var conn := s.conns[id].(timer := false);
      Put(s, id, if conn.settled then conn else conn.(settled := true, destroyed := true, timedOut := true))
    case Message(id, proof, now) =>
      var conn := s.conns[id].(messages := s.conns[id].messages + [Check(proof, now)]);
      Put(s, id, if conn.settled then conn
                 else conn.(settled := true, timer := false, pending := Some(Check(proof, now))))
    case Verdict(id, replicateThrows, listenerThrows) =>
      var check := s.conns[id].pending.value;
      var conn := s.conns[id].(pending := None, decided := Some(check));
      if VerifyMembership(g, conn.key, check.proof, check.now).Member? then
        LetIn(Put(s, id, conn), id, replicateThrows, listenerThrows)
      else Put(s, id, conn.(destroyed := true))
    case VerifyThrows(id) => Put(s, id, s.conns[id].(pending := None, destroyed := true))
    case Close(id, _) =>
      var conn := s.conns[id].(closed := true, closeHook := false);
      if s.conns[id].closeHook && id in s.peers then
        Put(s, id, conn).(peers := s.peers - {id}, notices := s.notices + [|s.peers - {id}|])
      else Put(s, id, conn)
  }

  predicate Runs(g: Gatekeeper, s: State, events: seq<Event>)
    decreases |events|
  {
    events == [] || (Enabled(s, events[0]) && Runs(g, Next(g, s, events[0]), events[1..]))
  }

  function Run(g: Gatekeeper, s: State, events: seq<Event>): State
    requires Runs(g, s, events)
    decreases |events|
  {
    if events == [] then s else Run(g, Next(g, s, events[0]), events[1..])
  }

  // ---------------------------------------------------------------------
  // What every step keeps
  // ---------------------------------------------------------------------

  /** How often the store was replicated over a connection. */
  function Times(replicated: seq<ConnId>, id: ConnId): nat {
    if replicated == [] then 0
    else Times(replicated[..|replicated| - 1], id) + if replicated[|replicated| - 1] == id then 1 else 0
  }

  /** The verify call in flight, and the one decided, are about the first proof, before any timeout. */
  ghost predicate FirstProof(conn: Conn, check: Check) {
    && conn.settled && !conn.timedOut && !conn.timer
    && conn.messages != [] && conn.messages[0] == check
  }

  predicate Positive(g: Gatekeeper, key: seq<nat>, check: Check) {
    VerifyMembership(g, key, check.proof, check.now).Member?
  }

  ghost predicate ConnInv(g: Gatekeeper, s: State, id: ConnId)
    requires id in s.conns
  {
    var conn := s.conns[id];
    && IsKey(conn.key)
    && (conn.timer ==> !conn.settled && !conn.timedOut)
    && (conn.timedOut ==> conn.settled)
    && (!conn.settled ==> conn.messages == [] && conn.pending.None? && conn.decided.None?)
    && (conn.pending.Some? ==> FirstProof(conn, conn.pending.value) && conn.decided.None?)
    && (conn.decided.Some? ==> FirstProof(conn, conn.decided.value))
    && Times(s.replicated, id) <= 1
    && (Times(s.replicated, id) == 1 || id in s.peers ==> conn.decided.Some? && Positive(g, conn.key, conn.decided.value))
    && (id in s.peers <==> conn.stuck || conn.closeHook)
    && (conn.closeHook ==> !conn.stuck)
    && (conn.closeHook <==> Times(s.replicated, id) == 1 && !conn.closed)
    && (conn.timedOut || (conn.decided.Some? && !Positive(g, conn.key, conn.decided.value)) ==> conn.destroyed)
  }

  ghost predicate Inv(g: Gatekeeper, s: State) {
    && (forall id :: id in s.conns ==> ConnInv(g, s, id))
    && (forall id :: id in s.replicated ==> id in s.conns)
    && (forall id :: id !in s.conns ==> Times(s.replicated, id) == 0)
    && s.peers <= s.conns.Keys
    && |s.peers| == if s.notices == [] then 0 else s.notices[|s.notices| - 1]
  }

  lemma TimesSnoc(replicated: seq<ConnId>, id: ConnId, other: ConnId)
    ensures Times(replicated + [id], other) == Times(replicated, other) + if id == other then 1 else 0
  {
    assert (replicated + [id])[..|replicated|] == replicated;
  }

  /** A step that leaves the peers and the replications alone keeps what concerns other connections. */
  lemma PutKeeps(g: Gatekeeper, s: State, id: ConnId, conn: Conn)
    requires Inv(g, s)
    requires ConnInv(g, Put(s, id, conn), id)
    ensures Inv(g, Put(s, id, conn))
  {
    var t := Put(s, id, conn);
    forall other | other in t.conns ensures ConnInv(g, t, other) {
      if other != id {
        assert ConnInv(g, s, other);
      }
    }
  }

  /** What a positive verdict makes of the connection and the gate. */
  lemma AdmissionStep(g: Gatekeeper, s: State, e: Event)
    requires Inv(g, s) && Enabled(s, e) && e.Verdict?
    requires Positive(g, s.conns[e.id].key, s.conns[e.id].pending.value)
    ensures var t, conn := Next(g, s, e), s.conns[e.id];
            && t.replicated == (if e.listenerThrows then s.replicated else s.replicated + [e.id])
            && t.peers == s.peers + {e.id} && e.id !in s.peers
            && t.notices == s.notices + [|t.peers|]
            && t.conns == s.conns[e.id := conn.(pending := None, decided := conn.pending,
                            closeHook := !conn.closed && !e.listenerThrows, stuck := conn.closed || e.listenerThrows,
                            destroyed := conn.destroyed || e.listenerThrows || e.replicateThrows)]
  {
    hide VerifyMembership, IsKey, Times, Inv, ConnInv, LetIn;
    PendingIsNoPeer(g, s, e.id);
    var conn := s.conns[e.id].(pending := None, decided := s.conns[e.id].pending);
    LetInStep(Put(s, e.id, conn), e.id, e.replicateThrows, e.listenerThrows);
  }

  lemma LetInStep(s: State, id: ConnId, replicateThrows: bool, listenerThrows: bool)
    requires id in s.conns && id !in s.peers
    ensures var t, conn := LetIn(s, id, replicateThrows, listenerThrows), s.conns[id];
            && t.replicated == (if listenerThrows then s.replicated else s.replicated + [id])
            && t.peers == s.peers + {id}
            && t.notices == s.notices + [|t.peers|]
            && t.conns == s.conns[id := conn.(
                            closeHook := !conn.closed && !listenerThrows, stuck := conn.closed || listenerThrows,
                            destroyed := conn.destroyed || listenerThrows || replicateThrows)]
  {
  }

  lemma PendingIsNoPeer(g: Gatekeeper, s: State, id: ConnId)
    requires Inv(g, s) && id in s.conns && s.conns[id].pending.Some?
    ensures id !in s.peers
  {
    hide Positive, IsKey, Times;
    assert ConnInv(g, s, id);
  }

  lemma AdmissionKeepsOthers(g: Gatekeeper, s: State, t: State, id: ConnId, other: ConnId)
    requires other in s.conns && ConnInv(g, s, other) && other != id
    requires other in t.conns && t.conns[other] == s.conns[other]
    requires t.replicated == s.replicated + [id] || t.replicated == s.replicated
    requires t.peers == s.peers + {id}
    ensures ConnInv(g, t, other)
  {
    TimesSnoc(s.replicated, id, other);
  }

  lemma AdmissionKeepsOwn(g: Gatekeeper, s: State, e: Event)
    requires Inv(g, s) && Enabled(s, e) && e.Verdict?
    requires Positive(g, s.conns[e.id].key, s.conns[e.id].pending.value)
    ensures ConnInv(g, Next(g, s, e), e.id)
  {
    AdmissionStep(g, s, e);
    hide Positive, Times, IsKey, Next;
    assert ConnInv(g, s, e.id);
    TimesSnoc(s.replicated, e.id, e.id);
  }

  lemma AdmissionKeeps(g: Gatekeeper, s: State, e: Event)
    requires Inv(g, s) && Enabled(s, e) && e.Verdict?
    requires Positive(g, s.conns[e.id].key, s.conns[e.id].pending.value)
    ensures Inv(g, Next(g, s, e))
  {
    var t := Next(g, s, e);
    AdmissionStep(g, s, e);
    AdmissionKeepsOwn(g, s, e);
    hide Positive, Times, IsKey, Next, ConnInv;
    forall other | other in t.conns && other != e.id ensures ConnInv(g, t, other) {
      AdmissionKeepsOthers(g, s, t, e.id, other);
    }
    forall other ensures other !in t.conns ==> Times(t.replicated, other) == 0 {
      TimesSnoc(s.replicated, e.id, other);
    }
  }

  lemma VerdictKeeps(g: Gatekeeper, s: State, e: Event)
    requires Inv(g, s) && Enabled(s, e) && e.Verdict?
    ensures Inv(g, Next(g, s, e))
  {
    hide VerifyMembership, Times, IsKey;
    var check := s.conns[e.id].pending.value;
    if Positive(g, s.conns[e.id].key, check) {
      AdmissionKeeps(g, s, e);
    } else {
      assert ConnInv(g, s, e.id);
      PutKeeps(g, s, e.id, s.conns[e.id].(pending := None, decided := Some(check), destroyed := true));
    }
  }

  lemma CloseKeepsConn(g: Gatekeeper, s: State, e: Event, other: ConnId)
    requires Enabled(s, e) && e.Close? && ConnInv(g, s, e.id) && other in s.conns && ConnInv(g, s, other)
    ensures ConnInv(g, Next(g, s, e), other)
  {
    hide Positive, IsKey, Times;
  }

  /** The hook is there only for a peer. */
  lemma PeersHook(g: Gatekeeper, s: State, id: ConnId)
    requires id in s.conns && ConnInv(g, s, id)
    ensures s.conns[id].closeHook ==> id in s.peers
  {
  }

  lemma CloseKeeps(g: Gatekeeper, s: State, e: Event)
    requires Inv(g, s) && Enabled(s, e) && e.Close?
    ensures Inv(g, Next(g, s, e))
  {
    hide Positive, IsKey, Times, ConnInv;
    var t := Next(g, s, e);
    forall other | other in t.conns ensures ConnInv(g, t, other) {
      CloseKeepsConn(g, s, e, other);
    }
    PeersHook(g, s, e.id);
  }

  lemma StepKeeps(g: Gatekeeper, s: State, e: Event)
    requires Inv(g, s) && Enabled(s, e)
    ensures Inv(g, Next(g, s, e))
  {
    match e
    case Connect(id, key, channelFree) => PutKeeps(g, s, id, Opened(key, channelFree));
    case SetupThrows(id) =>
      assert ConnInv(g, s, id);
      PutKeeps(g, s, id, Next(g, s, e).conns[id]);
    case TimerFires(id) =>
      assert ConnInv(g, s, id);
      PutKeeps(g, s, id, Next(g, s, e).conns[id]);
    case Message(id, _, _) =>
      assert ConnInv(g, s, id);
      PutKeeps(g, s, id, Next(g, s, e).conns[id]);
    case VerifyThrows(id) =>
      assert ConnInv(g, s, id);
      PutKeeps(g, s, id, Next(g, s, e).conns[id]);
    case Verdict(_, _, _) => VerdictKeeps(g, s, e);
    case Close(_, _) => CloseKeeps(g, s, e);
  }

  lemma {:induction false} RunKeeps(g: Gatekeeper, s: State, events: seq<Event>)
    requires Inv(g, s) && Runs(g, s, events)
    ensures Inv(g, Run(g, s, events))
    decreases |events|
  {
    if events != [] {
      StepKeeps(g, s, events[0]);
      RunKeeps(g, Next(g, s, events[0]), events[1..]);
    }
  }

  // ---------------------------------------------------------------------
  // Runs, one event at a time from the end
  // ---------------------------------------------------------------------

  lemma {:induction false} RunOfSnoc(g: Gatekeeper, s: State, events: seq<Event>, e: Event)
    ensures Runs(g, s, events + [e]) <==> Runs(g, s, events) && Enabled(Run(g, s, events), e)
    ensures Runs(g, s, events + [e]) ==> Run(g, s, events + [e]) == Next(g, Run(g, s, events), e)
    decreases |events|
  {
    hide Next;
    if events == [] {
      assert ([] + [e])[1..] == [];
    } else {
      assert (events + [e])[1..] == events[1..] + [e];
      if Enabled(s, events[0]) {
        RunOfSnoc(g, Next(g, s, events[0]), events[1..], e);
      }
    }
  }

  /** The gate after the first `k` events. */
  lemma {:induction false} RunOfPrefix(g: Gatekeeper, events: seq<Event>, k: nat)
    requires Runs(g, EMPTY_STATE, events) && k <= |events|
    ensures Runs(g, EMPTY_STATE, events[..k])
    decreases |events| - k
  {
    if k < |events| {
      RunOfPrefix(g, events, k + 1);
      assert events[..k + 1] == events[..k] + [events[k]];
      RunOfSnoc(g, EMPTY_STATE, events[..k], events[k]);
    } else {
      assert events[..k] == events;
    }
  }

  /** What a connection records comes from the run: its key, its messages with their times, and whether it closed. */
  ghost predicate Recorded(events: seq<Event>, id: ConnId, conn: Conn) {
    && (exists free :: Connect(id, conn.key, free) in events)
    && (forall m :: m in conn.messages ==> Message(id, m.proof, m.now) in events)
    && (conn.closed <==> ClosedIn(events, id))
  }

  ghost predicate ClosedIn(events: seq<Event>, id: ConnId) {
    exists throws :: Close(id, throws) in events
  }

  /** What a step changes of the recorded part of a connection. */
  lemma StepChanges(g: Gatekeeper, s: State, e: Event, id: ConnId)
    requires Enabled(s, e) && id in Next(g, s, e).conns
    ensures var conn := Next(g, s, e).conns[id];
      if id in s.conns then
        && conn.key == s.conns[id].key
        && conn.messages == s.conns[id].messages + (if e.Message? && e.id == id then [Check(e.proof, e.now)] else [])
        && conn.closed == (s.conns[id].closed || (e.Close? && e.id == id))
      else e.Connect? && e.id == id && conn.key == e.key && conn.messages == [] && !conn.closed
  {
    hide VerifyMembership, IsKey, Times;
    if e.Verdict? {
      hide Next;
      VerdictRecordsNothing(g, s, e, id);
    } else {
      hide Admitted;
    }
  }

  lemma VerdictRecordsNothing(g: Gatekeeper, s: State, e: Event, id: ConnId)
    requires Enabled(s, e) && e.Verdict?
    ensures id in Next(g, s, e).conns <==> id in s.conns
    ensures id in s.conns ==>
      var conn := Next(g, s, e).conns[id];
      conn.key == s.conns[id].key && conn.messages == s.conns[id].messages && conn.closed == s.conns[id].closed
  {
    hide VerifyMembership, IsKey, Times;
  }

  lemma StepRecords(g: Gatekeeper, s: State, events: seq<Event>, e: Event, id: ConnId)
    requires Enabled(s, e) && id in Next(g, s, e).conns
    requires id in s.conns ==> Recorded(events, id, s.conns[id])
    requires id !in s.conns ==> !ClosedIn(events, id)
    ensures Recorded(events + [e], id, Next(g, s, e).conns[id])
  {
    StepChanges(g, s, e, id);
    ClosedInSnoc(events, e, id);
    hide Next, Enabled, ClosedIn;
    var conn := Next(g, s, e).conns[id];
    if id in s.conns {
      var free :| Connect(id, s.conns[id].key, free) in events;
      assert Connect(id, conn.key, free) in events + [e];
    } else {
      assert Connect(id, conn.key, e.channelFree) in events + [e];
    }
    forall m | m in conn.messages ensures Message(id, m.proof, m.now) in events + [e] {
      assert id in s.conns && (m in s.conns[id].messages || e == Message(id, m.proof, m.now));
    }
  }

  lemma ClosedInSnoc(events: seq<Event>, e: Event, id: ConnId)
    ensures ClosedIn(events + [e], id) <==> ClosedIn(events, id) || (e.Close? && e.id == id)
  {
    if throws :| Close(id, throws) in events + [e] {
      assert Close(id, throws) in events || Close(id, throws) == e;
    }
    if throws :| Close(id, throws) in events {
      assert Close(id, throws) in events + [e];
    }
    if e.Close? && e.id == id {
      assert Close(id, e.listenerThrows) == e && e in events + [e];
    }
  }

  lemma {:induction false} RunRecords(g: Gatekeeper, events: seq<Event>)
    requires Runs(g, EMPTY_STATE, events)
    ensures forall id :: id in Run(g, EMPTY_STATE, events).conns ==>
              Recorded(events, id, Run(g, EMPTY_STATE, events).conns[id])
    ensures forall id :: id !in Run(g, EMPTY_STATE, events).conns ==> !ClosedIn(events, id)
    decreases |events|
  {
    hide Recorded, ClosedIn;
    if events == [] {
      NothingClosed();
    } else {
      var n := |events| - 1;
      var before, e := events[..n], events[n];
      assert events == before + [e];
      RunOfSnoc(g, EMPTY_STATE, before, e);
      RunRecords(g, before);
      var s := Run(g, EMPTY_STATE, before);
      forall id | id in Next(g, s, e).conns ensures Recorded(events, id, Next(g, s, e).conns[id]) {
        StepRecords(g, s, before, e, id);
      }
      forall id | id !in Next(g, s, e).conns ensures !ClosedIn(events, id) {
        StillUnknown(g, s, before, e, id);
      }
    }
  }

  lemma NothingClosed()
    ensures forall id :: !ClosedIn([], id)
  {
  }

  lemma StillUnknown(g: Gatekeeper, s: State, events: seq<Event>, e: Event, id: ConnId)
    requires Enabled(s, e) && id !in Next(g, s, e).conns
    requires id !in s.conns ==> !ClosedIn(events, id)
    ensures !ClosedIn(events + [e], id)
  {
    hide VerifyMembership;
    assert forall x :: x in events + [e] <==> x in events || x == e;
  }

  // ---------------------------------------------------------------------
  // Gate soundness
  // ---------------------------------------------------------------------

  /** At the time of the check, the proof derives from the root an authority for exactly this key. */
  ghost predicate ProvesKey(g: Gatekeeper, check: Check, key: seq<nat>) {
    exists d ::
      && Restore(check.proof) == Ok(LinksOf(d))
      && Authorises(g, d, key, check.now)
      && PublicKeyFromDid(d.link.aud) == Ok(key)
  }

  lemma {:induction false} PositiveProvesKey(g: Gatekeeper, key: seq<nat>, check: Check)
    requires IsKey(key) && Positive(g, key, check)
    ensures ProvesKey(g, check, key)
  {
    MemberIffAuthorised(g, key, check.proof, check.now);
    var d :| Restore(check.proof) == Ok(LinksOf(d)) && Authorises(g, d, key, check.now);
    KeyComesBack(key);
  }

  /**
   Over every run, whatever the order of timers, proofs, verdicts, throws and
   closes: a connection is replicated at most once, and it is replicated or
   counted as a peer only if its first proof, arrived before the timeout, is the
   links of a derivation from the workspace root that authorised, at the time
   the proof arrived, exactly the key this connection authenticated.
   */
  lemma {:induction false} GateIsSound(g: Gatekeeper, events: seq<Event>, id: ConnId)
    requires Runs(g, EMPTY_STATE, events)
    ensures var s := Run(g, EMPTY_STATE, events);
            && Times(s.replicated, id) <= 1
            && (Times(s.replicated, id) == 1 || id in s.peers ==>
                  && id in s.conns && !s.conns[id].timedOut && s.conns[id].messages != []
                  && var conn, first := s.conns[id], s.conns[id].messages[0];
                  && conn.decided == Some(first) && Message(id, first.proof, first.now) in events
                  && (exists free :: Connect(id, conn.key, free) in events)
                  && ProvesKey(g, first, conn.key))
  {
    RunKeeps(g, EMPTY_STATE, events);
    RunRecords(g, events);
    hide Run, Runs, Times, Positive, ProvesKey, IsKey;
    var s := Run(g, EMPTY_STATE, events);
    if Times(s.replicated, id) == 1 || id in s.peers {
      assert id in s.conns && ConnInv(g, s, id) && Recorded(events, id, s.conns[id]);
      PositiveProvesKey(g, s.conns[id].key, s.conns[id].decided.value);
    }
  }

  /** And the other way: a peer that proves its membership before the timer is let in. */
  lemma HonestMemberGetsIn(g: Gatekeeper, s: State, id: ConnId, proof: Wire, now: int)
    requires Inv(g, s) && id in s.conns && s.conns[id].listening && !s.conns[id].settled
    requires Positive(g, s.conns[id].key, Check(proof, now))
    ensures Enabled(Next(g, s, Message(id, proof, now)), Verdict(id, false, false))
    ensures var t := Next(g, Next(g, s, Message(id, proof, now)), Verdict(id, false, false));
            Times(t.replicated, id) == 1 && id in t.peers && !t.conns[id].timedOut
  {
    hide Positive, IsKey, Times;
    assert ConnInv(g, s, id);
    var waiting := Next(g, s, Message(id, proof, now));
    StepKeeps(g, s, Message(id, proof, now));
    AdmissionStep(g, waiting, Verdict(id, false, false));
    TimesSnoc(s.replicated, id, id);
  }

  // ---------------------------------------------------------------------
  // Which connections are destroyed
  // ---------------------------------------------------------------------

  /**
   What must end a connection: no free channel, failing to present our proof,
   the timer before any proof, a refused proof, or an exception in verifying,
   admitting or replicating.
   */
  predicate Ends(g: Gatekeeper, s: State, e: Event, id: ConnId)
    requires Enabled(s, e)
  {
    e.id == id &&
    match e
    case Connect(_, _, channelFree) => !channelFree
    case SetupThrows(_) => true
    case TimerFires(_) => !s.conns[id].settled
    case Message(_, _, _) => false
    case Verdict(_, replicateThrows, listenerThrows) =>
      !Positive(g, s.conns[id].key, s.conns[id].pending.value) || replicateThrows || listenerThrows
    case VerifyThrows(_) => true
    case Close(_, _) => false
  }

  /** A step destroys a connection exactly when it must, and none brings one back. */
  lemma StepDestroysIff(g: Gatekeeper, s: State, e: Event, id: ConnId)
    requires Inv(g, s) && Enabled(s, e) && id in Next(g, s, e).conns
    ensures Next(g, s, e).conns[id].destroyed <==> (id in s.conns && s.conns[id].destroyed) || Ends(g, s, e, id)
  {
    hide VerifyMembership, IsKey, Times, Inv, ConnInv;
    if e.Verdict? && Positive(g, s.conns[e.id].key, s.conns[e.id].pending.value) {
      hide Next, Positive;
      AdmissionStep(g, s, e);
    } else {
      hide Admitted, LetIn;
    }
  }

  /** Event `k` of the run ends the connection. */
  ghost predicate EndsAt(g: Gatekeeper, events: seq<Event>, k: nat, id: ConnId)
    requires k < |events|
  {
    && Runs(g, EMPTY_STATE, events[..k]) && Enabled(Run(g, EMPTY_STATE, events[..k]), events[k])
    && Ends(g, Run(g, EMPTY_STATE, events[..k]), events[k], id)
  }

  ghost predicate Ended(g: Gatekeeper, events: seq<Event>, id: ConnId) {
    exists k :: 0 <= k < |events| && EndsAt(g, events, k, id)
  }

  lemma EndedBefore(g: Gatekeeper, events: seq<Event>, id: ConnId)
    requires events != []
    ensures Ended(g, events, id) <==> Ended(g, events[..|events| - 1], id) || EndsAt(g, events, |events| - 1, id)
  {
    hide Runs, Run, Enabled, Ends;
    var before := events[..|events| - 1];
    assert forall k :: 0 <= k < |before| ==> before[..k] == events[..k] && before[k] == events[k];
    assert forall k :: 0 <= k < |before| ==> EndsAt(g, before, k, id) == EndsAt(g, events, k, id);
  }

  lemma StrangerIsNotEnded(g: Gatekeeper, s: State, e: Event, id: ConnId)
    requires Enabled(s, e) && id !in Next(g, s, e).conns
    ensures id !in s.conns && !Ends(g, s, e, id)
  {
    hide VerifyMembership;
  }

  /** In any run a connection is destroyed if and only if some event of the run ends it. */
  lemma {:induction false} DestroyedIff(g: Gatekeeper, events: seq<Event>, id: ConnId)
    requires Runs(g, EMPTY_STATE, events)
    ensures id in Run(g, EMPTY_STATE, events).conns && Run(g, EMPTY_STATE, events).conns[id].destroyed <==>
              Ended(g, events, id)
    decreases |events|
  {
    hide Next, Ends, Inv, Enabled;
    if events != [] {
      var n := |events| - 1;
      var before, e := events[..n], events[n];
      assert events == before + [e];
      RunOfSnoc(g, EMPTY_STATE, before, e);
      DestroyedIff(g, before, id);
      RunKeeps(g, EMPTY_STATE, before) by {
        NothingToKeep(g);
      }
      var s := Run(g, EMPTY_STATE, before);
      EndedBefore(g, events, id);
      if id in Next(g, s, e).conns {
        StepDestroysIff(g, s, e, id);
      } else {
        StrangerIsNotEnded(g, s, e, id);
      }
      ConnsStay(g, s, e);
    }
  }

  /** No free channel, or an exception in presenting our proof or in verifying theirs: these end a connection at any time. */
  predicate AlwaysEnds(e: Event, id: ConnId) {
    match e
    case Connect(i, _, channelFree) => i == id && !channelFree
    case SetupThrows(i) => i == id
    case VerifyThrows(i) => i == id
    case _ => false
  }

  /** So a refused proof, a timeout before any proof, a taken channel and an exception all end the connection, whatever else happens. */
  lemma RefusedIsDestroyed(g: Gatekeeper, events: seq<Event>, id: ConnId)
    requires Runs(g, EMPTY_STATE, events) && id in Run(g, EMPTY_STATE, events).conns
    ensures var conn := Run(g, EMPTY_STATE, events).conns[id];
            && (conn.decided.Some? && !Positive(g, conn.key, conn.decided.value) ==> conn.destroyed)
            && (conn.timedOut ==> conn.destroyed)
            && ((exists k :: 0 <= k < |events| && AlwaysEnds(events[k], id)) ==> conn.destroyed)
  {
    RunKeeps(g, EMPTY_STATE, events);
    hide Positive, IsKey, Times;
    assert ConnInv(g, Run(g, EMPTY_STATE, events), id);
    if k :| 0 <= k < |events| && AlwaysEnds(events[k], id) {
      ThrowIsDestroyed(g, events, id, k);
    }
  }

  lemma {:induction false} ThrowIsDestroyed(g: Gatekeeper, events: seq<Event>, id: ConnId, k: nat)
    requires Runs(g, EMPTY_STATE, events) && k < |events| && AlwaysEnds(events[k], id)
    ensures id in Run(g, EMPTY_STATE, events).conns && Run(g, EMPTY_STATE, events).conns[id].destroyed
  {
    hide Next, Positive, Inv, Run;
    RunOfPrefix(g, events, k);
    RunOfPrefix(g, events, k + 1);
    assert events[..k + 1] == events[..k] + [events[k]];
    RunOfSnoc(g, EMPTY_STATE, events[..k], events[k]);
    assert EndsAt(g, events, k, id);
    DestroyedIff(g, events, id);
  }

  // ---------------------------------------------------------------------
  // Who the peers are
  // ---------------------------------------------------------------------

  /** The connections that were admitted, are replicated and have not closed. */
  ghost function OpenAdmitted(s: State): set<ConnId> {
    set id | id in s.conns && Times(s.replicated, id) == 1 && !s.conns[id].closed
  }

  /** The verdict at `k` is positive and comes after the connection closed, or a peer listener throws in it. */
  ghost predicate Spoils(g: Gatekeeper, events: seq<Event>, k: nat, id: ConnId)
    requires k < |events|
  {
    && events[k].Verdict? && events[k].id == id
    && Runs(g, EMPTY_STATE, events[..k])
    && var s := Run(g, EMPTY_STATE, events[..k]);
    && id in s.conns && s.conns[id].pending.Some? && Positive(g, s.conns[id].key, s.conns[id].pending.value)
    && (events[k].listenerThrows || ClosedIn(events[..k], id))
  }

  ghost predicate Spoilt(g: Gatekeeper, events: seq<Event>, id: ConnId) {
    exists k :: 0 <= k < |events| && Spoils(g, events, k, id)
  }

  predicate Sticks(g: Gatekeeper, s: State, e: Event, id: ConnId)
    requires Enabled(s, e)
  {
    && e.Verdict? && e.id == id && Positive(g, s.conns[id].key, s.conns[id].pending.value)
    && (e.listenerThrows || s.conns[id].closed)
  }

  /** A step makes a connection stuck exactly when it is such a verdict. */
  lemma StepSticks(g: Gatekeeper, s: State, e: Event, id: ConnId)
    requires Inv(g, s) && Enabled(s, e) && id in Next(g, s, e).conns
    ensures Next(g, s, e).conns[id].stuck <==> (id in s.conns && s.conns[id].stuck) || Sticks(g, s, e, id)
  {
    hide VerifyMembership, IsKey, Times, Inv, ConnInv;
    if e.Verdict? && Positive(g, s.conns[e.id].key, s.conns[e.id].pending.value) {
      hide Next, Positive;
      AdmissionStep(g, s, e);
      PendingIsNotStuck(g, s, e.id);
    } else {
      hide Admitted, LetIn;
    }
  }

  lemma PendingIsNotStuck(g: Gatekeeper, s: State, id: ConnId)
    requires Inv(g, s) && id in s.conns && s.conns[id].pending.Some?
    ensures !s.conns[id].stuck
  {
    hide Positive, IsKey, Times;
    assert ConnInv(g, s, id);
  }

  lemma {:induction false} StuckIffSpoilt(g: Gatekeeper, events: seq<Event>, id: ConnId)
    requires Runs(g, EMPTY_STATE, events)
    ensures id in Run(g, EMPTY_STATE, events).conns && Run(g, EMPTY_STATE, events).conns[id].stuck <==>
              Spoilt(g, events, id)
    decreases |events|
  {
    hide Next, Positive, ClosedIn, Inv;
    if events != [] {
      var n := |events| - 1;
      var before, e := events[..n], events[n];
      assert events == before + [e];
      RunOfSnoc(g, EMPTY_STATE, before, e);
      StuckIffSpoilt(g, before, id);
      RunKeeps(g, EMPTY_STATE, before) by {
        NothingToKeep(g);
      }
      RunRecords(g, before);
      var s := Run(g, EMPTY_STATE, before);
      SpoiltBefore(g, events, id);
      if id in Next(g, s, e).conns {
        StepSticks(g, s, e, id);
      }
      ConnsStay(g, s, e);
    }
  }

  lemma NothingToKeep(g: Gatekeeper)
    ensures Inv(g, EMPTY_STATE)
  {
  }

  lemma ConnsStay(g: Gatekeeper, s: State, e: Event)
    requires Enabled(s, e)
    ensures forall id :: id in s.conns ==> id in Next(g, s, e).conns
  {
    hide VerifyMembership;
  }

  lemma SpoiltBefore(g: Gatekeeper, events: seq<Event>, id: ConnId)
    requires events != []
    ensures Spoilt(g, events, id) <==> Spoilt(g, events[..|events| - 1], id) || Spoils(g, events, |events| - 1, id)
  {
    hide Runs, Run, Positive, ClosedIn;
    var before := events[..|events| - 1];
    assert forall k :: 0 <= k < |before| ==> before[..k] == events[..k] && before[k] == events[k];
    assert forall k :: 0 <= k < |before| ==> Spoils(g, before, k, id) == Spoils(g, events, k, id);
  }

  /**
   In any run the peers are exactly the open admitted connections if and only if
   no positive verdict came after the close of its connection and none made a
   peer listener throw. The last notice is the count in any case.
   */
  lemma PeersAreTheOpenOnesIff(g: Gatekeeper, events: seq<Event>)
    requires Runs(g, EMPTY_STATE, events)
    ensures var s := Run(g, EMPTY_STATE, events);
            && OpenAdmitted(s) <= s.peers
            && (s.peers == OpenAdmitted(s) <==> forall id :: !Spoilt(g, events, id))
            && |s.peers| == if s.notices == [] then 0 else s.notices[|s.notices| - 1]
  {
    RunKeeps(g, EMPTY_STATE, events);
    hide Run, Runs, Spoilt, Positive, IsKey, Times, ConnInv;
    var s := Run(g, EMPTY_STATE, events);
    forall id
      ensures id in OpenAdmitted(s) ==> id in s.peers
      ensures id in s.peers && id !in OpenAdmitted(s) <==> Spoilt(g, events, id)
    {
      StuckIffSpoilt(g, events, id);
      if id in s.conns {
        PeerOrStuck(g, s, id);
      }
    }
  }

  lemma PeerOrStuck(g: Gatekeeper, s: State, id: ConnId)
    requires id in s.conns && ConnInv(g, s, id)
    ensures id in OpenAdmitted(s) ==> id in s.peers
    ensures id in s.peers && id !in OpenAdmitted(s) <==> s.conns[id].stuck
  {
    hide Positive, IsKey, Times;
  }

  /** A stuck connection stays among the peers, for ever. */
  lemma {:induction false} StuckForEver(g: Gatekeeper, s: State, events: seq<Event>, id: ConnId)
    requires Inv(g, s) && Runs(g, s, events) && id in s.conns && s.conns[id].stuck
    ensures var t := Run(g, s, events);
            && id in t.peers && id in t.conns && t.conns[id].stuck && (s.conns[id].closed ==> t.conns[id].closed)
            && Times(t.replicated, id) == Times(s.replicated, id)
    decreases |events|
  {
    hide Next, Inv, Times;
    if events == [] {
      StuckIsPeer(g, s, id);
    } else {
      StepKeeps(g, s, events[0]);
      ConnsStay(g, s, events[0]);
      StepSticks(g, s, events[0], id);
      StuckStep(g, s, events[0], id);
      StuckForEver(g, Next(g, s, events[0]), events[1..], id);
    }
  }

  lemma StuckIsPeer(g: Gatekeeper, s: State, id: ConnId)
    requires Inv(g, s) && id in s.conns && s.conns[id].stuck
    ensures id in s.peers
  {
    assert ConnInv(g, s, id);
  }

  /** No step closes a closed connection open again, and none replicates a stuck one. */
  lemma StuckStep(g: Gatekeeper, s: State, e: Event, id: ConnId)
    requires Inv(g, s) && Enabled(s, e) && id in s.conns && s.conns[id].stuck
    ensures id in Next(g, s, e).conns && (s.conns[id].closed ==> Next(g, s, e).conns[id].closed)
    ensures Times(Next(g, s, e).replicated, id) == Times(s.replicated, id)
  {
    hide VerifyMembership, IsKey, Times;
    assert ConnInv(g, s, id);
    if e.Verdict? {
      TimesSnoc(s.replicated, e.id, id);
    }
  }

  lemma RunsStep(g: Gatekeeper, s: State, events: seq<Event>, k: nat, end: State)
    requires k < |events| && Enabled(s, events[k])
    requires if k + 1 == |events| then Next(g, s, events[k]) == end
             else Runs(g, Next(g, s, events[k]), events[k + 1..]) && Run(g, Next(g, s, events[k]), events[k + 1..]) == end
    ensures Runs(g, s, events[k..]) && Run(g, s, events[k..]) == end
  {
    hide Next;
    assert events[k..][1..] == events[k + 1..];
    if k + 1 == |events| {
      assert events[k + 1..] == [];
      assert Runs(g, end, []) && Run(g, end, []) == end;
    }
  }

  /** Connect, prove, close, and only then the verdict. */
  function LateVerdict(key: seq<nat>, proof: Wire, now: int): seq<Event> {
    [Connect(0, key, true), Message(0, proof, now), Close(0, false), Verdict(0, false, false)]
  }

  lemma LateVerdictRuns(g: Gatekeeper, key: seq<nat>, proof: Wire, now: int)
    requires IsKey(key) && Positive(g, key, Check(proof, now))
    ensures Runs(g, EMPTY_STATE, LateVerdict(key, proof, now))
    ensures var s := Run(g, EMPTY_STATE, LateVerdict(key, proof, now)); 0 in s.conns && s.conns[0].stuck && s.conns[0].closed
  {
    hide VerifyMembership, IsKey, Inv, ConnInv, Times;
    var events := LateVerdict(key, proof, now);
    var s1 := Next(g, EMPTY_STATE, events[0]);
    var s2 := Next(g, s1, events[1]);
    var s3 := Next(g, s2, events[2]);
    var s4 := Next(g, s3, events[3]);
    RunsStep(g, s3, events, 3, s4);
    RunsStep(g, s2, events, 2, s4);
    RunsStep(g, s1, events, 1, s4);
    RunsStep(g, EMPTY_STATE, events, 0, s4);
    assert events[0..] == events;
  }

  /** The closed connection is a peer after that, and after any continuation. */
  lemma ClosedPeerCanStay(g: Gatekeeper, key: seq<nat>, proof: Wire, now: int, more: seq<Event>)
    requires IsKey(key) && Positive(g, key, Check(proof, now))
    ensures Runs(g, EMPTY_STATE, LateVerdict(key, proof, now))
    ensures var s := Run(g, EMPTY_STATE, LateVerdict(key, proof, now));
            Runs(g, s, more) ==> var t := Run(g, s, more); 0 in t.peers && 0 in t.conns && t.conns[0].closed
  {
    LateVerdictRuns(g, key, proof, now);
    NothingToKeep(g);
    hide Runs, Run, Inv, Positive, IsKey, LateVerdict;
    RunKeeps(g, EMPTY_STATE, LateVerdict(key, proof, now));
    var s := Run(g, EMPTY_STATE, LateVerdict(key, proof, now));
    if Runs(g, s, more) {
      StuckForEver(g, s, more, 0);
    }
  }

  /** Connect, prove, and a peer listener throws while the connection is admitted. */
  function ThrowingVerdict(key: seq<nat>, proof: Wire, now: int): seq<Event> {
    [Connect(0, key, true), Message(0, proof, now), Verdict(0, false, true)]
  }

  lemma ThrowingVerdictRuns(g: Gatekeeper, key: seq<nat>, proof: Wire, now: int)
    requires IsKey(key) && Positive(g, key, Check(proof, now))
    ensures Runs(g, EMPTY_STATE, ThrowingVerdict(key, proof, now))
    ensures var s := Run(g, EMPTY_STATE, ThrowingVerdict(key, proof, now));
            0 in s.conns && s.conns[0].stuck && s.conns[0].destroyed && s.replicated == []
  {
    hide VerifyMembership, IsKey, Inv, ConnInv, Times;
    var events := ThrowingVerdict(key, proof, now);
    var s1 := Next(g, EMPTY_STATE, events[0]);
    var s2 := Next(g, s1, events[1]);
    var s3 := Next(g, s2, events[2]);
    RunsStep(g, s2, events, 2, s3);
    RunsStep(g, s1, events, 1, s3);
    RunsStep(g, EMPTY_STATE, events, 0, s3);
    assert events[0..] == events;
  }

  /** The destroyed connection is a peer for ever, and is never replicated. */
  lemma ThrowingListenerStrandsPeer(g: Gatekeeper, key: seq<nat>, proof: Wire, now: int, more: seq<Event>)
    requires IsKey(key) && Positive(g, key, Check(proof, now))
    ensures Runs(g, EMPTY_STATE, ThrowingVerdict(key, proof, now))
    ensures var s := Run(g, EMPTY_STATE, ThrowingVerdict(key, proof, now));
            && 0 in s.conns && s.conns[0].destroyed
            && (Runs(g, s, more) ==> 0 in Run(g, s, more).peers && Times(Run(g, s, more).replicated, 0) == 0)
  {
    ThrowingVerdictRuns(g, key, proof, now);
    NothingToKeep(g);
    hide Runs, Run, Inv, Positive, IsKey, ThrowingVerdict;
    RunKeeps(g, EMPTY_STATE, ThrowingVerdict(key, proof, now));
    var s := Run(g, EMPTY_STATE, ThrowingVerdict(key, proof, now));
    if Runs(g, s, more) {
      StuckForEver(g, s, more, 0);
    }
  }

  // ---------------------------------------------------------------------
  // The handlers
  // ---------------------------------------------------------------------

  class GatedRuntime {
    const gate: Gatekeeper
    var conns: map<ConnId, Conn>
    var peers: set<ConnId>
    var replicated: seq<ConnId>
    var notices: seq<nat>

    ghost function Now(): State
      reads this
    {
      State(conns, peers, replicated, notices)
    }

    constructor (gate: Gatekeeper)
      ensures this.gate == gate && Now() == EMPTY_STATE
    {
      this.gate := gate;
      conns, peers, replicated, notices := map[], {}, [], [];
    }

    method NotifyPeers()
      modifies this`notices
      ensures notices == old(notices) + [|peers|]
    {
      notices := notices + [|peers|];
    }

    function PeerCount(): (count: nat)
      reads this
      ensures Inv(gate, Now()) ==> count == if notices == [] then 0 else notices[|notices| - 1]
    {
      |peers|
    }

    /** Whether a listener threw; then the close hook is never attached. */
    method Admit(id: ConnId, listenerThrows: bool) returns (threw: bool)
      requires id in conns
      modifies this
      ensures Now() == Admitted(old(Now()), id, listenerThrows)
      ensures threw == (listenerThrows && id !in old(peers))
    {
      if id in peers {
        return false;
      }
      peers := peers + {id};
      NotifyPeers();
      conns := conns[id := conns[id].(closeHook := !conns[id].closed && !listenerThrows,
                                      stuck := conns[id].closed || listenerThrows)];
      return listenerThrows;
    }

    /** The 'close' event, with the hook `admit` may have left. */
    method OnClose(id: ConnId, listenerThrows: bool)
      requires Enabled(Now(), Close(id, listenerThrows))
      modifies this
      ensures Now() == Next(gate, old(Now()), Close(id, listenerThrows))
    {
      hide VerifyMembership, IsKey;
      var hooked := conns[id].closeHook;
      conns := conns[id := conns[id].(closed := true, closeHook := false)];
      if hooked && id in peers {
        peers := peers - {id};
        NotifyPeers();
      }
    }

    method OnConnection(id: ConnId, key: seq<nat>, channelFree: bool)
      requires Enabled(Now(), Connect(id, key, channelFree))
      modifies this
      ensures Now() == Next(gate, old(Now()), Connect(id, key, channelFree))
    {
      var conn := Conn(key, false, true, false, None, false, false, false, [], false, None, false);
      if !channelFree {
        conn := conn.(timer := false, destroyed := true);
      } else {
        conn := conn.(listening := true);
      }
      conns := conns[id := conn];
    }

    method OnSetupError(id: ConnId)
      requires Enabled(Now(), SetupThrows(id))
      modifies this
      ensures Now() == Next(gate, old(Now()), SetupThrows(id))
    {
      conns := conns[id := conns[id].(destroyed := true)];
    }

    method OnTimer(id: ConnId)
      requires Enabled(Now(), TimerFires(id))
      modifies this
      ensures Now() == Next(gate, old(Now()), TimerFires(id))
    {
      conns := conns[id := conns[id].(timer := false)];
      if conns[id].settled {
        return;
      }
      conns := conns[id := conns[id].(settled := true, timedOut := true)];
      conns := conns[id := conns[id].(destroyed := true)];
    }

    method OnMessage(id: ConnId, proof: Wire, now: int)
      requires Enabled(Now(), Message(id, proof, now))
      modifies this
      ensures Now() == Next(gate, old(Now()), Message(id, proof, now))
    {
      hide VerifyMembership, IsKey;
      var conn := conns[id].(messages := conns[id].messages + [Check(proof, now)]);
      conns := conns[id := conn];
      if conn.settled {
        return;
      }
      conn := conn.(settled := true);
      conn := conn.(timer := false);
      conn := conn.(pending := Some(Check(proof, now)));
      conns := conns[id := conn];
    }

    method OnVerdict(id: ConnId, replicateThrows: bool, listenerThrows: bool)
      requires Enabled(Now(), Verdict(id, replicateThrows, listenerThrows))
      modifies this
      ensures Now() == Next(gate, old(Now()), Verdict(id, replicateThrows, listenerThrows))
    {
      hide VerifyMembership, IsKey, Times;
      var check := conns[id].pending.value;
      var conn := conns[id].(pending := None, decided := Some(check));
      conns := conns[id := conn];
      if !VerifyMembership(gate, conn.key, check.proof, check.now).Member? {
        conns := conns[id := conn.(destroyed := true)];
        return;
      }
      var threw := Admit(id, listenerThrows);
      if !threw {
        replicated := replicated + [id];
        threw := replicateThrows;
      }
      if threw {
        conns := conns[id := conns[id].(destroyed := true)];
      }
    }

    method OnVerifyError(id: ConnId)
      requires Enabled(Now(), VerifyThrows(id))
      modifies this
      ensures Now() == Next(gate, old(Now()), VerifyThrows(id))
    {
      var conn := conns[id].(pending := None);
      conn := conn.(destroyed := true);
      conns := conns[id := conn];
    }
  }
}
