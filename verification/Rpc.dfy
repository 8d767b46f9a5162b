/**
 Requests and answers between `RemoteWorkspace`s and the one child that hosts
 their workspaces. Every client hears every message of the shared transport, the
 child answers in any order, and other transports draw on the same id counter.
 */
module Rpc {
  import opened Results

  type Handle = nat      // `ws1`, `ws2`, ...
  type Workspace = nat   // a hosted workspace, named by the id of the request that opened it

  datatype Ask = Open(folder: string) | Use(handle: Handle, op: string) | Close(handle: Handle)

  datatype Request = Request(id: nat, ask: Ask)

  datatype Outcome = Opened(handle: Handle, length: nat) | Value(text: string) | Failed(message: string)

  datatype Message = Response(id: nat, outcome: Outcome) | Change(handle: Handle, length: nat)

  // ---------------------------------------------------------------------
  // The asking side
  // ---------------------------------------------------------------------

  /**
   One `RemoteWorkspace`, from its bootstrap call on; `handle` is known once that
   call resolved. `pending` maps a request id to the caller waiting on it, shown
   as what that caller asked.
   */
  datatype Client = Client(boot: nat, handle: Option<Handle>, length: nat, pending: map<nat, Ask>)

  datatype Settled = Settled(client: nat, id: nat, ask: Ask, outcome: Outcome)

  /** `handleMessage`, and the bootstrap listener before the instance exists. */
  function Receive(c: Client, msg: Message): Client {
    match msg
    case Change(handle, length) => if c.handle == Some(handle) then c.(length := length) else c
    case Response(id, outcome) =>
      if id !in c.pending then c
      else
        var c' := c.(pending := c.pending - {id});
        if id == c.boot && outcome.Opened?
        then c'.(handle := Some(outcome.handle), length := outcome.length) else c'
  }

  /** The callers a message settles at one client. */
  function Settles(index: nat, c: Client, msg: Message): seq<Settled> {
    if msg.Response? && msg.id in c.pending
    then [Settled(index, msg.id, c.pending[msg.id], msg.outcome)] else []
  }

  /** The callers a message settles at all clients, listeners in the order they subscribed. */
  function Broadcast(clients: seq<Client>, msg: Message): seq<Settled> {
    if clients == [] then []
    else
      var last := |clients| - 1;
      Broadcast(clients[..last], msg) + Settles(last, clients[last], msg)
  }

  // ---------------------------------------------------------------------
  // The answering side
  // ---------------------------------------------------------------------

  /** A request being dispatched, with the workspace `require` found for it. */
  datatype Work = Opening(request: Request) | Serving(request: Request, on: Workspace)

  datatype Reply = Reply(request: Request, servedBy: Option<Workspace>, outcome: Outcome)

  datatype Child = Child(nextHandle: Handle, workspaces: map<Handle, Workspace>, working: seq<Work>)

  function Without<T>(s: seq<T>, k: nat): (r: seq<T>)
    requires k < |s|
    ensures |r| == |s| - 1
  {
    s[..k] + s[k + 1..]
  }

  const UNKNOWN: string := "unknown workspace handle"

  /** `handle` up to its first await: an unknown handle is answered at once. */
  function Begin(c: Child, r: Request): (out: (Child, Option<Reply>)) {
    if r.ask.Open? then (c.(working := c.working + [Opening(r)]), None)
    else if r.ask.handle in c.workspaces then
      (c.(working := c.working + [Serving(r, c.workspaces[r.ask.handle])]), None)
    else (c, Some(Reply(r, None, Failed(UNKNOWN))))
  }

  /** How the awaited operation ended: with a value (for an open, the log's length) or an exception. */
  datatype Ending = Done(text: string, length: nat) | Threw(message: string)

  /** The rest of `handle`, with `track` after an open and the removal after a close. */
  function Finish(c: Child, k: nat, ending: Ending): (out: (Child, Reply))
    requires k < |c.working|
  {
    var w := c.working[k];
    var rest := c.(working := Without(c.working, k));
    match w
    case Opening(r) =>
      if ending.Threw? then (rest, Reply(r, None, Failed(ending.message)))
      else
        (rest.(nextHandle := c.nextHandle + 1, workspaces := c.workspaces[c.nextHandle := r.id]),
         Reply(r, None, Opened(c.nextHandle, ending.length)))
    case Serving(r, on) =>
      if ending.Threw? then (rest, Reply(r, Some(on), Failed(ending.message)))
      else
        (if r.ask.Close? then rest.(workspaces := c.workspaces - {r.ask.handle}) else rest,
         Reply(r, Some(on), Value(ending.text)))
  }

  // ---------------------------------------------------------------------
  // The whole system
  // ---------------------------------------------------------------------

  datatype Call = Call(owner: nat, ask: Ask)

  /** `calls`, `answered`, `settled`, `homes` and `reports` only record what has happened. */
  datatype State = State(
    nextId: nat,
    clients: seq<Client>,
    toChild: seq<Request>,
    child: Child,
    toParent: seq<Message>,
    alive: bool,
    calls: map<nat, Call>,
    answered: map<nat, Reply>,
    settled: seq<Settled>,
    homes: map<Handle, Workspace>,
    reports: set<(Workspace, nat)>)

  const EMPTY_STATE: State := State(1, [], [], Child(1, map[], []), [], true, map[], map[], [], map[], {})

  datatype Step =
    | Bootstrap(folder: string)                  // `fromTransport`: wsCreate or wsOpen
    | Rpc(client: nat, op: string)               // any call on an open workspace
    | CloseRpc(client: nat)
    | Elsewhere                                  // a request on some other transport
    | Take                                       // the child reads its next request
    | Answer(k: nat, ending: Ending)             // a dispatch ends
    | Emit(handle: Handle, length: nat)          // a `change` event of a hosted workspace
    | Deliver                                    // the transport hands a message to every client
    | Exit                                       // the child is gone

  predicate Enabled(s: State, e: Step) {
    match e
    case Bootstrap(_) => true
    case Rpc(i, _) => i < |s.clients| && s.clients[i].handle.Some?
    case CloseRpc(i) => i < |s.clients| && s.clients[i].handle.Some?
    case Elsewhere => true
    case Take => s.alive && s.toChild != []
    case Answer(k, _) => s.alive && k < |s.child.working|
    case Emit(h, _) => s.alive && h in s.child.workspaces
    case Deliver => s.toParent != []
    case Exit => true
  }

  /** `rpc`: number the request, remember the caller, send. */
  function Send(s: State, i: nat, ask: Ask): State
    requires i < |s.clients|
  {
    var c := s.clients[i];
    s.(nextId := s.nextId + 1,
       clients := s.clients[i := c.(pending := c.pending[s.nextId := ask])],
       toChild := s.toChild + [Request(s.nextId, ask)],
       calls := s.calls[s.nextId := Call(i, ask)])
  }

  function Respond(s: State, reply: Reply): State {
    s.(toParent := s.toParent + [Response(reply.request.id, reply.outcome)],
       answered := s.answered[reply.request.id := reply])
  }

  /** The child's bookkeeping of an answer: a new handle's home, and the length it opened at. */
  function Record(s: State, reply: Reply): State {
    if !reply.outcome.Opened? then s
    else s.(homes := s.homes[reply.outcome.handle := reply.request.id],
            reports := s.reports + {(reply.request.id, reply.outcome.length)})
  }

  function Next(s: State, e: Step): State
    requires Enabled(s, e)
  {
    match e
    case Bootstrap(folder) =>
      Send(s.(clients := s.clients + [Client(s.nextId, None, 0, map[])]), |s.clients|, Open(folder))
    case Rpc(i, op) => Send(s, i, Use(s.clients[i].handle.value, op))
    case CloseRpc(i) => Send(s, i, Close(s.clients[i].handle.value))
    case Elsewhere => s.(nextId := s.nextId + 1)
    case Take =>
      var (child, reply) := Begin(s.child, s.toChild[0]);
      var t := s.(toChild := s.toChild[1..], child := child);
      if reply.Some? then Respond(t, reply.value) else t
    case Answer(k, ending) =>
      var (child, reply) := Finish(s.child, k, ending);
      Record(Respond(s.(child := child), reply), reply)
    case Emit(h, length) =>
      s.(toParent := s.toParent + [Change(h, length)], reports := s.reports + {(s.child.workspaces[h], length)})
    case Deliver =>
      var msg := s.toParent[0];
      s.(toParent := s.toParent[1..],
         clients := seq(|s.clients|, i requires 0 <= i < |s.clients| => Receive(s.clients[i], msg)),
         settled := s.settled + Broadcast(s.clients, msg))
    case Exit => s.(alive := false)
  }

  predicate Runs(s: State, steps: seq<Step>)
    decreases |steps|
  {
    steps == [] || (Enabled(s, steps[0]) && Runs(Next(s, steps[0]), steps[1..]))
  }

  function Run(s: State, steps: seq<Step>): State
    requires Runs(s, steps)
    decreases |steps|
  {
    if steps == [] then s else Run(Next(s, steps[0]), steps[1..])
  }

  // ---------------------------------------------------------------------
  // Counting ids
  // ---------------------------------------------------------------------

  function Ids<T>(s: seq<T>, id: T -> multiset<nat>): multiset<nat> {
    if s == [] then multiset{} else Ids(s[..|s| - 1], id) + id(s[|s| - 1])
  }

  lemma {:induction false} IdsOfConcat<T>(a: seq<T>, b: seq<T>, id: T -> multiset<nat>)
    ensures Ids(a + b, id) == Ids(a, id) + Ids(b, id)
  {
    if b == [] {
      assert a + b == a;
    } else {
      var n := |b| - 1;
      assert (a + b)[..|a + b| - 1] == a + b[..n];
      IdsOfConcat(a, b[..n], id);
    }
  }

  lemma IdsOfSnoc<T>(s: seq<T>, x: T, id: T -> multiset<nat>)
    ensures Ids(s + [x], id) == Ids(s, id) + id(x)
  {
    assert (s + [x])[..|s|] == s;
  }

  lemma {:induction false} IdsWithout<T>(s: seq<T>, k: nat, id: T -> multiset<nat>)
    requires k < |s|
    ensures Ids(s, id) == Ids(Without(s, k), id) + id(s[k])
  {
    hide Ids;
    var a, b := s[..k], s[k + 1..];
    assert s == (a + [s[k]]) + b;
    IdsOfConcat(a + [s[k]], b, id);
    IdsOfSnoc(a, s[k], id);
    IdsOfConcat(a, b, id);
  }

  lemma {:induction false} IdOfMember<T>(s: seq<T>, k: nat, id: T -> multiset<nat>)
    requires k < |s|
    ensures id(s[k]) <= Ids(s, id)
  {
    IdsWithout(s, k, id);
  }

  lemma KeysGrow<V>(m: map<nat, V>, k: nat, v: V)
    requires k !in m
    ensures multiset(m[k := v].Keys) == multiset(m.Keys) + multiset{k}
  {
    assert m[k := v].Keys == m.Keys + {k};
  }

  function RequestId(r: Request): multiset<nat> { multiset{r.id} }

  function WorkId(w: Work): multiset<nat> { multiset{w.request.id} }

  function MessageId(m: Message): multiset<nat> {
    if m.Response? then multiset{m.id} else multiset{}
  }

  function SettledId(s: Settled): multiset<nat> { multiset{s.id} }

  function TotalPending(clients: seq<Client>): nat {
    if clients == [] then 0 else TotalPending(clients[..|clients| - 1]) + |clients[|clients| - 1].pending|
  }

  // ---------------------------------------------------------------------
  // What every step keeps
  // ---------------------------------------------------------------------

  /** Every id ever sent is in exactly one place: on its way, being served, answered and on its way back, or settled. */
  ghost predicate Conserved(s: State) {
    && multiset(s.calls.Keys) == Ids(s.toChild, RequestId) + Ids(s.child.working, WorkId) + multiset(s.answered.Keys)
    && multiset(s.answered.Keys) == Ids(s.toParent, MessageId) + Ids(s.settled, SettledId)
    && forall id :: id in s.calls ==> id < s.nextId
  }

  predicate Asked(s: State, r: Request) {
    r.id in s.calls && s.calls[r.id].ask == r.ask
  }

  predicate HomeOf(s: State, h: Handle, w: Workspace) {
    h in s.homes && s.homes[h] == w
  }

  predicate WorkOk(s: State, w: Work) {
    && Asked(s, w.request)
    && (w.Opening? <==> w.request.ask.Open?)
    && (w.Serving? ==> HomeOf(s, w.request.ask.handle, w.on))
  }

  predicate Reported(s: State, w: Workspace, length: nat) {
    (w, length) in s.reports
  }

  predicate AnswerOk(s: State, id: nat)
    requires id in s.answered
  {
    var reply := s.answered[id];
    && reply.request.id == id && Asked(s, reply.request)
    && (reply.servedBy.Some? ==> !reply.request.ask.Open? && HomeOf(s, reply.request.ask.handle, reply.servedBy.value))
    && (reply.outcome.Value? ==> reply.servedBy.Some?)
    && (reply.outcome.Opened? ==> HomeOf(s, reply.outcome.handle, id) && Reported(s, id, reply.outcome.length))
  }

  predicate Answered(s: State, id: nat, outcome: Outcome) {
    id in s.answered && s.answered[id].outcome == outcome
  }

  predicate MessageOk(s: State, m: Message) {
    match m
    case Response(id, outcome) => Answered(s, id, outcome)
    case Change(h, length) => h in s.homes && Reported(s, s.homes[h], length)
  }

  predicate SettledOk(s: State, x: Settled) {
    Answered(s, x.id, x.outcome) && x.id in s.calls && s.calls[x.id] == Call(x.client, x.ask)
  }

  predicate Waits(s: State, i: nat, id: nat)
    requires i < |s.clients| && id in s.clients[i].pending
  {
    id in s.calls && s.calls[id] == Call(i, s.clients[i].pending[id])
  }

  predicate ClientOk(s: State, i: nat)
    requires i < |s.clients|
  {
    var c := s.clients[i];
    && c.boot in s.calls && s.calls[c.boot].owner == i
    && (c.handle.Some? ==> c.boot !in c.pending && HomeOf(s, c.handle.value, c.boot) && Reported(s, c.boot, c.length))
  }

  predicate CallOk(s: State, id: nat)
    requires id in s.calls
  {
    var call := s.calls[id];
    && call.owner < |s.clients|
    && (id in s.clients[call.owner].pending <==> Ids(s.settled, SettledId)[id] == 0)
    && (!call.ask.Open? ==> s.clients[call.owner].handle == Some(call.ask.handle))
  }

  ghost predicate ChildInv(s: State) {
    && (forall k :: 0 <= k < |s.toChild| ==> Asked(s, s.toChild[k]))
    && (forall k :: 0 <= k < |s.child.working| ==> WorkOk(s, s.child.working[k]))
    && (forall id :: id in s.answered ==> AnswerOk(s, id))
    && (forall k :: 0 <= k < |s.toParent| ==> MessageOk(s, s.toParent[k]))
    && (forall h :: h in s.child.workspaces ==> HomeOf(s, h, s.child.workspaces[h]))
    && (forall h :: h in s.homes ==> h < s.child.nextHandle)
  }

  ghost predicate ClientInv(s: State) {
    && (forall k :: 0 <= k < |s.settled| ==> SettledOk(s, s.settled[k]))
    && (forall i, id :: 0 <= i < |s.clients| && id in s.clients[i].pending ==> Waits(s, i, id))
    && (forall i :: 0 <= i < |s.clients| ==> ClientOk(s, i))
    && (forall id :: id in s.calls ==> CallOk(s, id))
    && |s.calls| == |s.settled| + TotalPending(s.clients)
  }

  ghost predicate Inv(s: State) {
    Conserved(s) && ChildInv(s) && ClientInv(s)
  }

  lemma {:induction false} PendingGrows(clients: seq<Client>, i: nat, c: Client)
    requires i < |clients|
    ensures TotalPending(clients[i := c]) == TotalPending(clients) - |clients[i].pending| + |c.pending|
  {
    var n := |clients| - 1;
    if i < n {
      PendingGrows(clients[..n], i, c);
      assert clients[i := c][..n] == clients[..n][i := c];
    } else {
      assert clients[i := c][..n] == clients[..n];
    }
  }

  // --- sending ---

  /** The sender's client, if it is already there and may send this. */
  ghost predicate MaySend(s: State, i: nat, ask: Ask) {
    i < |s.clients| && (!ask.Open? ==> s.clients[i].handle == Some(ask.handle))
  }

  lemma SendConserves(s: State, i: nat, ask: Ask)
    requires Conserved(s) && MaySend(s, i, ask)
    ensures Conserved(Send(s, i, ask))
  {
    IdsOfSnoc(s.toChild, Request(s.nextId, ask), RequestId);
    KeysGrow(s.calls, s.nextId, Call(i, ask));
  }

  lemma SendKeepsChild(s: State, i: nat, ask: Ask)
    requires Conserved(s) && ChildInv(s) && MaySend(s, i, ask)
    ensures ChildInv(Send(s, i, ask))
  {
    hide Ids;
    var t := Send(s, i, ask);
    assert forall r: Request :: Asked(s, r) ==> Asked(t, r);
    assert forall k :: 0 <= k < |s.child.working| ==> WorkOk(s, s.child.working[k]) ==> WorkOk(t, s.child.working[k]);
    assert forall id :: id in s.answered ==> AnswerOk(s, id) ==> AnswerOk(t, id);
    assert forall k :: 0 <= k < |s.toParent| ==> MessageOk(s, s.toParent[k]) ==> MessageOk(t, s.toParent[k]);
  }

  lemma SentWaits(s: State, i: nat, ask: Ask, j: nat, id: nat)
    requires MaySend(s, i, ask) && (forall id :: id in s.calls ==> id < s.nextId)
    requires j < |s.clients| && id in Send(s, i, ask).clients[j].pending
    requires id in s.clients[j].pending ==> Waits(s, j, id)
    ensures Waits(Send(s, i, ask), j, id)
  {
  }

  lemma SentClient(s: State, i: nat, ask: Ask, j: nat)
    requires MaySend(s, i, ask) && (forall id :: id in s.calls ==> id < s.nextId)
    requires j < |s.clients| && ClientOk(s, j)
    ensures ClientOk(Send(s, i, ask), j)
  {
  }

  lemma SentCall(s: State, i: nat, ask: Ask, id: nat)
    requires MaySend(s, i, ask) && Ids(s.settled, SettledId)[s.nextId] == 0
    requires id in s.calls ==> id < s.nextId && CallOk(s, id)
    requires id in Send(s, i, ask).calls
    ensures CallOk(Send(s, i, ask), id)
  {
    hide Ids;
  }

  lemma OneMore<V>(m: map<nat, V>, k: nat, v: V)
    requires k !in m
    ensures |m[k := v]| == |m| + 1
  {
    assert m[k := v].Keys == m.Keys + {k};
    assert |m[k := v].Keys| == |m| + 1;
  }

  lemma SendCounts(clients: seq<Client>, i: nat, id: nat, ask: Ask)
    requires i < |clients| && id !in clients[i].pending
    ensures var c := clients[i].(pending := clients[i].pending[id := ask]);
      TotalPending(clients[i := c]) == TotalPending(clients) + 1
  {
    hide TotalPending;
    OneMore(clients[i].pending, id, ask);
    PendingGrows(clients, i, clients[i].(pending := clients[i].pending[id := ask]));
  }

  lemma SendKeepsClients(s: State, i: nat, ask: Ask)
    requires Conserved(s) && ClientInv(s) && MaySend(s, i, ask)
    ensures ClientInv(Send(s, i, ask))
  {
    hide Ids, TotalPending, Waits, ClientOk, CallOk, SettledOk;
    var t := Send(s, i, ask);
    NoSuchId(s, s.nextId);
    if s.nextId in s.clients[i].pending {
      WaitingWasCalled(s, i, s.nextId);
    }
    SendCounts(s.clients, i, s.nextId, ask);
    OneMore(s.calls, s.nextId, Call(i, ask));
    forall j, id | 0 <= j < |t.clients| && id in t.clients[j].pending ensures Waits(t, j, id) {
      SentWaits(s, i, ask, j, id);
    }
    forall j | 0 <= j < |t.clients| ensures ClientOk(t, j) {
      SentClient(s, i, ask, j);
    }
    forall id | id in t.calls ensures CallOk(t, id) {
      SentCall(s, i, ask, id);
    }
    forall k | 0 <= k < |t.settled| ensures SettledOk(t, t.settled[k]) {
      SettledStays(s, t, t.settled[k]);
    }
  }

  lemma WaitingWasCalled(s: State, i: nat, id: nat)
    requires i < |s.clients| && id in s.clients[i].pending && Waits(s, i, id)
    ensures id in s.calls
  {
  }

  lemma SettledStays(s: State, t: State, x: Settled)
    requires SettledOk(s, x)
    requires x.id in s.answered ==> x.id in t.answered && t.answered[x.id] == s.answered[x.id]
    requires x.id in s.calls ==> x.id in t.calls && t.calls[x.id] == s.calls[x.id]
    ensures SettledOk(t, x)
  {
  }

  /** An id that has not been used is nowhere. */
  lemma NoSuchId(s: State, id: nat)
    requires Conserved(s) && id !in s.calls
    ensures id !in s.answered && Ids(s.settled, SettledId)[id] == 0
  {
    assert multiset(s.calls.Keys)[id] == 0;
    assert multiset(s.answered.Keys)[id] == 0;
  }

  lemma BootstrapKeepsClients(s: State, folder: string)
    requires Conserved(s) && ClientInv(s)
    ensures ClientInv(Next(s, Bootstrap(folder)))
  {
    hide Ids, TotalPending, Waits, ClientOk, CallOk, SettledOk;
    var t := Next(s, Bootstrap(folder));
    NoSuchId(s, s.nextId);
    BootstrapCounts(s.clients, s.nextId, Open(folder));
    OneMore(s.calls, s.nextId, Call(|s.clients|, Open(folder)));
    BootstrapClients(s, folder);
    forall j, id' | 0 <= j < |t.clients| && id' in t.clients[j].pending ensures Waits(t, j, id') {
      BootstrappedWaits(s, folder, j, id');
    }
    forall j | 0 <= j < |t.clients| ensures ClientOk(t, j) {
      BootstrappedClient(s, folder, j);
    }
    forall id' | id' in t.calls ensures CallOk(t, id') {
      BootstrappedCall(s, folder, id');
    }
    forall k | 0 <= k < |t.settled| ensures SettledOk(t, t.settled[k]) {
      SettledStays(s, t, t.settled[k]);
    }
  }

  lemma BootstrapCounts(clients: seq<Client>, id: nat, ask: Ask)
    ensures TotalPending(clients + [Client(id, None, 0, map[id := ask])]) == TotalPending(clients) + 1
  {
    hide TotalPending;
    var none: map<nat, Ask> := map[];
    OneMore(none, id, ask);
    TotalPendingOfSnoc(clients, Client(id, None, 0, none[id := ask]));
    assert none[id := ask] == map[id := ask];
  }

  lemma BootstrapClients(s: State, folder: string)
    ensures Next(s, Bootstrap(folder)).clients == s.clients + [Client(s.nextId, None, 0, map[s.nextId := Open(folder)])]
  {
  }

  lemma BootstrappedWaits(s: State, folder: string, j: nat, id: nat)
    requires forall id :: id in s.calls ==> id < s.nextId
    requires j <= |s.clients| && id in Next(s, Bootstrap(folder)).clients[j].pending
    requires j < |s.clients| && id in s.clients[j].pending ==> Waits(s, j, id)
    ensures Waits(Next(s, Bootstrap(folder)), j, id)
  {
  }

  lemma BootstrappedClient(s: State, folder: string, j: nat)
    requires forall id :: id in s.calls ==> id < s.nextId
    requires j <= |s.clients| && (j < |s.clients| ==> ClientOk(s, j))
    ensures ClientOk(Next(s, Bootstrap(folder)), j)
  {
  }

  lemma BootstrappedCall(s: State, folder: string, id: nat)
    requires Ids(s.settled, SettledId)[s.nextId] == 0
    requires id in s.calls ==> id < s.nextId && CallOk(s, id)
    requires id in Next(s, Bootstrap(folder)).calls
    ensures CallOk(Next(s, Bootstrap(folder)), id)
  {
    hide Ids;
  }

  lemma TotalPendingOfSnoc(clients: seq<Client>, c: Client)
    ensures TotalPending(clients + [c]) == TotalPending(clients) + |c.pending|
  {
    assert (clients + [c])[..|clients|] == clients;
  }

  // --- the child's side ---

  /** `t` is `s` after the child has answered a request it took or was serving. */
  lemma RespondConserves(s: State, reply: Reply)
    requires forall id :: id in s.calls ==> id < s.nextId
    requires reply.request.id !in s.answered
    requires multiset(s.calls.Keys)
          == Ids(s.toChild, RequestId) + Ids(s.child.working, WorkId) + multiset(s.answered.Keys) + multiset{reply.request.id}
    requires multiset(s.answered.Keys) == Ids(s.toParent, MessageId) + Ids(s.settled, SettledId)
    ensures Conserved(Respond(s, reply))
  {
    hide Ids;
    KeysGrow(s.answered, reply.request.id, reply);
    IdsOfSnoc(s.toParent, Response(reply.request.id, reply.outcome), MessageId);
  }

  /** A request not yet answered has no answer on record. */
  lemma NotAnswered(s: State, id: nat)
    requires Conserved(s)
    requires id in Ids(s.toChild, RequestId) + Ids(s.child.working, WorkId)
    ensures id in s.calls && id !in s.answered
  {
    assert multiset(s.calls.Keys)[id] <= 1;
    assert id in s.answered ==> multiset(s.answered.Keys)[id] == 1;
  }

  lemma TakeConserves(s: State)
    requires Conserved(s) && Enabled(s, Take)
    ensures Conserved(Next(s, Take))
  {
    hide Ids;
    var r := s.toChild[0];
    var (child, reply) := Begin(s.child, r);
    assert Without(s.toChild, 0) == s.toChild[1..];
    IdsWithout(s.toChild, 0, RequestId);
    NotAnswered(s, r.id);
    if reply.Some? {
      RespondConserves(s.(toChild := s.toChild[1..]), reply.value);
    } else {
      var w := child.working[|s.child.working|];
      assert child.working == s.child.working + [w];
      IdsOfSnoc(s.child.working, w, WorkId);
    }
  }

  lemma AnswerConserves(s: State, k: nat, ending: Ending)
    requires Conserved(s) && Enabled(s, Answer(k, ending))
    ensures Conserved(Next(s, Answer(k, ending)))
  {
    hide Ids;
    var (child, reply) := Finish(s.child, k, ending);
    IdsWithout(s.child.working, k, WorkId);
    NotAnswered(s, reply.request.id);
    RespondConserves(s.(child := child), reply);
  }

  /** What a step must keep for the checks on single items to carry over. */
  predicate Grows(s: State, t: State) {
    && (forall id :: id in s.calls ==> id in t.calls && t.calls[id] == s.calls[id])
    && (forall id :: id in s.answered ==> id in t.answered && t.answered[id] == s.answered[id])
    && (forall h :: h in s.homes ==> h in t.homes && t.homes[h] == s.homes[h])
    && s.reports <= t.reports
  }

  lemma ItemsCarryOver(s: State, t: State)
    requires Grows(s, t)
    ensures forall r :: Asked(s, r) ==> Asked(t, r)
    ensures forall w :: WorkOk(s, w) ==> WorkOk(t, w)
    ensures forall m :: MessageOk(s, m) ==> MessageOk(t, m)
    ensures forall h, w :: HomeOf(s, h, w) ==> HomeOf(t, h, w)
    ensures forall id | id in s.answered :: AnswerOk(s, id) ==> AnswerOk(t, id)
  {
  }

  lemma TakeKeepsChild(s: State)
    requires Inv(s) && Enabled(s, Take)
    ensures ChildInv(Next(s, Take))
  {
    hide Ids, Asked, WorkOk, MessageOk, AnswerOk, ClientInv;
    var r := s.toChild[0];
    var t := Next(s, Take);
    NotAnswered(s, r.id) by {
      IdsWithout(s.toChild, 0, RequestId);
    }
    ItemsCarryOver(s, t);
    assert Asked(s, r);
    forall k | 0 <= k < |t.toChild| ensures Asked(t, t.toChild[k]) {
      assert t.toChild[k] == s.toChild[k + 1];
    }
    forall k | 0 <= k < |t.child.working| ensures WorkOk(t, t.child.working[k]) {
      if k >= |s.child.working| {
        TakenIsOk(s, t, r);
      }
    }
    forall id | id in t.answered ensures AnswerOk(t, id) {
      if id !in s.answered {
        RefusedIsOk(s, t, r);
      }
    }
    forall k | 0 <= k < |t.toParent| ensures MessageOk(t, t.toParent[k]) {
      if k >= |s.toParent| {
        RefusalIsOk(s, t, r);
      }
    }
  }

  lemma TakenIsOk(s: State, t: State, r: Request)
    requires r.ask.Open? || r.ask.handle in s.child.workspaces
    requires Asked(t, r) && (!r.ask.Open? ==> HomeOf(t, r.ask.handle, s.child.workspaces[r.ask.handle]))
    ensures WorkOk(t, Begin(s.child, r).0.working[|s.child.working|])
  {
  }

  lemma RefusedIsOk(s: State, t: State, r: Request)
    requires Asked(t, r) && r.id in t.answered && t.answered[r.id] == Reply(r, None, Failed(UNKNOWN))
    ensures AnswerOk(t, r.id)
  {
  }

  lemma RefusalIsOk(s: State, t: State, r: Request)
    requires r.id in t.answered && t.answered[r.id] == Reply(r, None, Failed(UNKNOWN))
    ensures MessageOk(t, Response(r.id, Failed(UNKNOWN)))
  {
  }

  lemma AnswerKeepsChild(s: State, k: nat, ending: Ending)
    requires Inv(s) && Enabled(s, Answer(k, ending))
    ensures ChildInv(Next(s, Answer(k, ending)))
  {
    hide Ids, Asked, WorkOk, MessageOk, AnswerOk, ClientInv;
    var w := s.child.working[k];
    var (child, reply) := Finish(s.child, k, ending);
    var t := Next(s, Answer(k, ending));
    NotAnswered(s, w.request.id) by {
      IdsWithout(s.child.working, k, WorkId);
    }
    ItemsCarryOver(s, t);
    assert WorkOk(s, w);
    AnswerIsOk(t, w, reply);
    forall j | 0 <= j < |t.toChild| ensures Asked(t, t.toChild[j]) {
    }
    forall j | 0 <= j < |t.child.working| ensures WorkOk(t, t.child.working[j]) {
      assert WorkOk(s, s.child.working[if j < k then j else j + 1]);
    }
    forall id | id in t.answered ensures AnswerOk(t, id) {
    }
    forall j | 0 <= j < |t.toParent| ensures MessageOk(t, t.toParent[j]) {
    }
    forall h | h in t.child.workspaces ensures HomeOf(t, h, t.child.workspaces[h]) {
      if h in s.child.workspaces {
        assert HomeOf(s, h, s.child.workspaces[h]);
      }
    }
  }

  lemma AnswerIsOk(t: State, w: Work, reply: Reply)
    requires WorkOk(t, w) && reply.request == w.request
    requires reply.servedBy == if w.Serving? then Some(w.on) else None
    requires reply.outcome.Value? ==> w.Serving?
    requires reply.outcome.Opened? ==> HomeOf(t, reply.outcome.handle, w.request.id) && Reported(t, w.request.id, reply.outcome.length)
    requires reply.request.id in t.answered && t.answered[reply.request.id] == reply
    ensures AnswerOk(t, reply.request.id) && MessageOk(t, Response(reply.request.id, reply.outcome))
  {
  }

  /** A step of the child leaves the clients as they were. */
  lemma ChildStepKeepsClients(s: State, t: State)
    requires ClientInv(s)
    requires t.clients == s.clients && t.calls == s.calls && t.settled == s.settled
    requires forall id :: id in s.answered ==> id in t.answered && t.answered[id] == s.answered[id]
    requires forall h :: h in s.homes ==> HomeOf(t, h, s.homes[h])
    requires s.reports <= t.reports
    ensures ClientInv(t)
  {
    hide Ids, TotalPending;
    forall k | 0 <= k < |t.settled| ensures SettledOk(t, t.settled[k]) {
      assert SettledOk(s, s.settled[k]);
    }
    forall i, id | 0 <= i < |t.clients| && id in t.clients[i].pending ensures Waits(t, i, id) {
      assert Waits(s, i, id);
    }
    forall i | 0 <= i < |t.clients| ensures ClientOk(t, i) {
      assert ClientOk(s, i);
    }
    forall id | id in t.calls ensures CallOk(t, id) {
      assert CallOk(s, id);
    }
  }

  lemma EmitKeepsChild(s: State, h: Handle, length: nat)
    requires Conserved(s) && ChildInv(s) && Enabled(s, Emit(h, length))
    ensures Conserved(Next(s, Emit(h, length))) && ChildInv(Next(s, Emit(h, length)))
  {
    hide Ids;
    var t := Next(s, Emit(h, length));
    IdsOfSnoc(s.toParent, Change(h, length), MessageId);
    assert HomeOf(s, h, s.child.workspaces[h]);
    forall j | 0 <= j < |t.toChild| ensures Asked(t, t.toChild[j]) {
      assert Asked(s, s.toChild[j]);
    }
    forall j | 0 <= j < |t.child.working| ensures WorkOk(t, t.child.working[j]) {
      assert WorkOk(s, s.child.working[j]);
    }
    forall id | id in t.answered ensures AnswerOk(t, id) {
      assert AnswerOk(s, id);
    }
    forall j | 0 <= j < |t.toParent| ensures MessageOk(t, t.toParent[j]) {
      if j < |s.toParent| {
        assert MessageOk(s, s.toParent[j]);
      }
    }
    forall h' | h' in t.child.workspaces ensures HomeOf(t, h', t.child.workspaces[h']) {
      assert HomeOf(s, h', s.child.workspaces[h']);
    }
  }

  // --- delivery ---

  /** Only the client that sent a request hears its answer. */
  lemma {:induction false} BroadcastReachesOwner(clients: seq<Client>, owner: nat, msg: Message)
    requires msg.Response? && owner < |clients| && msg.id in clients[owner].pending
    requires forall i :: 0 <= i < |clients| && i != owner ==> msg.id !in clients[i].pending
    ensures Broadcast(clients, msg) == [Settled(owner, msg.id, clients[owner].pending[msg.id], msg.outcome)]
  {
    var last := |clients| - 1;
    if owner == last {
      BroadcastReachesNobody(clients[..last], msg);
    } else {
      BroadcastReachesOwner(clients[..last], owner, msg);
    }
  }

  lemma {:induction false} BroadcastReachesNobody(clients: seq<Client>, msg: Message)
    requires msg.Response? ==> forall i :: 0 <= i < |clients| ==> msg.id !in clients[i].pending
    ensures Broadcast(clients, msg) == []
  {
    if clients != [] {
      BroadcastReachesNobody(clients[..|clients| - 1], msg);
    }
  }

  /** An answer on its way is not yet settled, and its sender alone is waiting for it. */
  lemma AnswerIsAwaited(s: State, m: Message)
    requires Inv(s) && s.toParent != [] && m == s.toParent[0] && m.Response?
    ensures m.id in s.calls && Ids(s.settled, SettledId)[m.id] == 0
    ensures var owner := s.calls[m.id].owner;
      && owner < |s.clients| && m.id in s.clients[owner].pending
      && s.clients[owner].pending[m.id] == s.calls[m.id].ask
      && forall i :: 0 <= i < |s.clients| && i != owner ==> m.id !in s.clients[i].pending
  {
    hide Ids, TotalPending;
    IdsWithout(s.toParent, 0, MessageId);
    assert MessageOk(s, m);
    assert AnswerOk(s, m.id);
    assert multiset(s.answered.Keys)[m.id] == 1;
    assert CallOk(s, m.id);
    var owner := s.calls[m.id].owner;
    assert Waits(s, owner, m.id);
    assert forall i :: 0 <= i < |s.clients| && m.id in s.clients[i].pending ==> Waits(s, i, m.id);
  }

  lemma DeliverConserves(s: State)
    requires Inv(s) && Enabled(s, Deliver)
    ensures Conserved(Next(s, Deliver))
  {
    hide Ids, TotalPending, Broadcast, Receive, ChildInv, ClientInv;
    var m := s.toParent[0];
    assert Without(s.toParent, 0) == s.toParent[1..];
    IdsWithout(s.toParent, 0, MessageId);
    if m.Response? {
      AnswerIsAwaited(s, m);
      var owner := s.calls[m.id].owner;
      BroadcastReachesOwner(s.clients, owner, m);
      IdsOfSnoc(s.settled, Settled(owner, m.id, s.clients[owner].pending[m.id], m.outcome), SettledId);
    } else {
      BroadcastReachesNobody(s.clients, m);
      assert s.settled + [] == s.settled;
    }
  }

  lemma DeliverKeepsChild(s: State)
    requires ChildInv(s) && Enabled(s, Deliver)
    ensures ChildInv(Next(s, Deliver))
  {
    hide Ids;
    var t := Next(s, Deliver);
    forall j | 0 <= j < |t.toChild| ensures Asked(t, t.toChild[j]) {
      assert Asked(s, s.toChild[j]);
    }
    forall j | 0 <= j < |t.child.working| ensures WorkOk(t, t.child.working[j]) {
      assert WorkOk(s, s.child.working[j]);
    }
    forall id | id in t.answered ensures AnswerOk(t, id) {
      assert AnswerOk(s, id);
    }
    forall j | 0 <= j < |t.toParent| ensures MessageOk(t, t.toParent[j]) {
      assert MessageOk(s, s.toParent[j + 1]);
    }
    forall h' | h' in t.child.workspaces ensures HomeOf(t, h', t.child.workspaces[h']) {
      assert HomeOf(s, h', s.child.workspaces[h']);
    }
  }

  /** The state after the owner has been settled, item by item. */
  lemma SettledWaits(s: State, i: nat, id: nat)
    requires Enabled(s, Deliver) && i < |s.clients| && id in Next(s, Deliver).clients[i].pending
    requires id in s.clients[i].pending ==> Waits(s, i, id)
    ensures Waits(Next(s, Deliver), i, id)
  {
    hide Broadcast;
  }

  lemma SettledClient(s: State, i: nat)
    requires Enabled(s, Deliver) && s.toParent[0].Response? && i < |s.clients| && ClientOk(s, i)
    requires MessageOk(s, s.toParent[0]) && AnswerOk(s, s.toParent[0].id)
    ensures ClientOk(Next(s, Deliver), i)
  {
    hide Broadcast;
  }

  lemma SettledCall(s: State, x: Settled, id: nat)
    requires Enabled(s, Deliver) && s.toParent[0] == Response(x.id, x.outcome)
    requires Broadcast(s.clients, s.toParent[0]) == [x]
    requires id in s.calls && CallOk(s, id)
    requires id == x.id ==> x.client == s.calls[id].owner
    requires s.calls[id].owner < |s.clients| ==> ClientOk(s, s.calls[id].owner)
    requires x.id in s.calls && Ids(s.settled, SettledId)[x.id] == 0
    ensures CallOk(Next(s, Deliver), id)
  {
    hide Ids, Broadcast;
    IdsOfSnoc(s.settled, x, SettledId);
  }

  lemma AnswerKeepsClients(s: State)
    requires Inv(s) && Enabled(s, Deliver) && s.toParent[0].Response?
    ensures ClientInv(Next(s, Deliver))
  {
    hide Ids, TotalPending, Broadcast, Waits, ClientOk, CallOk, SettledOk, AnswerOk;
    var m, t := s.toParent[0], Next(s, Deliver);
    AnswerIsAwaited(s, m);
    var id, owner := m.id, s.calls[m.id].owner;
    var c := s.clients[owner];
    var x := Settled(owner, id, c.pending[id], m.outcome);
    BroadcastReachesOwner(s.clients, owner, m);
    assert t.clients == s.clients[owner := Receive(c, m)];
    PendingGrows(s.clients, owner, t.clients[owner]);
    assert t.clients[owner].pending.Keys == c.pending.Keys - {id};
    assert MessageOk(s, m) && AnswerOk(s, id);
    SettledIsOk(s, t, x);
    forall k | 0 <= k < |t.settled| ensures SettledOk(t, t.settled[k]) {
      if k < |s.settled| {
        SettledStays(s, t, s.settled[k]);
      }
    }
    forall i, id' | 0 <= i < |t.clients| && id' in t.clients[i].pending ensures Waits(t, i, id') {
      SettledWaits(s, i, id');
    }
    forall i | 0 <= i < |t.clients| ensures ClientOk(t, i) {
      SettledClient(s, i);
    }
    forall id' | id' in t.calls ensures CallOk(t, id') {
      OwnerExists(s, id');
      SettledCall(s, x, id');
    }
  }

  lemma OwnerExists(s: State, id: nat)
    requires id in s.calls && CallOk(s, id)
    ensures s.calls[id].owner < |s.clients|
  {
  }

  lemma SettledIsOk(s: State, t: State, x: Settled)
    requires x.id in s.answered && s.answered[x.id].outcome == x.outcome
    requires x.id in s.calls && s.calls[x.id] == Call(x.client, x.ask)
    requires t.answered == s.answered && t.calls == s.calls
    ensures SettledOk(t, x)
  {
  }

  lemma ChangedClient(s: State, i: nat)
    requires Enabled(s, Deliver) && s.toParent[0].Change? && i < |s.clients| && ClientOk(s, i)
    requires MessageOk(s, s.toParent[0])
    ensures ClientOk(Next(s, Deliver), i)
  {
    hide Broadcast;
  }

  lemma ChangedCall(s: State, id: nat)
    requires Enabled(s, Deliver) && s.toParent[0].Change? && id in s.calls && CallOk(s, id)
    requires Next(s, Deliver).settled == s.settled
    ensures CallOk(Next(s, Deliver), id)
  {
    hide Ids, Broadcast;
  }

  lemma ChangeKeepsClients(s: State)
    requires Inv(s) && Enabled(s, Deliver) && s.toParent[0].Change?
    ensures ClientInv(Next(s, Deliver))
  {
    hide Ids, TotalPending, Broadcast, Waits, ClientOk, CallOk, SettledOk, AnswerOk;
    var t := Next(s, Deliver);
    BroadcastReachesNobody(s.clients, s.toParent[0]);
    assert t.settled == s.settled;
    SamePendingSameTotal(s.clients, t.clients);
    forall k | 0 <= k < |t.settled| ensures SettledOk(t, t.settled[k]) {
      SettledStays(s, t, s.settled[k]);
    }
    forall i, id | 0 <= i < |t.clients| && id in t.clients[i].pending ensures Waits(t, i, id) {
      SettledWaits(s, i, id);
    }
    forall i | 0 <= i < |t.clients| ensures ClientOk(t, i) {
      ChangedClient(s, i);
    }
    forall id | id in t.calls ensures CallOk(t, id) {
      ChangedCall(s, id);
    }
  }

  lemma {:induction false} SamePendingSameTotal(a: seq<Client>, b: seq<Client>)
    requires |a| == |b| && forall i :: 0 <= i < |a| ==> a[i].pending == b[i].pending
    ensures TotalPending(a) == TotalPending(b)
  {
    if a != [] {
      SamePendingSameTotal(a[..|a| - 1], b[..|b| - 1]);
    }
  }

  // ---------------------------------------------------------------------
  // Every run
  // ---------------------------------------------------------------------

  lemma StepKeepsInv(s: State, e: Step)
    requires Inv(s) && Enabled(s, e)
    ensures Inv(Next(s, e))
  {
    hide Conserved, ChildInv, ClientInv;
    var t := Next(s, e);
    match e {
      case Bootstrap(folder) =>
        var joined := s.(clients := s.clients + [Client(s.nextId, None, 0, map[])]);
        ClientsOnly(s, joined);
        SendConserves(joined, |s.clients|, Open(folder));
        SendKeepsChild(joined, |s.clients|, Open(folder));
        BootstrapKeepsClients(s, folder);
      case Rpc(i, op) => SendKeepsInv(s, i, Use(s.clients[i].handle.value, op));
      case CloseRpc(i) => SendKeepsInv(s, i, Close(s.clients[i].handle.value));
      case Elsewhere => QuietStepKeepsInv(s, t);
      case Take =>
        TakeConserves(s);
        TakeKeepsChild(s);
        TakeAddsNothingElse(s);
        ChildStepKeepsClients(s, t);
      case Answer(k, ending) =>
        AnswerConserves(s, k, ending);
        AnswerKeepsChild(s, k, ending);
        AnswerAddsOnly(s, k, ending);
        ChildStepKeepsClients(s, t);
      case Emit(h, length) =>
        EmitKeepsChild(s, h, length);
        ChildStepKeepsClients(s, t);
      case Deliver =>
        DeliverConserves(s);
        DeliverKeepsChild(s);
        if s.toParent[0].Response? {
          AnswerKeepsClients(s);
        } else {
          ChangeKeepsClients(s);
        }
      case Exit => QuietStepKeepsInv(s, t);
    }
  }

  lemma SendKeepsInv(s: State, i: nat, ask: Ask)
    requires Inv(s) && MaySend(s, i, ask)
    ensures Inv(Send(s, i, ask))
  {
    hide Conserved, ChildInv, ClientInv;
    SendConserves(s, i, ask);
    SendKeepsChild(s, i, ask);
    SendKeepsClients(s, i, ask);
  }

  lemma ClientsOnly(s: State, t: State)
    requires t == s.(clients := t.clients)
    requires Conserved(s) && ChildInv(s)
    ensures Conserved(t) && ChildInv(t)
  {
    hide Ids;
    ItemsCarryOver(s, t);
  }

  lemma QuietStepKeepsInv(s: State, t: State)
    requires Inv(s) && t == s.(nextId := t.nextId, alive := t.alive) && t.nextId >= s.nextId
    ensures Inv(t)
  {
    hide Ids, TotalPending;
    ItemsCarryOver(s, t);
    ChildStepKeepsClients(s, t);
  }

  lemma TakeAddsNothingElse(s: State)
    requires Inv(s) && Enabled(s, Take)
    ensures Grows(s, Next(s, Take))
    ensures forall h :: h in s.homes ==> HomeOf(Next(s, Take), h, s.homes[h])
  {
    hide Ids, ChildInv, ClientInv;
    NotAnswered(s, s.toChild[0].id) by {
      IdsWithout(s.toChild, 0, RequestId);
    }
  }

  lemma AnswerAddsOnly(s: State, k: nat, ending: Ending)
    requires Inv(s) && Enabled(s, Answer(k, ending))
    ensures Grows(s, Next(s, Answer(k, ending)))
    ensures forall h :: h in s.homes ==> HomeOf(Next(s, Answer(k, ending)), h, s.homes[h])
  {
    hide Ids, ClientInv;
    NotAnswered(s, s.child.working[k].request.id) by {
      IdsWithout(s.child.working, k, WorkId);
    }
  }

  lemma {:induction false} RunKeepsInv(s: State, steps: seq<Step>)
    requires Inv(s) && Runs(s, steps)
    ensures Inv(Run(s, steps))
    decreases |steps|
  {
    hide Inv;
    if steps != [] {
      StepKeepsInv(s, steps[0]);
      RunKeepsInv(Next(s, steps[0]), steps[1..]);
    }
  }

  lemma StartsWell()
    ensures Inv(EMPTY_STATE)
  {
  }

  ghost predicate Reachable(s: State) {
    exists steps: seq<Step> :: Runs(EMPTY_STATE, steps) && Run(EMPTY_STATE, steps) == s
  }

  lemma ReachableHasInv(s: State)
    requires Reachable(s)
    ensures Inv(s)
  {
    hide Inv;
    var steps: seq<Step> :| Runs(EMPTY_STATE, steps) && Run(EMPTY_STATE, steps) == s;
    StartsWell();
    RunKeepsInv(EMPTY_STATE, steps);
  }

  /**
   In any run, with any number of clients and any order of answers: what a
   caller is settled with is what the child answered to the request that very
   caller sent, and nobody is settled twice.
   */
  lemma SettledByOwnAnswer(s: State)
    requires Reachable(s)
    ensures forall k :: 0 <= k < |s.settled| ==>
      var x := s.settled[k];
      && x.id in s.calls && s.calls[x.id] == Call(x.client, x.ask)
      && x.id in s.answered && s.answered[x.id].request == Request(x.id, x.ask)
      && s.answered[x.id].outcome == x.outcome
    ensures forall j, k :: 0 <= j < k < |s.settled| ==> s.settled[j].id != s.settled[k].id
  {
    hide Ids, TotalPending;
    ReachableHasInv(s);
    forall k | 0 <= k < |s.settled|
      ensures SettledOk(s, s.settled[k]) && s.settled[k].id in s.answered && AnswerOk(s, s.settled[k].id)
    {
      assert SettledOk(s, s.settled[k]);
    }
    forall j, k | 0 <= j < k < |s.settled| ensures s.settled[j].id != s.settled[k].id {
      SettledIdsDiffer(s, j, k);
    }
  }

  lemma SettledIdsDiffer(s: State, j: nat, k: nat)
    requires Conserved(s) && j < k < |s.settled|
    ensures s.settled[j].id != s.settled[k].id
  {
    hide Ids;
    var id := s.settled[j].id;
    assert s.settled == s.settled[..k] + s.settled[k..];
    IdsOfConcat(s.settled[..k], s.settled[k..], SettledId);
    IdOfMember(s.settled[..k], j, SettledId);
    IdOfMember(s.settled[k..], 0, SettledId);
    assert multiset(s.answered.Keys)[id] <= 1;
    assert Ids(s.settled, SettledId)[id] <= 1;
    assert SettledId(s.settled[j])[id] == 1 && SettledId(s.settled[k])[s.settled[k].id] == 1;
  }

  /** Nothing is lost: every request sent is settled, or its own caller is still waiting for it. */
  lemma SentIsSettledPlusPending(s: State)
    requires Reachable(s)
    ensures |s.calls| == |s.settled| + TotalPending(s.clients)
    ensures forall id :: id in s.calls ==>
      var owner := s.calls[id].owner;
      && owner < |s.clients|
      && (id in s.clients[owner].pending <==> !exists k :: 0 <= k < |s.settled| && s.settled[k].id == id)
  {
    hide Ids, TotalPending;
    ReachableHasInv(s);
    forall id | id in s.calls
      ensures s.calls[id].owner < |s.clients|
      ensures id in s.clients[s.calls[id].owner].pending <==> !exists k :: 0 <= k < |s.settled| && s.settled[k].id == id
    {
      assert CallOk(s, id);
      SettledIffListed(s.settled, id);
    }
  }

  lemma {:induction false} SettledIffListed(settled: seq<Settled>, id: nat)
    ensures Ids(settled, SettledId)[id] == 0 <==> !exists k :: 0 <= k < |settled| && settled[k].id == id
  {
    if settled != [] {
      var n := |settled| - 1;
      SettledIffListed(settled[..n], id);
      assert forall k :: 0 <= k < n ==> settled[..n][k] == settled[k];
      assert settled[n].id == id ==> exists k :: 0 <= k < |settled| && settled[k].id == id;
    }
  }

  /**
   A call on an open workspace that is answered with a value was served by the
   workspace the caller's own bootstrap opened, and the length a client shows is
   one that workspace reported.
   */
  lemma ServedByOwnWorkspace(s: State)
    requires Reachable(s)
    ensures forall k :: 0 <= k < |s.settled| && s.settled[k].outcome.Value? ==>
      var x := s.settled[k];
      x.client < |s.clients| && x.id in s.answered && s.answered[x.id].servedBy == Some(s.clients[x.client].boot)
    ensures forall i :: 0 <= i < |s.clients| && s.clients[i].handle.Some? ==>
      (s.clients[i].boot, s.clients[i].length) in s.reports
  {
    hide Ids, TotalPending;
    ReachableHasInv(s);
    forall k | 0 <= k < |s.settled| && s.settled[k].outcome.Value?
      ensures var x := s.settled[k];
        x.client < |s.clients| && x.id in s.answered && s.answered[x.id].servedBy == Some(s.clients[x.client].boot)
    {
      var x := s.settled[k];
      assert SettledOk(s, x) && AnswerOk(s, x.id) && CallOk(s, x.id);
      assert ClientOk(s, x.client);
    }
    forall i | 0 <= i < |s.clients| && s.clients[i].handle.Some?
      ensures (s.clients[i].boot, s.clients[i].length) in s.reports
    {
      assert ClientOk(s, i);
    }
  }

  /** Two open clients never talk to the same workspace. */
  lemma HandlesAreDistinct(s: State, i: nat, j: nat)
    requires Reachable(s) && i < j < |s.clients| && s.clients[i].handle.Some? && s.clients[j].handle.Some?
    ensures s.clients[i].handle != s.clients[j].handle
  {
    hide Ids, TotalPending;
    ReachableHasInv(s);
    assert ClientOk(s, i) && ClientOk(s, j);
  }

  // ---------------------------------------------------------------------
  // What an answer says about how its operation ended
  // ---------------------------------------------------------------------

  /** The outcome an ending calls for: a failure for an exception, and otherwise what was opened or returned. */
  predicate Says(w: Work, ending: Ending, outcome: Outcome) {
    match ending
    case Threw(m) => outcome == Failed(m)
    case Done(text, length) =>
      if w.Opening? then outcome.Opened? && outcome.length == length else outcome == Value(text)
  }

  /** The child answers every operation with what its ending calls for, and only a successful open or close changes what it hosts. */
  lemma FinishSays(c: Child, k: nat, ending: Ending)
    requires k < |c.working|
    ensures var w := c.working[k];
            var (after, reply) := Finish(c, k, ending);
            && reply.request == w.request && Says(w, ending, reply.outcome)
            && (reply.outcome.Failed? <==> ending.Threw?)
            && (reply.outcome.Value? <==> w.Serving? && ending.Done?)
            && (reply.outcome.Opened? <==> w.Opening? && ending.Done?)
            && after.working == Without(c.working, k)
            && (forall h :: h in after.workspaces <==>
                  || (h in c.workspaces && !(w.Serving? && ending.Done? && w.request.ask == Close(h)))
                  || (reply.outcome.Opened? && reply.outcome.handle == h))
  {
    var w := c.working[k];
    if w.Serving? && w.request.ask.Close? {
      assert forall h :: w.request.ask == Close(h) <==> h == w.request.ask.handle;
    }
  }

  /** The step answers request `id` with `outcome`: a handle nobody hosts is refused, an operation answered as it ended. */
  predicate AnswersNow(s: State, e: Step, id: nat, outcome: Outcome)
    requires Enabled(s, e)
  {
    match e
    case Take =>
      var r := s.toChild[0];
      r.id == id && !r.ask.Open? && r.ask.handle !in s.child.workspaces && outcome == Failed(UNKNOWN)
    case Answer(k, ending) =>
      && s.child.working[k].request.id == id && Says(s.child.working[k], ending, outcome)
      && (outcome.Opened? ==> outcome.handle == s.child.nextHandle)
    case _ => false
  }

  lemma StepAnswersIff(s: State, e: Step, id: nat, outcome: Outcome)
    requires Inv(s) && Enabled(s, e)
    ensures Answered(Next(s, e), id, outcome) <==> Answered(s, id, outcome) || AnswersNow(s, e, id, outcome)
  {
    hide Ids, TotalPending, ChildInv, ClientInv, Broadcast;
    match e {
      case Take =>
        NotAnswered(s, s.toChild[0].id) by {
          IdsWithout(s.toChild, 0, RequestId);
        }
      case Answer(k, ending) =>
        NotAnswered(s, s.child.working[k].request.id) by {
          IdsWithout(s.child.working, k, WorkId);
        }
      case _ =>
    }
  }

  lemma {:induction false} RunOfSnoc(s: State, steps: seq<Step>, e: Step)
    ensures Runs(s, steps + [e]) <==> Runs(s, steps) && Enabled(Run(s, steps), e)
    ensures Runs(s, steps + [e]) ==> Run(s, steps + [e]) == Next(Run(s, steps), e)
    decreases |steps|
  {
    hide Next;
    if steps == [] {
      assert ([] + [e])[1..] == [];
    } else {
      assert (steps + [e])[1..] == steps[1..] + [e];
      if Enabled(s, steps[0]) {
        RunOfSnoc(Next(s, steps[0]), steps[1..], e);
      }
    }
  }

  /** Step `j` of the run answers request `id` with `outcome`. */
  ghost predicate AnswersAt(steps: seq<Step>, j: nat, id: nat, outcome: Outcome)
    requires j < |steps|
  {
    && Runs(EMPTY_STATE, steps[..j]) && Enabled(Run(EMPTY_STATE, steps[..j]), steps[j])
    && AnswersNow(Run(EMPTY_STATE, steps[..j]), steps[j], id, outcome)
  }

  ghost predicate AnsweredBy(steps: seq<Step>, id: nat, outcome: Outcome) {
    exists j :: 0 <= j < |steps| && AnswersAt(steps, j, id, outcome)
  }

  lemma AnsweredBySnoc(steps: seq<Step>, id: nat, outcome: Outcome)
    requires steps != []
    ensures AnsweredBy(steps, id, outcome) <==>
              AnsweredBy(steps[..|steps| - 1], id, outcome) || AnswersAt(steps, |steps| - 1, id, outcome)
  {
    hide Runs, Run, Enabled, AnswersNow;
    var before := steps[..|steps| - 1];
    assert forall j :: 0 <= j < |before| ==> before[..j] == steps[..j] && before[j] == steps[j];
    assert forall j :: 0 <= j < |before| ==> AnswersAt(before, j, id, outcome) == AnswersAt(steps, j, id, outcome);
  }

  lemma {:induction false} AnsweredIff(steps: seq<Step>, id: nat, outcome: Outcome)
    requires Runs(EMPTY_STATE, steps)
    ensures Answered(Run(EMPTY_STATE, steps), id, outcome) <==> AnsweredBy(steps, id, outcome)
    decreases |steps|
  {
    hide Next, Inv, Enabled, AnswersNow;
    if steps != [] {
      var n := |steps| - 1;
      var before, e := steps[..n], steps[n];
      assert steps == before + [e];
      RunOfSnoc(EMPTY_STATE, before, e);
      AnsweredIff(before, id, outcome);
      StartsWell();
      RunKeepsInv(EMPTY_STATE, before);
      StepAnswersIff(Run(EMPTY_STATE, before), e, id, outcome);
      AnsweredBySnoc(steps, id, outcome);
    }
  }

  /**
   In any run: a caller is settled with an outcome only if a step of the run
   refused its handle, or ended its very operation in a way that calls for that
   outcome. So nobody's exception is somebody's success.
   */
  lemma OutcomesComeFromEndings(steps: seq<Step>)
    requires Runs(EMPTY_STATE, steps)
    ensures var s := Run(EMPTY_STATE, steps);
            forall k :: 0 <= k < |s.settled| ==> AnsweredBy(steps, s.settled[k].id, s.settled[k].outcome)
  {
    hide Next, Enabled, AnsweredBy, Ids, TotalPending;
    var s := Run(EMPTY_STATE, steps);
    StartsWell();
    RunKeepsInv(EMPTY_STATE, steps);
    forall k | 0 <= k < |s.settled| ensures AnsweredBy(steps, s.settled[k].id, s.settled[k].outcome) {
      assert SettledOk(s, s.settled[k]);
      AnsweredIff(steps, s.settled[k].id, s.settled[k].outcome);
    }
  }

  /** Step `j` of the run ends a close of `h` without an exception. */
  ghost predicate ClosesAt(steps: seq<Step>, j: nat, h: Handle)
    requires j < |steps|
  {
    && Runs(EMPTY_STATE, steps[..j]) && Enabled(Run(EMPTY_STATE, steps[..j]), steps[j])
    && ClosesNow(Run(EMPTY_STATE, steps[..j]), steps[j], h)
  }

  predicate ClosesNow(s: State, e: Step, h: Handle)
    requires Enabled(s, e)
  {
    e.Answer? && e.ending.Done? && s.child.working[e.k].Serving? && s.child.working[e.k].request.ask == Close(h)
  }

  ghost predicate ClosedBy(steps: seq<Step>, h: Handle) {
    exists j :: 0 <= j < |steps| && ClosesAt(steps, j, h)
  }

  lemma ClosedBySnoc(steps: seq<Step>, h: Handle)
    requires steps != []
    ensures ClosedBy(steps, h) <==> ClosedBy(steps[..|steps| - 1], h) || ClosesAt(steps, |steps| - 1, h)
  {
    hide Runs, Run, Enabled, ClosesNow;
    var before := steps[..|steps| - 1];
    assert forall j :: 0 <= j < |before| ==> before[..j] == steps[..j] && before[j] == steps[j];
    assert forall j :: 0 <= j < |before| ==> ClosesAt(before, j, h) == ClosesAt(steps, j, h);
  }

  /** A step hosts a handle it did not host only by giving it out, and drops one only by closing it. */
  lemma StepHosts(s: State, e: Step, h: Handle)
    requires Inv(s) && Enabled(s, e)
    ensures h in s.homes ==> h in Next(s, e).homes && (h in Next(s, e).child.workspaces <==>
              h in s.child.workspaces && !ClosesNow(s, e, h))
    ensures h !in s.homes ==> (h in Next(s, e).child.workspaces <==> h in Next(s, e).homes) && !ClosesNow(s, e, h)
  {
    hide Ids, TotalPending, ClientInv, Conserved, Broadcast;
    if e.Answer? {
      assert WorkOk(s, s.child.working[e.k]);
      FinishSays(s.child, e.k, e.ending);
    }
    assert h in s.child.workspaces ==> HomeOf(s, h, s.child.workspaces[h]);
  }

  /** In any run the child hosts exactly the handles it gave out and did not close: a close that throws keeps its handle. */
  lemma {:induction false} HostedIff(steps: seq<Step>, h: Handle)
    requires Runs(EMPTY_STATE, steps)
    ensures var s := Run(EMPTY_STATE, steps);
            h in s.child.workspaces <==> h in s.homes && !ClosedBy(steps, h)
    ensures h !in Run(EMPTY_STATE, steps).homes ==> !ClosedBy(steps, h)
    decreases |steps|
  {
    hide Next, Inv, Enabled, ClosesNow;
    if steps != [] {
      var n := |steps| - 1;
      var before, e := steps[..n], steps[n];
      assert steps == before + [e];
      RunOfSnoc(EMPTY_STATE, before, e);
      HostedIff(before, h);
      StartsWell();
      RunKeepsInv(EMPTY_STATE, before);
      StepHosts(Run(EMPTY_STATE, before), e, h);
      ClosedBySnoc(steps, h);
    }
  }

  // ---------------------------------------------------------------------
  // What a client learns
  // ---------------------------------------------------------------------

  ghost predicate BootSettled(s: State, i: nat, h: Handle)
    requires i < |s.clients|
  {
    exists k :: 0 <= k < |s.settled| && BootAnswer(s, i, s.settled[k], h)
  }

  predicate BootAnswer(s: State, i: nat, x: Settled, h: Handle)
    requires i < |s.clients|
  {
    x.client == i && x.id == s.clients[i].boot && x.outcome.Opened? && x.outcome.handle == h
  }

  /** A client is open, with a handle, exactly when its own bootstrap was answered with that handle. */
  ghost predicate HandlesKnown(s: State) {
    forall i: nat, h: Handle :: i < |s.clients| ==> HandleKnown(s, i, h)
  }

  ghost predicate HandleKnown(s: State, i: nat, h: Handle)
    requires i < |s.clients|
  {
    s.clients[i].handle == Some(h) <==> BootSettled(s, i, h)
  }

  /** Nothing settled, and each client's handle and bootstrap as before. */
  lemma SameHandlesKnown(s: State, t: State)
    requires HandlesKnown(s) && t.settled == s.settled && |t.clients| == |s.clients|
    requires forall i :: 0 <= i < |s.clients| ==> t.clients[i].handle == s.clients[i].handle && t.clients[i].boot == s.clients[i].boot
    ensures HandlesKnown(t)
  {
    forall i: nat, h: Handle | i < |t.clients| ensures HandleKnown(t, i, h) {
      assert HandleKnown(s, i, h);
      assert forall k :: 0 <= k < |s.settled| ==> BootAnswer(s, i, s.settled[k], h) == BootAnswer(t, i, t.settled[k], h);
    }
  }

  lemma BootstrapKnowsHandles(s: State, folder: string)
    requires Inv(s) && HandlesKnown(s)
    ensures HandlesKnown(Next(s, Bootstrap(folder)))
  {
    hide Ids, TotalPending, ChildInv;
    var t := Next(s, Bootstrap(folder));
    forall i: nat, h: Handle | i < |t.clients| ensures HandleKnown(t, i, h) {
      forall k | 0 <= k < |s.settled|
        ensures i < |s.clients| ==> BootAnswer(s, i, s.settled[k], h) == BootAnswer(t, i, t.settled[k], h)
        ensures i == |s.clients| ==> !BootAnswer(t, i, t.settled[k], h)
      {
        assert SettledOk(s, s.settled[k]) && CallOk(s, s.settled[k].id);
      }
      assert i < |s.clients| ==> HandleKnown(s, i, h);
    }
  }

  lemma AnswerKnowsHandles(s: State)
    requires Inv(s) && HandlesKnown(s) && Enabled(s, Deliver) && s.toParent[0].Response?
    ensures HandlesKnown(Next(s, Deliver))
  {
    hide Ids, TotalPending, ChildInv, Conserved, Broadcast, CallOk, SettledOk;
    var m, t := s.toParent[0], Next(s, Deliver);
    AnswerIsAwaited(s, m);
    var owner := s.calls[m.id].owner;
    var x := Settled(owner, m.id, s.clients[owner].pending[m.id], m.outcome);
    BroadcastReachesOwner(s.clients, owner, m);
    assert t.settled == s.settled + [x];
    forall i: nat, h: Handle | i < |t.clients| ensures HandleKnown(t, i, h) {
      assert HandleKnown(s, i, h) && ClientOk(s, i);
      SettledSnoc(s, t, i, h, x);
    }
  }

  lemma SettledSnoc(s: State, t: State, i: nat, h: Handle, x: Settled)
    requires i < |s.clients| == |t.clients| && t.settled == s.settled + [x] && t.clients[i].boot == s.clients[i].boot
    ensures BootSettled(t, i, h) <==> BootSettled(s, i, h) || BootAnswer(t, i, x, h)
  {
    assert forall k :: 0 <= k < |s.settled| ==> BootAnswer(s, i, s.settled[k], h) == BootAnswer(t, i, t.settled[k], h);
    assert t.settled[|s.settled|] == x;
  }

  lemma StepKnowsHandles(s: State, e: Step)
    requires Inv(s) && HandlesKnown(s) && Enabled(s, e)
    ensures HandlesKnown(Next(s, e))
  {
    hide Ids, TotalPending, ChildInv, ClientInv, Conserved, HandlesKnown, Broadcast;
    match e {
      case Bootstrap(folder) => BootstrapKnowsHandles(s, folder);
      case Deliver =>
        if s.toParent[0].Response? {
          AnswerKnowsHandles(s);
        } else {
          BroadcastReachesNobody(s.clients, s.toParent[0]);
          SameHandlesKnown(s, Next(s, e));
        }
      case _ => SameHandlesKnown(s, Next(s, e));
    }
  }

  lemma {:induction false} RunKnowsHandles(s: State, steps: seq<Step>)
    requires Inv(s) && HandlesKnown(s) && Runs(s, steps)
    ensures HandlesKnown(Run(s, steps))
    decreases |steps|
  {
    hide Inv, HandlesKnown, Next;
    if steps != [] {
      StepKnowsHandles(s, steps[0]);
      StepKeepsInv(s, steps[0]);
      RunKnowsHandles(Next(s, steps[0]), steps[1..]);
    }
  }

  /** In any run a client has a handle if and only if its own bootstrap was answered with that handle. */
  lemma OpenIffBootstrapped(s: State, i: nat, h: Handle)
    requires Reachable(s) && i < |s.clients|
    ensures s.clients[i].handle == Some(h) <==> BootSettled(s, i, h)
  {
    hide Inv;
    var steps: seq<Step> :| Runs(EMPTY_STATE, steps) && Run(EMPTY_STATE, steps) == s;
    StartsWell();
    RunKnowsHandles(EMPTY_STATE, steps);
    assert HandleKnown(s, i, h);
  }

  /** A `change` event reaches the client of its handle, whose length becomes the one reported, and no other. */
  lemma ChangeIsShown(s: State, i: nat)
    requires Enabled(s, Deliver) && s.toParent[0].Change? && i < |s.clients|
    ensures var m, before, after := s.toParent[0], s.clients[i], Next(s, Deliver).clients[i];
            && (before.handle == Some(m.handle) ==> after.length == m.length)
            && (before.handle != Some(m.handle) ==> after.length == before.length)
            && after.handle == before.handle && after.pending == before.pending
    ensures Next(s, Deliver).settled == s.settled
  {
    hide Broadcast;
    BroadcastReachesNobody(s.clients, s.toParent[0]);
  }

  // ---------------------------------------------------------------------
  // A child that goes away
  // ---------------------------------------------------------------------

  /** The id is on its way to the child or being served. */
  ghost predicate AtChild(s: State, id: nat) {
    id in Ids(s.toChild, RequestId) + Ids(s.child.working, WorkId)
  }

  lemma StepLeavesStranded(s: State, e: Step, id: nat)
    requires Inv(s) && !s.alive && AtChild(s, id) && Enabled(s, e)
    ensures !Next(s, e).alive && AtChild(Next(s, e), id)
  {
    hide Ids, ChildInv, ClientInv;
    match e {
      case Bootstrap(folder) => IdsOfSnoc(s.toChild, Request(s.nextId, Open(folder)), RequestId);
      case Rpc(i, op) => IdsOfSnoc(s.toChild, Request(s.nextId, Use(s.clients[i].handle.value, op)), RequestId);
      case CloseRpc(i) => IdsOfSnoc(s.toChild, Request(s.nextId, Close(s.clients[i].handle.value)), RequestId);
      case _ =>
    }
  }

  /** The caller of `id` is still waiting. */
  predicate StillPending(s: State, id: nat) {
    && id in s.calls && s.calls[id].owner < |s.clients|
    && id in s.clients[s.calls[id].owner].pending
  }

  lemma {:induction false} ExitStrandsRequests(s: State, steps: seq<Step>, id: nat)
    requires Inv(s) && !s.alive && AtChild(s, id) && Runs(s, steps)
    ensures StillPending(Run(s, steps), id)
    decreases |steps|
  {
    hide Ids, TotalPending, AtChild, ChildInv;
    if steps == [] {
      StrandedWaits(s, id);
    } else {
      StepLeavesStranded(s, steps[0], id);
      StepKeepsInv(s, steps[0]);
      ExitStrandsRequests(Next(s, steps[0]), steps[1..], id);
    }
  }

  /** A pending request the child no longer has is on its way back. */
  lemma AnsweredIsOnItsWay(s: State, id: nat)
    requires Inv(s) && StillPending(s, id) && !AtChild(s, id)
    ensures id in Ids(s.toParent, MessageId)
  {
    hide Ids, TotalPending, ChildInv;
    assert CallOk(s, id);
    assert multiset(s.calls.Keys)[id] == 1;
    assert id in s.answered;
    assert multiset(s.answered.Keys)[id] == 1;
  }

  /** Delivering what is on its way. */
  function Deliveries(n: nat): (steps: seq<Step>)
    ensures |steps| == n && forall k :: 0 <= k < n ==> steps[k] == Deliver
  {
    seq(n, k => Deliver)
  }

  lemma {:induction false} DeliverySettles(s: State, id: nat, n: nat)
    requires Inv(s) && id in Ids(s.toParent, MessageId) && n == |s.toParent|
    ensures Runs(s, Deliveries(n)) && !StillPending(Run(s, Deliveries(n)), id)
    decreases n
  {
    hide Ids, TotalPending, ChildInv, ClientInv, Conserved;
    if n == 0 {
      NoMessageNoId(s);
    } else {
      var t, m := Next(s, Deliver), s.toParent[0];
      assert Deliveries(n)[1..] == Deliveries(n - 1);
      StepKeepsInv(s, Deliver);
      assert Without(s.toParent, 0) == s.toParent[1..];
      IdsWithout(s.toParent, 0, MessageId);
      if id in Ids(t.toParent, MessageId) {
        DeliverySettles(t, id, n - 1);
      } else {
        assert m.Response? && m.id == id;
        DeliveredIsSettled(s, id);
        SettledForGood(t, Deliveries(n - 1), id) by {
          DeliveriesRun(t, n - 1);
        }
        DeliveriesRun(t, n - 1);
      }
    }
  }

  lemma NoMessageNoId(s: State)
    requires s.toParent == []
    ensures Ids(s.toParent, MessageId) == multiset{}
  {
  }

  lemma {:induction false} DeliveriesRun(s: State, n: nat)
    requires n == |s.toParent|
    ensures Runs(s, Deliveries(n))
    decreases n
  {
    if n > 0 {
      assert Deliveries(n)[1..] == Deliveries(n - 1);
      DeliveriesRun(Next(s, Deliver), n - 1);
    }
  }

  lemma DeliveredIsSettled(s: State, id: nat)
    requires Inv(s) && Enabled(s, Deliver) && s.toParent[0].Response? && s.toParent[0].id == id
    ensures !StillPending(Next(s, Deliver), id) && id in Next(s, Deliver).calls
  {
    hide Ids, TotalPending, Broadcast;
    AnswerIsAwaited(s, s.toParent[0]);
  }

  /** A request that was sent and is no longer pending never is again. */
  lemma {:induction false} SettledForGood(s: State, steps: seq<Step>, id: nat)
    requires Inv(s) && Runs(s, steps) && id in s.calls && !StillPending(s, id)
    ensures !StillPending(Run(s, steps), id)
    decreases |steps|
  {
    hide Inv, Next, StillPending;
    if steps != [] {
      StepKeepsSettled(s, steps[0], id);
      StepKeepsInv(s, steps[0]);
      SettledForGood(Next(s, steps[0]), steps[1..], id);
    }
  }

  lemma StepKeepsSettled(s: State, e: Step, id: nat)
    requires Inv(s) && Enabled(s, e) && id in s.calls && !StillPending(s, id)
    ensures id in Next(s, e).calls && !StillPending(Next(s, e), id)
  {
    hide Ids, TotalPending, Broadcast, ChildInv;
    assert CallOk(s, id);
    assert id < s.nextId;
  }

  /**
   `RemoteWorkspace` does not listen for the child's exit. Once the child is gone
   a pending request stays pending in every continuation if and only if the
   child had not answered it; an answer already on its way still settles it.
   */
  lemma StrandedIff(s: State, id: nat)
    requires Inv(s) && !s.alive && StillPending(s, id)
    ensures (forall steps: seq<Step> :: Runs(s, steps) ==> StillPending(Run(s, steps), id)) <==> AtChild(s, id)
  {
    hide Inv, AtChild, StillPending, Runs, Run;
    if AtChild(s, id) {
      forall steps: seq<Step> | Runs(s, steps) ensures StillPending(Run(s, steps), id) {
        ExitStrandsRequests(s, steps, id);
      }
    } else {
      AnsweredIsOnItsWay(s, id);
      DeliverySettles(s, id, |s.toParent|);
    }
  }

  /** The run that shows it: the first request, and the child gone before it reads it. */
  lemma BootstrapIsStranded(folder: string)
    ensures var steps := [Bootstrap(folder), Exit];
            && Runs(EMPTY_STATE, steps)
            && var s := Run(EMPTY_STATE, steps);
            !s.alive && StillPending(s, 1) && AtChild(s, 1)
            && forall more: seq<Step> :: Runs(s, more) ==> StillPending(Run(s, more), 1)
  {
    var steps := [Bootstrap(folder), Exit];
    var s1 := Next(EMPTY_STATE, Bootstrap(folder));
    var s2 := Next(s1, Exit);
    assert steps[1..] == [Exit] && [Exit][1..] == [];
    assert Runs(s2, []) && Run(s2, []) == s2;
    assert Runs(s1, [Exit]) && Run(s1, [Exit]) == s2;
    assert Runs(EMPTY_STATE, steps) && Run(EMPTY_STATE, steps) == s2;
    IdsOfSnoc([], Request(1, Open(folder)), RequestId);
    assert [] + [Request(1, Open(folder))] == s2.toChild;
    StartsWell();
    RunKeepsInv(EMPTY_STATE, steps);
    StrandedIff(s2, 1);
  }

  lemma StrandedWaits(s: State, id: nat)
    requires Inv(s) && AtChild(s, id)
    ensures id in s.calls && s.calls[id].owner < |s.clients| && id in s.clients[s.calls[id].owner].pending
  {
    hide Ids, TotalPending;
    NotAnswered(s, id);
    assert multiset(s.answered.Keys)[id] == 0;
    assert CallOk(s, id);
  }

  // ---------------------------------------------------------------------
  // The classes
  // ---------------------------------------------------------------------

  /** The module-scoped `nextRequestId`. */
  class Counter {
    var next: nat
    constructor ()
      ensures next == 1
    {
      next := 1;
    }
  }

  /** A transport, as far as the asking side uses it: what was sent. */
  class Transport {
    var sent: seq<Request>
    constructor ()
      ensures sent == []
    {
      sent := [];
    }
  }

  class RemoteWorkspace {
    const counter: Counter
    const transport: Transport
    const boot: nat
    const handle: Handle
    var length: nat
    var pending: map<nat, Ask>
    var resolved: seq<(nat, Ask, Outcome)>  // callers settled so far

    ghost predicate Valid()
      reads this, counter
    {
      boot < counter.next && forall id :: id in pending ==> boot < id < counter.next
    }

    ghost function AsClient(): Client
      reads this
    {
      Client(boot, Some(handle), length, pending)
    }

    constructor (counter: Counter, transport: Transport, boot: nat, handle: Handle, length: nat)
      requires boot < counter.next
      ensures Valid() && AsClient() == Client(boot, Some(handle), length, map[]) && resolved == []
      ensures this.counter == counter && this.transport == transport
    {
      this.counter, this.transport, this.boot, this.handle := counter, transport, boot, handle;
      this.length, pending, resolved := length, map[], [];
    }

    method Rpc(ask: Ask) returns (id: nat)
      requires Valid()
      modifies this, counter, transport
      ensures Valid() && id == old(counter.next) && counter.next == id + 1
      ensures id !in old(pending)
      ensures AsClient() == old(AsClient()).(pending := old(pending)[id := ask])
      ensures transport.sent == old(transport.sent) + [Request(id, ask)]
      ensures resolved == old(resolved)
    {
      id := counter.next;
      counter.next := counter.next + 1;
      pending := pending[id := ask];
      transport.sent := transport.sent + [Request(id, ask)];
    }

    method HandleMessage(msg: Message)
      requires Valid()
      modifies this
      ensures Valid() && AsClient() == Receive(old(AsClient()), msg)
      ensures msg.Response? && msg.id in old(pending) ==>
                resolved == old(resolved) + [(msg.id, old(pending)[msg.id], msg.outcome)]
      ensures !(msg.Response? && msg.id in old(pending)) ==> resolved == old(resolved)
    {
      match msg {
        case Change(h, l) =>
          if h == handle {
            length := l;
          }
        case Response(id, outcome) =>
          if id !in pending {
            return;
          }
          var ask := pending[id];
          pending := pending - {id};
          resolved := resolved + [(id, ask, outcome)];
      }
    }
  }

  class WorkspaceChild {
    var nextHandle: Handle
    var workspaces: map<Handle, Workspace>
    var working: seq<Work>
    var written: seq<Message>

    ghost function AsChild(): Child
      reads this
    {
      Child(nextHandle, workspaces, working)
    }

    constructor ()
      ensures AsChild() == EMPTY_STATE.child && written == []
    {
      nextHandle, workspaces, working, written := 1, map[], [], [];
    }

    /** `handle` and `dispatch` up to the first await. */
    method StartHandling(r: Request)
      modifies this
      ensures AsChild() == Begin(old(AsChild()), r).0
      ensures written == old(written) + match Begin(old(AsChild()), r).1
                                        case Some(reply) => [Response(r.id, reply.outcome)]
                                        case None => []
    {
      match r.ask {
        case Open(_) => working := working + [Opening(r)];
        case _ =>
          if r.ask.handle in workspaces {
            working := working + [Serving(r, workspaces[r.ask.handle])];
          } else {
            written := written + [Response(r.id, Failed(UNKNOWN))];
          }
      }
    }

    method Track(ws: Workspace) returns (handle: Handle)
      modifies this
      ensures handle == old(nextHandle) && nextHandle == handle + 1
      ensures workspaces == old(workspaces)[handle := ws]
      ensures working == old(working) && written == old(written)
    {
      handle := nextHandle;
      nextHandle := nextHandle + 1;
      workspaces := workspaces[handle := ws];
    }

    /** `dispatch` and `handle` after the awaited operation ended. */
    method Resume(k: nat, ending: Ending)
      requires k < |working|
      modifies this
      ensures AsChild() == Finish(old(AsChild()), k, ending).0
      ensures written == old(written) + [Response(old(working)[k].request.id, Finish(old(AsChild()), k, ending).1.outcome)]
    {
      var w := working[k];
      working := Without(working, k);
      var id := w.request.id;
      if ending.Threw? {
        written := written + [Response(id, Failed(ending.message))];
      } else if w.Opening? {
        var handle := Track(id);
        written := written + [Response(id, Opened(handle, ending.length))];
      } else {
        if w.request.ask.Close? {
          workspaces := workspaces - {w.request.ask.handle};
        }
        written := written + [Response(id, Value(ending.text))];
      }
    }
  }
}
