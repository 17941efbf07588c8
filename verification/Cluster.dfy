/** The whole system as a transition system: any number of servers, shims and requests, with messages
    lost, delayed and reordered, connections failing and servers halting, over a chosen log. The
    handlers of `Server` and `Shim` are the steps; what is assumed of the consensus library is in
    `Enabled` for `Decide` and `PeerMessage` and nowhere else. */
module Cluster {
  import opened Wrappers
  import opened Kv
  import opened Server
  import opened Shim
  import L = Linearizability

  type ShimId = nat

  /** What identifies a request: the server it goes to, its client id there, and its number. */
  datatype Key = Key(server: NodeId, client: ClientId, id: CommandId)

  /** A request on the connection of `client` to `server`. */
  datatype Envelope = Envelope(server: NodeId, client: ClientId, msg: ClientMessage)

  datatype ShimNode = ShimNode(server: NodeId, client: ClientId, state: ShimState)

  /** A request: its operation, its caller and the shim that took it up. */
  datatype Request = Request(op: KVCommand, invokedAt: nat, shim: ShimId)

  /** An event of the history. The rest is bookkeeping of the proof: the request it is about, how long
      the chosen log was at that moment and, for a return, where in the log the request is. */
  datatype Stamped = Stamped(event: L.Event, key: Key, logLen: nat, pos: nat)

  /** `mute` are the shims whose side of the connection has failed: what they send is lost. `cut` are those to
      which the server's side has failed: of all that the server sends, only this many first messages got out,
      and the shim never connects again. */
  datatype System = System(
    servers: map<NodeId, Replica>,
    halted: set<NodeId>,
    shims: map<ShimId, ShimNode>,
    mute: set<ShimId>,
    cut: map<ShimId, nat>,
    toServer: seq<Envelope>,
    pool: multiset<Command>,
    log: seq<Command>,
    requests: map<Key, Request>,
    history: seq<Stamped>)

  /** A server halts, or a connection fails in one direction, for good. What the server sent last may not have got
      out. */
  datatype Failure = Halt(server: NodeId) | CutRequests(shim: ShimId) | CutReplies(shim: ShimId, kept: nat)

  datatype Step =
    | ConnectShim(shim: ShimId, server: NodeId)
    | CallPut(shim: ShimId, key: string, value: string)
    | CallGet(shim: ShimId, key: string)
    | LoseRequest(i: nat)
    | TakeRequest(i: nat)
    | Decide(cmd: Command)
    | PeerMessage(server: NodeId, msg: ClusterMessage)
    | DeliverReply(shim: ShimId, j: nat)
    | Fail(failure: Failure)

  ghost predicate Init(s: System) {
    && (forall n :: n in s.servers ==> exists clients :: s.servers[n] == NewReplica(n, clients))
    && s.halted == {} && s.mute == {} && s.cut == map[] && s.shims == map[] && s.toServer == [] && s.pool == multiset{}
    && s.log == [] && s.requests == map[] && s.history == []
  }

  predicate Running(s: System, n: NodeId) {
    n in s.servers && n !in s.halted
  }

  /** The server has another one to hear from. */
  predicate HasPeer(s: System, n: NodeId) {
    exists p :: p in s.servers && p != n
  }

  /** How many of the messages of its server can get out to a shim. */
  function Reach(s: System, h: ShimId): (n: nat)
    requires h in s.shims && s.shims[h].server in s.servers
    ensures n <= |s.servers[s.shims[h].server].sent|
  {
    var all := |s.servers[s.shims[h].server].sent|;
    if h in s.cut && s.cut[h] < all then s.cut[h] else all
  }

  /** The server of the shim has sent it this message, on a connection that was still working. */
  predicate Deliverable(s: System, h: ShimId, j: nat) {
    h in s.shims && s.shims[h].server in s.servers && j < Reach(s, h)
    && s.servers[s.shims[h].server].sent[j].to == s.shims[h].client
  }

  predicate CanFail(s: System, f: Failure) {
    match f
    case Halt(n) => Running(s, n)
    case CutRequests(h) => h in s.shims
    case CutReplies(h, kept) =>
      h in s.shims && h !in s.cut && s.shims[h].server in s.servers
      && kept <= |s.servers[s.shims[h].server].sent|
  }

  ghost predicate Enabled(s: System, step: Step) {
    match step
    case ConnectShim(h, n) => h !in s.shims && Running(s, n)
    case CallPut(h, _, _) => h in s.shims && s.shims[h].state.started
    case CallGet(h, _) => h in s.shims && s.shims[h].state.started
    case LoseRequest(i) => i < |s.toServer|
    case TakeRequest(i) => i < |s.toServer| && Running(s, s.toServer[i].server)
    // The library chooses only what was proposed, and each proposal at most once.
    case Decide(c) => c in s.pool
    // A server's decided log only grows, and is always an initial part of the chosen log. It is looked at when a
    // message of the library comes from a peer.
    case PeerMessage(n, m) =>
      Running(s, n) && (m.OmniPaxosMessage? ==> HasPeer(s, n) && s.servers[n].decided + m.decides <= s.log)
    // A reply may be delivered late, out of order, many times or never.
    case DeliverReply(h, j) => Deliverable(s, h, j)
    case Fail(f) => CanFail(s, f)
  }

  /** The steps that a shim takes part in. */
  predicate AtShim(step: Step) {
    step.ConnectShim? || step.CallPut? || step.CallGet? || step.DeliverReply?
  }

  function KeyOf(c: Command): Key {
    Key(c.coordinatorId, c.clientId, c.id)
  }

  /** The first place of a request in the log. */
  function PlaceOf(log: seq<Command>, k: Key): (i: nat)
    ensures i <= |log| && (i < |log| ==> KeyOf(log[i]) == k)
    ensures forall j :: 0 <= j < i ==> KeyOf(log[j]) != k
  {
    if log == [] then 0
    else
      var i := PlaceOf(log[..|log| - 1], k);
      if i < |log| - 1 then i else if KeyOf(log[|log| - 1]) == k then |log| - 1 else |log|
  }

  /** A shim sends `m` for the call that it has just taken up, which asks for `op`. The call is known by its place in
      history. */
  function Invoked(s: System, h: ShimId, op: KVCommand, state: ShimState, m: ClientMessage): System
    requires h in s.shims
  {
    var node := s.shims[h];
    var k := Key(node.server, node.client, m.id);
    s.(shims := s.shims[h := node.(state := state)],
       toServer := s.toServer + [Envelope(node.server, node.client, m)],
       requests := s.requests[k := Request(op, |s.history|, h)],
       history := s.history + [Stamped(L.Invoke(|s.history|, op), k, |s.log|, 0)])
  }

  function Connect(s: System, h: ShimId, n: NodeId): System
    requires n in s.servers
  {
    var client := s.servers[n].maxClientId + 1;
    s.(servers := s.servers[n := s.servers[n].(maxClientId := client)],
       shims := s.shims[h := ShimNode(n, client, NEW_SHIM)])
  }

  function Put(s: System, h: ShimId, key: string, value: string): System
    requires h in s.shims
  {
    var (state, m) := SubmitPut(s.shims[h].state, key, value, |s.history|);
    Invoked(s, h, KVCommand.Put(key, value), state, m)
  }

  function Get(s: System, h: ShimId, key: string): System
    requires h in s.shims
  {
    var (state, m) := SubmitGet(s.shims[h].state, key, |s.history|);
    Invoked(s, h, KVCommand.Get(key), state, m)
  }

  function Lose(s: System, i: nat): System
    requires i < |s.toServer|
  {
    s.(toServer := s.toServer[..i] + s.toServer[i + 1..])
  }

  /** What a shim has just sent is lost at once when its side of the connection has failed. */
  function OnWire(s: System, h: ShimId): System
    requires s.toServer != []
  {
    if h in s.mute then Lose(s, |s.toServer| - 1) else s
  }

  function ReceiveRequest(s: System, i: nat): System
    requires i < |s.toServer| && s.toServer[i].server in s.servers
  {
    var e := s.toServer[i];
    s.(toServer := s.toServer[..i] + s.toServer[i + 1..],
       servers := s.servers[e.server := AppendToLog(s.servers[e.server], e.client, e.msg)],
       pool := s.pool + multiset{Tag(e.server, e.client, e.msg)})
  }

  function Choose(s: System, c: Command): System {
    s.(pool := s.pool - multiset{c}, log := s.log + [c])
  }

  function FromPeer(s: System, n: NodeId, m: ClusterMessage): System
    requires n in s.servers
  {
    s.(servers := s.servers[n := HandleCluster(s.servers[n], m)])
  }

  /** The shim handles a message of its server; a caller that it wakes has returned. */
  function Deliver(s: System, h: ShimId, m: ServerMessage): System
    requires h in s.shims
  {
    var node := s.shims[h];
    var (state, done) := Receive(node.state, m);
    var next := s.(shims := s.shims[h := node.(state := state)]);
    match done
    case None => next
    case Some(c) =>
      var k := Key(node.server, node.client, c.id);
      next.(history := s.history + [Stamped(L.Return(c.call, c.reply), k, |s.log|, PlaceOf(s.log, k))])
  }

  /** A failure decides what is lost from now on, and changes nothing else. */
  function Failed(s: System, f: Failure): System {
    s.(halted := if f.Halt? then s.halted + {f.server} else s.halted,
       mute := if f.CutRequests? then s.mute + {f.shim} else s.mute,
       cut := if f.CutReplies? then s.cut[f.shim := f.kept] else s.cut)
  }

  function Do(s: System, step: Step): System
    requires Enabled(s, step)
  {
    match step
    case ConnectShim(h, n) => Connect(s, h, n)
    case CallPut(h, key, value) => OnWire(Put(s, h, key, value), h)
    case CallGet(h, key) => OnWire(Get(s, h, key), h)
    case LoseRequest(i) => Lose(s, i)
    case TakeRequest(i) => ReceiveRequest(s, i)
    case Decide(c) => Choose(s, c)
    case PeerMessage(n, m) => FromPeer(s, n, m)
    case DeliverReply(h, j) => Deliver(s, h, s.servers[s.shims[h].server].sent[j].msg)
    case Fail(f) => Failed(s, f)
  }

  /** A run: the states reached by taking `steps` from `s` one after the other. */
  ghost predicate IsRun(s: System, steps: seq<Step>, end: System)
    decreases |steps|
  {
    if steps == [] then end == s
    else Enabled(s, steps[0]) && IsRun(Do(s, steps[0]), steps[1..], end)
  }

  ghost predicate Reachable(s: System) {
    exists s0, steps :: Init(s0) && IsRun(s0, steps, s)
  }

  function Events(history: seq<Stamped>): (h: seq<L.Event>)
    ensures |h| == |history| && forall t :: 0 <= t < |h| ==> h[t] == history[t].event
  {
    seq(|history|, t requires 0 <= t < |history| => history[t].event)
  }

  // ---- The invariant ----

  ghost predicate ServersOk(servers: map<NodeId, Replica>, log: seq<Command>) {
    forall n :: n in servers ==> servers[n].id == n && servers[n].Valid() && servers[n].decided <= log
  }

  /** A client id names one shim of its server. */
  ghost predicate ShimsOk(servers: map<NodeId, Replica>, shims: map<ShimId, ShimNode>) {
    && (forall h :: h in shims ==>
          shims[h].server in servers && shims[h].state.Valid()
          && shims[h].client <= servers[shims[h].server].maxClientId)
    && (forall h, g :: h in shims && g in shims && h != g ==>
          shims[h].server != shims[g].server || shims[h].client != shims[g].client)
  }

  predicate IssuedBy(k: Key, node: ShimNode) {
    k.server == node.server && k.client == node.client && k.id < node.state.nextRequestId
  }

  ghost predicate IssuedOk(shims: map<ShimId, ShimNode>, requests: map<Key, Request>) {
    forall k :: k in requests ==> requests[k].shim in shims && IssuedBy(k, shims[requests[k].shim])
  }

  ghost predicate RequestsOk(requests: map<Key, Request>, history: seq<Stamped>) {
    forall k :: k in requests ==>
      var r := requests[k];
      r.invokedAt < |history| && history[r.invokedAt].key == k
      && history[r.invokedAt].event == L.Invoke(r.invokedAt, r.op) && !r.op.Delete?
  }

  predicate Answered(history: seq<Stamped>, k: Key) {
    exists t :: 0 <= t < |history| && history[t].event.Return? && history[t].key == k
  }

  ghost predicate Waiting(requests: map<Key, Request>, history: seq<Stamped>, k: Key, call: Call) {
    k in requests && requests[k].invokedAt == call && !Answered(history, k)
  }

  /** A parked caller waits for the answer to its own request, and has not been answered yet. */
  ghost predicate ParkedOk(node: ShimNode, requests: map<Key, Request>, history: seq<Stamped>) {
    && (forall id :: id in node.state.pendingPut ==>
          var k := Key(node.server, node.client, id);
          Waiting(requests, history, k, node.state.pendingPut[id]) && requests[k].op.Put?)
    && (forall id :: id in node.state.pendingGet ==>
          var k := Key(node.server, node.client, id);
          Waiting(requests, history, k, node.state.pendingGet[id]) && requests[k].op.Get?)
  }

  ghost predicate PendingOk(shims: map<ShimId, ShimNode>, requests: map<Key, Request>, history: seq<Stamped>) {
    forall h :: h in shims ==> ParkedOk(shims[h], requests, history)
  }

  function Tagged(es: seq<Envelope>): (cs: seq<Command>)
    ensures |cs| == |es| && forall i :: 0 <= i < |cs| ==> cs[i] == Tag(es[i].server, es[i].client, es[i].msg)
  {
    seq(|es|, i requires 0 <= i < |es| => Tag(es[i].server, es[i].client, es[i].msg))
  }

  /** Every place a request can be: on its way, proposed, chosen. */
  ghost function Places(s: System): multiset<Command> {
    multiset(Tagged(s.toServer)) + s.pool + multiset(s.log)
  }

  /** A request is in one place only, with the operation it was called with. */
  ghost predicate PlacesOk(places: multiset<Command>, requests: map<Key, Request>) {
    forall c :: c in places ==>
      places[c] == 1 && KeyOf(c) in requests && requests[KeyOf(c)].op == c.kvCmd
  }

  ghost predicate StampOk(requests: map<Key, Request>, log: seq<Command>, e: Stamped, t: nat) {
    && e.key in requests && requests[e.key].invokedAt == e.event.call
    && e.logLen <= |log|
    && match e.event
       case Invoke(_, op) => e.event.call == t && requests[e.key].op == op
       case Return(call, reply) =>
         && call < t
         && e.pos < e.logLen && KeyOf(log[e.pos]) == e.key
         && reply == Reply(Replay(map[], log[..e.pos]), log[e.pos].kvCmd)
  }

  ghost predicate StampsOk(requests: map<Key, Request>, log: seq<Command>, history: seq<Stamped>) {
    forall t :: 0 <= t < |history| ==> StampOk(requests, log, history[t], t)
  }

  ghost predicate OrderOk(history: seq<Stamped>) {
    && (forall t, u :: 0 <= t < u < |history| ==> history[t].logLen <= history[u].logLen)
    && (forall t, u :: 0 <= t < u < |history| && history[t].event.Return? && history[u].event.Return? ==>
          history[t].key != history[u].key)
  }

  /** Nothing is chosen before it is invoked. */
  ghost predicate LogOk(requests: map<Key, Request>, log: seq<Command>, history: seq<Stamped>) {
    forall i :: 0 <= i < |log| ==>
      var k := KeyOf(log[i]);
      k in requests && requests[k].invokedAt < |history| && history[requests[k].invokedAt].logLen <= i
  }

  ghost predicate Inv(s: System) {
    && ServersOk(s.servers, s.log)
    && ShimsOk(s.servers, s.shims)
    && IssuedOk(s.shims, s.requests)
    && RequestsOk(s.requests, s.history)
    && PendingOk(s.shims, s.requests, s.history)
    && PlacesOk(Places(s), s.requests)
    && StampsOk(s.requests, s.log, s.history)
    && OrderOk(s.history)
    && LogOk(s.requests, s.log, s.history)
  }

  // ---- Every step keeps the invariant ----

  lemma InitInv(s: System)
    requires Init(s)
    ensures Inv(s)
  {
    assert Places(s) == multiset{};
  }

  /** One server changes: nothing else notices, as long as its client ids only grow. */
  lemma ServerChanges(servers: map<NodeId, Replica>, log: seq<Command>, n: NodeId, r: Replica)
    requires ServersOk(servers, log) && r.id == n && r.Valid() && r.decided <= log
    ensures ServersOk(servers[n := r], log)
  {
  }

  lemma ClientsGrow(servers: map<NodeId, Replica>, shims: map<ShimId, ShimNode>, n: NodeId, r: Replica)
    requires ShimsOk(servers, shims) && n in servers && servers[n].maxClientId <= r.maxClientId
    ensures ShimsOk(servers[n := r], shims)
  {
  }

  lemma ShimJoins(servers: map<NodeId, Replica>, shims: map<ShimId, ShimNode>, h: ShimId, node: ShimNode)
    requires ShimsOk(servers, shims) && h !in shims
    requires node.server in servers && node.state.Valid() && node.client <= servers[node.server].maxClientId
    requires forall g :: g in shims && shims[g].server == node.server ==> shims[g].client < node.client
    ensures ShimsOk(servers, shims[h := node])
  {
  }

  /** The next client id of a server names none of its shims yet. */
  lemma ClientConnects(servers: map<NodeId, Replica>, shims: map<ShimId, ShimNode>, h: ShimId, n: NodeId)
    requires ShimsOk(servers, shims) && h !in shims && n in servers
    ensures var client := servers[n].maxClientId + 1;
            ShimsOk(servers[n := servers[n].(maxClientId := client)], shims[h := ShimNode(n, client, NEW_SHIM)])
  {
    var client := servers[n].maxClientId + 1;
    var r := servers[n].(maxClientId := client);
    ClientsGrow(servers, shims, n, r);
    ShimJoins(servers[n := r], shims, h, ShimNode(n, client, NEW_SHIM));
  }

  lemma ServerConnects(servers: map<NodeId, Replica>, log: seq<Command>, n: NodeId, client: ClientId)
    requires ServersOk(servers, log) && n in servers
    ensures ServersOk(servers[n := servers[n].(maxClientId := client)], log)
  {
    ServerChanges(servers, log, n, servers[n].(maxClientId := client));
  }

  lemma ConnectionsOnly(s: System, servers: map<NodeId, Replica>, shims: map<ShimId, ShimNode>)
    requires Inv(s) && ServersOk(servers, s.log) && ShimsOk(servers, shims)
    requires IssuedOk(shims, s.requests) && PendingOk(shims, s.requests, s.history)
    ensures Inv(s.(servers := servers, shims := shims))
  {
    assert Places(s.(servers := servers, shims := shims)) == Places(s);
  }

  lemma ConnectIs(s: System, h: ShimId, n: NodeId, r: Replica, node: ShimNode)
    requires n in s.servers && r == s.servers[n].(maxClientId := s.servers[n].maxClientId + 1)
    requires node == ShimNode(n, r.maxClientId, NEW_SHIM)
    ensures Connect(s, h, n) == s.(servers := s.servers[n := r], shims := s.shims[h := node])
  {
  }

  lemma ConnectedParts(servers: map<NodeId, Replica>, shims: map<ShimId, ShimNode>, log: seq<Command>,
                       requests: map<Key, Request>, history: seq<Stamped>, h: ShimId, n: NodeId, r: Replica,
                       node: ShimNode)
    requires ServersOk(servers, log) && ShimsOk(servers, shims)
    requires IssuedOk(shims, requests) && PendingOk(shims, requests, history)
    requires h !in shims && n in servers && r == servers[n].(maxClientId := servers[n].maxClientId + 1)
    requires node == ShimNode(n, r.maxClientId, NEW_SHIM)
    ensures ServersOk(servers[n := r], log) && ShimsOk(servers[n := r], shims[h := node])
    ensures IssuedOk(shims[h := node], requests) && PendingOk(shims[h := node], requests, history)
  {
    ServerConnects(servers, log, n, r.maxClientId);
    ClientConnects(servers, shims, h, n);
    NewShimWaits(shims, requests, history, h, node);
  }

  lemma Connected(s: System, h: ShimId, n: NodeId, r: Replica, node: ShimNode)
    requires Inv(s) && h !in s.shims && n in s.servers
    requires r == s.servers[n].(maxClientId := s.servers[n].maxClientId + 1)
    requires node == ShimNode(n, r.maxClientId, NEW_SHIM)
    ensures Inv(s.(servers := s.servers[n := r], shims := s.shims[h := node]))
  {
    ConnectedParts(s.servers, s.shims, s.log, s.requests, s.history, h, n, r, node);
    ConnectionsOnly(s, s.servers[n := r], s.shims[h := node]);
  }

  lemma ConnectInv(s: System, h: ShimId, n: NodeId)
    requires Inv(s) && h !in s.shims && n in s.servers
    ensures Inv(Connect(s, h, n))
  {
    var r := s.servers[n].(maxClientId := s.servers[n].maxClientId + 1);
    var node := ShimNode(n, r.maxClientId, NEW_SHIM);
    Connected(s, h, n, r, node);
    ConnectIs(s, h, n, r, node);
  }

  lemma NewShimWaits(shims: map<ShimId, ShimNode>, requests: map<Key, Request>, history: seq<Stamped>, h: ShimId,
                     node: ShimNode)
    requires PendingOk(shims, requests, history) && IssuedOk(shims, requests) && h !in shims && node.state == NEW_SHIM
    ensures PendingOk(shims[h := node], requests, history) && IssuedOk(shims[h := node], requests)
  {
  }

  /** Taking one request out of the connections leaves the others. */
  lemma RemoveRequest(es: seq<Envelope>, i: nat)
    requires i < |es|
    ensures multiset(Tagged(es)) ==
            multiset(Tagged(es[..i] + es[i + 1..])) + multiset{Tag(es[i].server, es[i].client, es[i].msg)}
  {
    var cs := Tagged(es);
    assert Tagged(es[..i] + es[i + 1..]) == cs[..i] + cs[i + 1..];
    assert cs == cs[..i] + [cs[i]] + cs[i + 1..];
  }

  lemma LoseInv(s: System, i: nat)
    requires Inv(s) && i < |s.toServer|
    ensures Inv(Lose(s, i))
  {
    RemoveRequest(s.toServer, i);
    assert Places(Lose(s, i)) <= Places(s);
  }

  lemma ReceivePlaces(s: System, i: nat)
    requires i < |s.toServer| && s.toServer[i].server in s.servers
    requires s.servers[s.toServer[i].server].id == s.toServer[i].server
    ensures Places(ReceiveRequest(s, i)) == Places(s)
  {
    RemoveRequest(s.toServer, i);
  }

  lemma ReceiveInv(s: System, i: nat)
    requires Inv(s) && i < |s.toServer| && s.toServer[i].server in s.servers
    ensures Inv(ReceiveRequest(s, i))
  {
    var n := s.toServer[i].server;
    ReceivePlaces(s, i);
    var r := ReceiveRequest(s, i).servers[n];
    ServerChanges(s.servers, s.log, n, r);
    ClientsGrow(s.servers, s.shims, n, r);
  }

  lemma FailedInv(s: System, f: Failure)
    requires Inv(s)
    ensures Inv(Failed(s, f))
  {
    assert Places(Failed(s, f)) == Places(s);
  }

  lemma HandleClusterFrame(r: Replica, m: ClusterMessage)
    ensures var r' := HandleCluster(r, m);
            r'.id == r.id && r'.maxClientId == r.maxClientId && r'.proposed == r.proposed
            && r'.decided == if m.OmniPaxosMessage? then r.decided + m.decides else r.decided
  {
  }

  lemma FromPeerInv(s: System, n: NodeId, m: ClusterMessage)
    requires Inv(s) && n in s.servers && (m.OmniPaxosMessage? ==> s.servers[n].decided + m.decides <= s.log)
    ensures Inv(FromPeer(s, n, m))
  {
    var r := HandleCluster(s.servers[n], m);
    HandleClusterKeepsValid(s.servers[n], m);
    HandleClusterFrame(s.servers[n], m);
    ServerChanges(s.servers, s.log, n, r);
    ClientsGrow(s.servers, s.shims, n, r);
    ServersOnly(s, s.servers[n := r]);
  }

  lemma ServersOnly(s: System, servers: map<NodeId, Replica>)
    requires Inv(s) && ServersOk(servers, s.log) && ShimsOk(servers, s.shims)
    ensures Inv(s.(servers := servers))
  {
    assert Places(s.(servers := servers)) == Places(s);
  }

  lemma StampsGrow(requests: map<Key, Request>, log: seq<Command>, log': seq<Command>, history: seq<Stamped>)
    requires StampsOk(requests, log, history) && log <= log'
    ensures StampsOk(requests, log', history)
  {
    forall t | 0 <= t < |history| ensures StampOk(requests, log', history[t], t) {
      assert StampOk(requests, log, history[t], t);
      if history[t].event.Return? {
        assert log'[..history[t].pos] == log[..history[t].pos];
      }
    }
  }

  lemma ChoosePlaces(s: System, c: Command)
    requires c in s.pool
    ensures Places(Choose(s, c)) == Places(s) && c in Places(s)
  {
  }

  lemma LogGrows(s: System, c: Command)
    requires RequestsOk(s.requests, s.history) && StampsOk(s.requests, s.log, s.history)
    requires LogOk(s.requests, s.log, s.history) && KeyOf(c) in s.requests
    ensures LogOk(s.requests, s.log + [c], s.history)
  {
    var at := s.requests[KeyOf(c)].invokedAt;
    assert StampOk(s.requests, s.log, s.history[at], at);
  }

  lemma ChooseInv(s: System, c: Command)
    requires Inv(s) && c in s.pool
    ensures Inv(Choose(s, c))
  {
    ChoosePlaces(s, c);
    StampsGrow(s.requests, s.log, s.log + [c], s.history);
    LogGrows(s, c);
    assert ServersOk(s.servers, s.log + [c]);
  }

  // A shim takes up a call.

  lemma NumberIsNew(s: System, h: ShimId)
    requires ShimsOk(s.servers, s.shims) && IssuedOk(s.shims, s.requests) && h in s.shims
    ensures Key(s.shims[h].server, s.shims[h].client, s.shims[h].state.nextRequestId) !in s.requests
  {
  }

  lemma ShimChanges(servers: map<NodeId, Replica>, shims: map<ShimId, ShimNode>, requests: map<Key, Request>,
                    h: ShimId, state: ShimState)
    requires ShimsOk(servers, shims) && IssuedOk(shims, requests) && h in shims
    requires state.Valid() && shims[h].state.nextRequestId <= state.nextRequestId
    ensures ShimsOk(servers, shims[h := shims[h].(state := state)])
    ensures IssuedOk(shims[h := shims[h].(state := state)], requests)
  {
  }

  lemma InvokeStamps(s: System, k: Key, r: Request)
    requires RequestsOk(s.requests, s.history) && StampsOk(s.requests, s.log, s.history) && OrderOk(s.history)
    requires k !in s.requests && r.invokedAt == |s.history| && !r.op.Delete?
    ensures
      var history := s.history + [Stamped(L.Invoke(r.invokedAt, r.op), k, |s.log|, 0)];
      && RequestsOk(s.requests[k := r], history) && StampsOk(s.requests[k := r], s.log, history)
      && OrderOk(history)
  {
    var e := Stamped(L.Invoke(r.invokedAt, r.op), k, |s.log|, 0);
    var history := s.history + [e];
    forall t | 0 <= t < |history| ensures StampOk(s.requests[k := r], s.log, history[t], t) {
      if t < |s.history| {
        assert StampOk(s.requests, s.log, s.history[t], t);
      }
    }
  }

  lemma InvokeLog(requests: map<Key, Request>, log: seq<Command>, history: seq<Stamped>, k: Key, r: Request, e: Stamped)
    requires LogOk(requests, log, history) && k !in requests
    ensures LogOk(requests[k := r], log, history + [e])
  {
  }

  lemma PlacesGrow(places: multiset<Command>, requests: map<Key, Request>, c: Command, r: Request)
    requires PlacesOk(places, requests) && KeyOf(c) !in requests && r.op == c.kvCmd
    ensures PlacesOk(places + multiset{c}, requests[KeyOf(c) := r])
  {
    assert c !in places;
  }

  lemma InvokePlaces(s: System, s': System, e: Envelope)
    requires s'.toServer == s.toServer + [e] && s'.pool == s.pool && s'.log == s.log
    ensures Places(s') == Places(s) + multiset{Tag(e.server, e.client, e.msg)}
  {
    assert Tagged(s.toServer + [e]) == Tagged(s.toServer) + [Tag(e.server, e.client, e.msg)];
  }

  /** One more invocation answers nobody. */
  lemma InvokeWaiting(s: System, node: ShimNode, k: Key, r: Request, e: Stamped)
    requires ParkedOk(node, s.requests, s.history) && k !in s.requests && e.event.Invoke?
    ensures ParkedOk(node, s.requests[k := r], s.history + [e])
  {
    forall q, call | Waiting(s.requests, s.history, q, call)
      ensures Waiting(s.requests[k := r], s.history + [e], q, call)
    {
      assert !Answered(s.history + [e], q);
    }
  }

  predicate Parks(before: ShimState, after: ShimState, id: CommandId, op: KVCommand, call: Call) {
    || (op.Put? && after == before.(nextRequestId := id + 1, pendingPut := before.pendingPut[id := call]))
    || (op.Get? && after == before.(nextRequestId := id + 1, pendingGet := before.pendingGet[id := call]))
  }

  lemma InvokePending(s: System, h: ShimId, state: ShimState, k: Key, r: Request, e: Stamped)
    requires PendingOk(s.shims, s.requests, s.history) && StampsOk(s.requests, s.log, s.history)
    requires h in s.shims && k == Key(s.shims[h].server, s.shims[h].client, s.shims[h].state.nextRequestId)
    requires k !in s.requests && r.invokedAt == |s.history| && e.event.Invoke?
    requires Parks(s.shims[h].state, state, k.id, r.op, r.invokedAt)
    ensures PendingOk(s.shims[h := s.shims[h].(state := state)], s.requests[k := r], s.history + [e])
  {
    forall g | g in s.shims ensures ParkedOk(s.shims[g], s.requests[k := r], s.history + [e]) {
      InvokeWaiting(s, s.shims[g], k, r, e);
    }
    assert !Answered(s.history + [e], k) by {
      forall t | 0 <= t < |s.history| ensures s.history[t].key != k {
        assert StampOk(s.requests, s.log, s.history[t], t);
      }
    }
    assert Waiting(s.requests[k := r], s.history + [e], k, r.invokedAt);
  }

  lemma InvokeIssued(shims: map<ShimId, ShimNode>, requests: map<Key, Request>, k: Key, r: Request)
    requires IssuedOk(shims, requests) && r.shim in shims && IssuedBy(k, shims[r.shim])
    ensures IssuedOk(shims, requests[k := r])
  {
  }

  lemma InvokedShims(s: System, h: ShimId, state: ShimState, k: Key, r: Request, e: Stamped)
    requires ShimsOk(s.servers, s.shims) && IssuedOk(s.shims, s.requests) && h in s.shims
    requires PendingOk(s.shims, s.requests, s.history) && StampsOk(s.requests, s.log, s.history)
    requires k == Key(s.shims[h].server, s.shims[h].client, s.shims[h].state.nextRequestId) && k !in s.requests
    requires r == Request(r.op, |s.history|, h) && e.event.Invoke?
    requires state.Valid() && Parks(s.shims[h].state, state, k.id, r.op, r.invokedAt)
    ensures
      var shims := s.shims[h := s.shims[h].(state := state)];
      && ShimsOk(s.servers, shims) && IssuedOk(shims, s.requests[k := r])
      && PendingOk(shims, s.requests[k := r], s.history + [e])
  {
    ShimChanges(s.servers, s.shims, s.requests, h, state);
    InvokeIssued(s.shims[h := s.shims[h].(state := state)], s.requests, k, r);
    InvokePending(s, h, state, k, r, e);
  }

  lemma InvokedInv(s: System, h: ShimId, op: KVCommand, state: ShimState, m: ClientMessage)
    requires Inv(s) && h in s.shims && m.id == s.shims[h].state.nextRequestId && state.Valid()
    requires Parks(s.shims[h].state, state, m.id, op, |s.history|) && m.kvCmd == op
    ensures Inv(Invoked(s, h, op, state, m))
  {
    var node := s.shims[h];
    var k := Key(node.server, node.client, m.id);
    var r := Request(op, |s.history|, h);
    var e := Stamped(L.Invoke(|s.history|, op), k, |s.log|, 0);
    NumberIsNew(s, h);
    InvokedShims(s, h, state, k, r, e);
    InvokeStamps(s, k, r);
    InvokeLog(s.requests, s.log, s.history, k, r, e);
    InvokePlaces(s, Invoked(s, h, op, state, m), Envelope(node.server, node.client, m));
    PlacesGrow(Places(s), s.requests, Tag(node.server, node.client, m), r);
  }

  lemma OnWireInv(s: System, h: ShimId)
    requires Inv(s) && s.toServer != []
    ensures Inv(OnWire(s, h))
  {
    if h in s.mute {
      LoseInv(s, |s.toServer| - 1);
    }
  }

  lemma PutInv(s: System, h: ShimId, key: string, value: string)
    requires Inv(s) && h in s.shims
    ensures Inv(OnWire(Put(s, h, key, value), h))
  {
    var (state, m) := SubmitPut(s.shims[h].state, key, value, |s.history|);
    InvokedInv(s, h, KVCommand.Put(key, value), state, m);
    OnWireInv(Put(s, h, key, value), h);
  }

  lemma GetInv(s: System, h: ShimId, key: string)
    requires Inv(s) && h in s.shims
    ensures Inv(OnWire(Get(s, h, key), h))
  {
    var (state, m) := SubmitGet(s.shims[h].state, key, |s.history|);
    InvokedInv(s, h, KVCommand.Get(key), state, m);
    OnWireInv(Get(s, h, key), h);
  }

  // A shim receives an answer.

  lemma TwiceCounts<T>(log: seq<T>, j: nat, i: nat)
    requires j < i < |log| && log[j] == log[i]
    ensures multiset(log)[log[i]] >= 2
  {
    var a, b := log[..i], log[i..];
    assert log == a + b && log[i] == a[j] == b[0];
  }

  /** A request is chosen once, so its first place in the log is its only one. */
  lemma FindUnique(s: System, i: nat)
    requires PlacesOk(Places(s), s.requests) && i < |s.log|
    ensures PlaceOf(s.log, KeyOf(s.log[i])) == i
    ensures KeyOf(s.log[i]) in s.requests && s.requests[KeyOf(s.log[i])].op == s.log[i].kvCmd
  {
    assert s.log[i] in Places(s);
    var j := PlaceOf(s.log, KeyOf(s.log[i]));
    if j < i {
      SameRequest(s, j, i);
      TwiceCounts(s.log, j, i);
    }
  }

  lemma SameRequest(s: System, j: nat, i: nat)
    requires PlacesOk(Places(s), s.requests) && j < |s.log| && i < |s.log| && KeyOf(s.log[j]) == KeyOf(s.log[i])
    ensures s.log[j] == s.log[i] && Places(s)[s.log[i]] == 1
  {
    assert s.log[j] in Places(s) && s.log[i] in Places(s);
  }

  /** What a server sent to a client, start signals aside, is the answer to a command it has applied. */
  lemma AnswerOrigin(r: Replica, x: Sent) returns (i: nat)
    requires r.Valid() && x in r.sent && !x.msg.StartSignal?
    ensures i < r.idx <= |r.decided| && KeyOf(r.decided[i]) == Key(r.id, x.to, x.msg.id)
    ensures Reply(Replay(map[], r.decided[..i]), r.decided[i].kvCmd) == if x.msg.Read? then Some(x.msg.value) else None
  {
    RepliesMember(r.sent, x);
    i := ResponseOrigin(r.id, map[], r.decided[..r.idx], x);
    assert r.decided[..r.idx][..i] == r.decided[..i];
  }

  /** An answer sent to a client is the answer to one of its requests, at that request's place in
      the log. */
  lemma AnswerPlace(s: System, n: NodeId, x: Sent) returns (i: nat)
    requires ServersOk(s.servers, s.log) && PlacesOk(Places(s), s.requests)
    requires n in s.servers && x in s.servers[n].sent && !x.msg.StartSignal?
    ensures i < s.servers[n].idx <= |s.log| && KeyOf(s.log[i]) == Key(n, x.to, x.msg.id)
            && PlaceOf(s.log, KeyOf(s.log[i])) == i
    ensures Reply(Replay(map[], s.log[..i]), s.log[i].kvCmd) == if x.msg.Read? then Some(x.msg.value) else None
  {
    i := AnswerOrigin(s.servers[n], x);
    assert s.servers[n].decided[..i] == s.log[..i] && s.servers[n].decided[i] == s.log[i];
    FindUnique(s, i);
  }

  predicate Wakes(before: ShimState, after: ShimState, id: CommandId) {
    || (id in before.pendingPut && after == before.(pendingPut := before.pendingPut - {id}))
    || (id in before.pendingGet && after == before.(pendingGet := before.pendingGet - {id}))
  }

  lemma ReceiveEffect(before: ShimState, m: ServerMessage)
    requires before.Valid()
    ensures var (after, done) := Receive(before, m);
            && after.Valid() && after.nextRequestId == before.nextRequestId
            && match done
               case None => after.pendingPut == before.pendingPut && after.pendingGet == before.pendingGet
               case Some(c) => Wakes(before, after, c.id) && !m.StartSignal?
  {
  }

  lemma ReturnPending(s: System, h: ShimId, state: ShimState, c: Completion, e: Stamped)
    requires ShimsOk(s.servers, s.shims) && PendingOk(s.shims, s.requests, s.history) && h in s.shims
    requires e.key == Key(s.shims[h].server, s.shims[h].client, c.id)
    requires Wakes(s.shims[h].state, state, c.id)
    ensures PendingOk(s.shims[h := s.shims[h].(state := state)], s.requests, s.history + [e])
  {
    var shims := s.shims[h := s.shims[h].(state := state)];
    forall g | g in shims ensures ParkedOk(shims[g], s.requests, s.history + [e]) {
      assert ParkedOk(s.shims[g], s.requests, s.history);
      forall q, call | Waiting(s.requests, s.history, q, call) && q != e.key
        ensures Waiting(s.requests, s.history + [e], q, call)
      {
        assert !Answered(s.history + [e], q);
      }
    }
  }

  lemma ReturnOrder(requests: map<Key, Request>, log: seq<Command>, history: seq<Stamped>, e: Stamped)
    requires StampsOk(requests, log, history) && OrderOk(history)
    requires StampOk(requests, log, e, |history|) && e.logLen == |log| && !Answered(history, e.key)
    ensures StampsOk(requests, log, history + [e]) && OrderOk(history + [e])
  {
  }

  lemma HistoryGrows(requests: map<Key, Request>, log: seq<Command>, history: seq<Stamped>, e: Stamped)
    requires RequestsOk(requests, history) && LogOk(requests, log, history)
    ensures RequestsOk(requests, history + [e]) && LogOk(requests, log, history + [e])
  {
  }

  lemma QuietPending(s: System, h: ShimId, state: ShimState)
    requires PendingOk(s.shims, s.requests, s.history) && h in s.shims
    requires state.pendingPut == s.shims[h].state.pendingPut && state.pendingGet == s.shims[h].state.pendingGet
    ensures PendingOk(s.shims[h := s.shims[h].(state := state)], s.requests, s.history)
  {
  }

  lemma SameCluster(s: System, shims: map<ShimId, ShimNode>, history: seq<Stamped>)
    requires Inv(s) && ShimsOk(s.servers, shims) && IssuedOk(shims, s.requests)
    requires PendingOk(shims, s.requests, history) && RequestsOk(s.requests, history)
    requires StampsOk(s.requests, s.log, history) && OrderOk(history) && LogOk(s.requests, s.log, history)
    ensures Inv(s.(shims := shims, history := history))
  {
    assert Places(s.(shims := shims, history := history)) == Places(s);
  }

  /** The event of an answer is in order: it is the answer to a waiting call. */
  lemma ReturnStamp(s: System, h: ShimId, m: ServerMessage, c: Completion) returns (e: Stamped)
    requires ServersOk(s.servers, s.log) && PlacesOk(Places(s), s.requests)
    requires RequestsOk(s.requests, s.history) && PendingOk(s.shims, s.requests, s.history)
    requires h in s.shims && s.shims[h].server in s.servers
             && Sent(s.shims[h].client, m) in s.servers[s.shims[h].server].sent
    requires Receive(s.shims[h].state, m).1 == Some(c)
    ensures e.key == Key(s.shims[h].server, s.shims[h].client, c.id) && !Answered(s.history, e.key)
    ensures e == Stamped(L.Return(c.call, c.reply), e.key, |s.log|, PlaceOf(s.log, e.key))
    ensures StampOk(s.requests, s.log, e, |s.history|)
  {
    var node := s.shims[h];
    var k := Key(node.server, node.client, c.id);
    var i := AnswerPlace(s, node.server, Sent(node.client, m));
    e := Stamped(L.Return(c.call, c.reply), k, |s.log|, i);
    assert ParkedOk(node, s.requests, s.history);
    assert Waiting(s.requests, s.history, k, c.call);
  }

  lemma ReturnInv(s: System, h: ShimId, state: ShimState, c: Completion, e: Stamped)
    requires Inv(s) && h in s.shims && state.Valid() && state.nextRequestId == s.shims[h].state.nextRequestId
    requires Wakes(s.shims[h].state, state, c.id)
    requires e.key == Key(s.shims[h].server, s.shims[h].client, c.id) && !Answered(s.history, e.key)
    requires e.event.Return? && e.logLen == |s.log| && StampOk(s.requests, s.log, e, |s.history|)
    ensures Inv(s.(shims := s.shims[h := s.shims[h].(state := state)], history := s.history + [e]))
  {
    ShimChanges(s.servers, s.shims, s.requests, h, state);
    ReturnPending(s, h, state, c, e);
    ReturnOrder(s.requests, s.log, s.history, e);
    HistoryGrows(s.requests, s.log, s.history, e);
    SameCluster(s, s.shims[h := s.shims[h].(state := state)], s.history + [e]);
  }

  lemma QuietInv(s: System, h: ShimId, state: ShimState)
    requires Inv(s) && h in s.shims && state.Valid() && state.nextRequestId == s.shims[h].state.nextRequestId
    requires state.pendingPut == s.shims[h].state.pendingPut && state.pendingGet == s.shims[h].state.pendingGet
    ensures Inv(s.(shims := s.shims[h := s.shims[h].(state := state)]))
  {
    ShimChanges(s.servers, s.shims, s.requests, h, state);
    QuietPending(s, h, state);
    SameCluster(s, s.shims[h := s.shims[h].(state := state)], s.history);
  }

  lemma DeliverInv(s: System, h: ShimId, m: ServerMessage)
    requires Inv(s) && h in s.shims && Sent(s.shims[h].client, m) in s.servers[s.shims[h].server].sent
    ensures Inv(Deliver(s, h, m))
  {
    var (state, done) := Receive(s.shims[h].state, m);
    ReceiveEffect(s.shims[h].state, m);
    if done.None? {
      QuietInv(s, h, state);
    } else {
      var e := ReturnStamp(s, h, m, done.value);
      ReturnInv(s, h, state, done.value, e);
    }
  }
}
