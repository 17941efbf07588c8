/** Where requests are: every command ever proposed is proposed once, by the server that it names, and is still
    in the pool or in the log; only shims that have started have callers waiting; and a request that is lost is
    lost for good. */
module Requests {
  import opened Wrappers
  import opened Kv
  import opened Server
  import opened Shim
  import opened Cluster
  import opened Safety

  /** What was proposed to the library, chosen by now or not. */
  function Proposals(s: System): multiset<Command> {
    s.pool + multiset(s.log)
  }

  ghost predicate ProposedBy(cs: seq<Command>, n: NodeId, proposals: multiset<Command>) {
    forall c :: multiset(cs)[c] == if c.coordinatorId == n then proposals[c] else 0
  }

  ghost predicate ProposesOk(r: Replica, n: NodeId, proposals: multiset<Command>) {
    r.id == n && ProposedBy(r.proposed, n, proposals)
  }

  /** Each server has proposed what names it, as often as it is proposed, and nothing else. */
  ghost predicate ProposedOk(servers: map<NodeId, Replica>, proposals: multiset<Command>) {
    && (forall n :: n in servers ==> ProposesOk(servers[n], n, proposals))
    && (forall c :: c in proposals ==> c.coordinatorId in servers)
  }

  ghost predicate StartedOk(shims: map<ShimId, ShimNode>) {
    forall h :: h in shims && !shims[h].state.started ==>
      shims[h].state.pendingPut == map[] && shims[h].state.pendingGet == map[]
  }

  /** What got out on a failed connection had been sent by then. */
  ghost predicate CutOk(servers: map<NodeId, Replica>, shims: map<ShimId, ShimNode>, cut: map<ShimId, nat>) {
    forall h :: h in cut ==>
      h in shims && shims[h].server in servers && cut[h] <= |servers[shims[h].server].sent|
  }

  ghost predicate BooksOk(s: System) {
    ProposedOk(s.servers, Proposals(s)) && StartedOk(s.shims) && CutOk(s.servers, s.shims, s.cut)
  }

  // ---- Every step keeps the books ----

  lemma SameProposed(servers: map<NodeId, Replica>, proposals: multiset<Command>, n: NodeId, r: Replica)
    requires ProposedOk(servers, proposals) && n in servers && r.id == n && r.proposed == servers[n].proposed
    ensures ProposedOk(servers[n := r], proposals)
  {
  }

  lemma ProposedMore(cs: seq<Command>, n: NodeId, proposals: multiset<Command>, c: Command)
    requires ProposedBy(cs, n, proposals)
    ensures ProposedBy(if c.coordinatorId == n then cs + [c] else cs, n, proposals + multiset{c})
  {
    assert multiset(cs + [c]) == multiset(cs) + multiset{c};
  }

  lemma OneMoreProposed(servers: map<NodeId, Replica>, proposals: multiset<Command>, n: NodeId, r: Replica, c: Command)
    requires ProposedOk(servers, proposals) && n in servers && r.id == n && c.coordinatorId == n
    requires r.proposed == servers[n].proposed + [c]
    ensures ProposedOk(servers[n := r], proposals + multiset{c})
  {
    var more, next := proposals + multiset{c}, servers[n := r];
    forall m | m in next ensures ProposesOk(next[m], m, more) {
      ProposedMore(servers[m].proposed, m, proposals, c);
    }
  }

  lemma ConnectBooks(s: System, h: ShimId, n: NodeId)
    requires BooksOk(s) && h !in s.shims && n in s.servers
    ensures BooksOk(Connect(s, h, n))
  {
    SameProposed(s.servers, Proposals(s), n, Connect(s, h, n).servers[n]);
  }

  lemma InvokedBooks(s: System, h: ShimId, op: KVCommand, state: ShimState, m: ClientMessage)
    requires BooksOk(s) && h in s.shims && state.started
    ensures BooksOk(Invoked(s, h, op, state, m))
  {
  }

  lemma ReceiveBooks(s: System, i: nat)
    requires BooksOk(s) && i < |s.toServer| && s.toServer[i].server in s.servers
    ensures BooksOk(ReceiveRequest(s, i))
  {
    var e := s.toServer[i];
    var c := Tag(e.server, e.client, e.msg);
    OneMoreProposed(s.servers, Proposals(s), e.server, ReceiveRequest(s, i).servers[e.server], c);
    assert Proposals(ReceiveRequest(s, i)) == Proposals(s) + multiset{c};
  }

  lemma ChooseBooks(s: System, c: Command)
    requires BooksOk(s) && c in s.pool
    ensures BooksOk(Choose(s, c))
  {
    assert Proposals(Choose(s, c)) == Proposals(s);
  }

  /** A message from a peer adds to what a server has sent: a start signal adds one start signal for each configured
      client, and any other message adds answers only. */
  lemma SentGrows(r: Replica, m: ClusterMessage)
    ensures r.sent <= HandleCluster(r, m).sent
    ensures forall j :: |r.sent| <= j < |HandleCluster(r, m).sent| ==>
              (HandleCluster(r, m).sent[j].msg.StartSignal? <==> m.LeaderStartSignal?)
    ensures m.LeaderStartSignal? ==>
              && |HandleCluster(r, m).sent| == |r.sent| + r.numClients
              && forall j :: |r.sent| <= j < |HandleCluster(r, m).sent| ==>
                   HandleCluster(r, m).sent[j] == Sent(j - |r.sent| + 1, StartSignal(m.time))
  {
    if m.OmniPaxosMessage? && r.idx < |r.decided + m.decides| {
      OnlyAnswers(r.id, r.db, (r.decided + m.decides)[r.idx..]);
    }
  }

  lemma {:induction false} OnlyAnswers(id: NodeId, db: Store, batch: seq<Command>)
    ensures forall j :: 0 <= j < |Responses(id, db, batch)| ==> !Responses(id, db, batch)[j].msg.StartSignal?
    decreases |batch|
  {
    if batch != [] {
      OnlyAnswers(id, db, batch[..|batch| - 1]);
    }
  }

  lemma OnWireBooks(s: System, h: ShimId)
    requires BooksOk(s) && s.toServer != []
    ensures BooksOk(OnWire(s, h))
  {
    assert Proposals(OnWire(s, h)) == Proposals(s);
  }

  lemma FromPeerBooks(s: System, n: NodeId, m: ClusterMessage)
    requires BooksOk(s) && n in s.servers
    ensures BooksOk(FromPeer(s, n, m))
  {
    HandleClusterFrame(s.servers[n], m);
    SentGrows(s.servers[n], m);
    SameProposed(s.servers, Proposals(s), n, HandleCluster(s.servers[n], m));
  }

  lemma ReceiveStarted(before: ShimState, m: ServerMessage)
    requires !before.started ==> before.pendingPut == map[] && before.pendingGet == map[]
    ensures var after := Receive(before, m).0;
            !after.started ==> after.pendingPut == map[] && after.pendingGet == map[]
  {
  }

  /** Delivering a message changes one shim and the history. */
  lemma DeliverFrame(s: System, h: ShimId, m: ServerMessage)
    requires h in s.shims
    ensures var t := Deliver(s, h, m);
            && t.servers == s.servers && t.toServer == s.toServer && t.pool == s.pool && t.log == s.log
            && t.requests == s.requests && t.halted == s.halted && t.cut == s.cut
            && t.shims == s.shims[h := s.shims[h].(state := Receive(s.shims[h].state, m).0)]
  {
  }

  lemma NewState(servers: map<NodeId, Replica>, shims: map<ShimId, ShimNode>, cut: map<ShimId, nat>, h: ShimId,
                 state: ShimState)
    requires StartedOk(shims) && CutOk(servers, shims, cut) && h in shims
    requires !state.started ==> state.pendingPut == map[] && state.pendingGet == map[]
    ensures var next := shims[h := shims[h].(state := state)]; StartedOk(next) && CutOk(servers, next, cut)
  {
  }

  lemma DeliverBooks(s: System, h: ShimId, m: ServerMessage)
    requires BooksOk(s) && h in s.shims
    ensures BooksOk(Deliver(s, h, m))
  {
    var state := Receive(s.shims[h].state, m).0;
    DeliverFrame(s, h, m);
    ReceiveStarted(s.shims[h].state, m);
    NewState(s.servers, s.shims, s.cut, h, state);
    assert Proposals(Deliver(s, h, m)) == Proposals(s);
  }

  lemma PutBooks(s: System, h: ShimId, key: string, value: string)
    requires BooksOk(s) && h in s.shims && s.shims[h].state.started
    ensures BooksOk(OnWire(Cluster.Put(s, h, key, value), h))
  {
    var (state, m) := SubmitPut(s.shims[h].state, key, value, |s.history|);
    InvokedBooks(s, h, KVCommand.Put(key, value), state, m);
    OnWireBooks(Cluster.Put(s, h, key, value), h);
  }

  lemma GetBooks(s: System, h: ShimId, key: string)
    requires BooksOk(s) && h in s.shims && s.shims[h].state.started
    ensures BooksOk(OnWire(Cluster.Get(s, h, key), h))
  {
    var (state, m) := SubmitGet(s.shims[h].state, key, |s.history|);
    InvokedBooks(s, h, KVCommand.Get(key), state, m);
    OnWireBooks(Cluster.Get(s, h, key), h);
  }

  lemma LoseBooks(s: System, i: nat)
    requires BooksOk(s) && i < |s.toServer|
    ensures BooksOk(Lose(s, i))
  {
    assert Proposals(Lose(s, i)) == Proposals(s);
  }

  lemma FailedBooks(s: System, f: Failure)
    requires BooksOk(s) && CanFail(s, f)
    ensures BooksOk(Failed(s, f))
  {
    assert Proposals(Failed(s, f)) == Proposals(s);
  }

  lemma StepBooks(s: System, step: Step)
    requires BooksOk(s) && Enabled(s, step)
    ensures BooksOk(Do(s, step))
  {
    match step
    case ConnectShim(h, n) => ConnectBooks(s, h, n);
    case CallPut(h, key, value) => PutBooks(s, h, key, value);
    case CallGet(h, key) => GetBooks(s, h, key);
    case LoseRequest(i) => LoseBooks(s, i);
    case TakeRequest(i) => ReceiveBooks(s, i);
    case Decide(c) => ChooseBooks(s, c);
    case PeerMessage(n, m) => FromPeerBooks(s, n, m);
    case DeliverReply(h, j) => DeliverBooks(s, h, s.servers[s.shims[h].server].sent[j].msg);
    case Fail(f) => FailedBooks(s, f);
  }

  lemma {:induction false} RunBooks(s: System, steps: seq<Step>, end: System)
    requires BooksOk(s) && IsRun(s, steps, end)
    ensures BooksOk(end)
    decreases |steps|
  {
    if steps != [] {
      StepBooks(s, steps[0]);
      RunBooks(Do(s, steps[0]), steps[1..], end);
    }
  }

  lemma ReachableBooks(s: System)
    requires Reachable(s)
    ensures BooksOk(s)
  {
    var s0, steps :| Init(s0) && IsRun(s0, steps, s);
    assert Proposals(s0) == multiset{};
    RunBooks(s0, steps, s);
  }

  // ---- One request, one command ----

  /** Of all commands on their way, proposed or chosen, no two have the same server, client and number, none is
      there twice, and each is what its caller asked for. */
  lemma OnePlace(s: System, c: Command, d: Command)
    requires Reachable(s) && c in Places(s) && d in Places(s)
    ensures Places(s)[c] == 1 && KeyOf(c) in s.requests && s.requests[KeyOf(c)].op == c.kvCmd
    ensures KeyOf(c) == KeyOf(d) ==> c == d
  {
    ReachableInv(s);
  }

  /** Of all commands ever appended, by any servers, no two have the same server, client and number; each was
      appended by the server that it names and is in the pool or in the log, once. */
  lemma AppendedOnce(s: System, m: NodeId, n: NodeId, i: nat, j: nat)
    requires Reachable(s) && m in s.servers && n in s.servers
    requires i < |s.servers[m].proposed| && j < |s.servers[n].proposed|
    ensures var c := s.servers[m].proposed[i]; c.coordinatorId == m && Proposals(s)[c] == 1
    ensures KeyOf(s.servers[m].proposed[i]) == KeyOf(s.servers[n].proposed[j]) ==> m == n && i == j
  {
    ReachableInv(s);
    ReachableBooks(s);
    var c, d := s.servers[m].proposed[i], s.servers[n].proposed[j];
    AppendedIsProposed(s, m, i);
    AppendedIsProposed(s, n, j);
    if KeyOf(c) == KeyOf(d) && i != j {
      TwiceInLog(s.servers[m].proposed, i, j);
    }
  }

  lemma TwiceInLog(cs: seq<Command>, i: nat, j: nat)
    requires i < |cs| && j < |cs| && i != j && cs[i] == cs[j]
    ensures multiset(cs)[cs[i]] >= 2
  {
    if i < j {
      TwiceCounts(cs, i, j);
    } else {
      TwiceCounts(cs, j, i);
    }
  }

  lemma AppendedIsProposed(s: System, n: NodeId, i: nat)
    requires ProposedOk(s.servers, Proposals(s)) && PlacesOk(Places(s), s.requests)
    requires n in s.servers && i < |s.servers[n].proposed|
    ensures var c := s.servers[n].proposed[i];
            && c.coordinatorId == n && c in Places(s)
            && multiset(s.servers[n].proposed)[c] == Proposals(s)[c] == 1
  {
    var c := s.servers[n].proposed[i];
    assert c in multiset(s.servers[n].proposed);
    assert Places(s)[c] == multiset(Tagged(s.toServer))[c] + Proposals(s)[c];
  }

  // ---- A lost request ----

  /** The request was made, and is nowhere. */
  ghost predicate Gone(s: System, k: Key) {
    k in s.requests && forall c :: c in Places(s) ==> KeyOf(c) != k
  }

  lemma GoneStays(s: System, t: System, k: Key)
    requires Gone(s, k) && k in t.requests && Places(t) <= Places(s)
    ensures Gone(t, k)
  {
  }

  lemma GoneElsewhere(s: System, t: System, k: Key)
    requires Gone(s, k) && t.requests == s.requests
    requires t.toServer == s.toServer && t.pool == s.pool && t.log == s.log
    ensures Gone(t, k)
  {
    assert Places(t) == Places(s);
  }

  lemma LoseGone(s: System, i: nat, k: Key)
    requires Gone(s, k) && i < |s.toServer|
    ensures Gone(Lose(s, i), k)
  {
    RemoveRequest(s.toServer, i);
    GoneStays(s, Lose(s, i), k);
  }

  lemma ReceiveGone(s: System, i: nat, k: Key)
    requires Inv(s) && Gone(s, k) && i < |s.toServer| && s.toServer[i].server in s.servers
    ensures Gone(ReceiveRequest(s, i), k)
  {
    ReceivePlaces(s, i);
    GoneStays(s, ReceiveRequest(s, i), k);
  }

  lemma ChooseGone(s: System, c: Command, k: Key)
    requires Gone(s, k) && c in s.pool
    ensures Gone(Choose(s, c), k)
  {
    ChoosePlaces(s, c);
    GoneStays(s, Choose(s, c), k);
  }

  lemma DeliverGone(s: System, h: ShimId, m: ServerMessage, k: Key)
    requires Gone(s, k) && h in s.shims
    ensures Gone(Deliver(s, h, m), k)
  {
    DeliverFrame(s, h, m);
    GoneElsewhere(s, Deliver(s, h, m), k);
  }

  lemma FromPeerGone(s: System, n: NodeId, m: ClusterMessage, k: Key)
    requires Gone(s, k) && n in s.servers
    ensures Gone(FromPeer(s, n, m), k)
  {
    GoneElsewhere(s, FromPeer(s, n, m), k);
  }

  lemma FailedGone(s: System, f: Failure, k: Key)
    requires Gone(s, k)
    ensures Gone(Failed(s, f), k)
  {
    GoneElsewhere(s, Failed(s, f), k);
  }

  lemma GoneGrows(s: System, t: System, k: Key, c: Command)
    requires Gone(s, k) && KeyOf(c) != k && k in t.requests && Places(t) == Places(s) + multiset{c}
    ensures Gone(t, k)
  {
  }

  lemma InvokedGone(s: System, h: ShimId, op: KVCommand, state: ShimState, m: ClientMessage, k: Key)
    requires Inv(s) && h in s.shims && m.id == s.shims[h].state.nextRequestId && Gone(s, k)
    ensures Gone(Invoked(s, h, op, state, m), k)
  {
    var node := s.shims[h];
    NumberIsNew(s, h);
    InvokePlaces(s, Invoked(s, h, op, state, m), Envelope(node.server, node.client, m));
    GoneGrows(s, Invoked(s, h, op, state, m), k, Tag(node.server, node.client, m));
  }

  lemma OnWireGone(s: System, h: ShimId, k: Key)
    requires Gone(s, k) && s.toServer != []
    ensures Gone(OnWire(s, h), k)
  {
    if h in s.mute {
      LoseGone(s, |s.toServer| - 1, k);
    }
  }

  lemma PutGone(s: System, h: ShimId, key: string, value: string, k: Key)
    requires Inv(s) && h in s.shims && Gone(s, k)
    ensures Gone(OnWire(Cluster.Put(s, h, key, value), h), k)
  {
    var (state, m) := SubmitPut(s.shims[h].state, key, value, |s.history|);
    InvokedGone(s, h, KVCommand.Put(key, value), state, m, k);
    OnWireGone(Cluster.Put(s, h, key, value), h, k);
  }

  lemma GetGone(s: System, h: ShimId, key: string, k: Key)
    requires Inv(s) && h in s.shims && Gone(s, k)
    ensures Gone(OnWire(Cluster.Get(s, h, key), h), k)
  {
    var (state, m) := SubmitGet(s.shims[h].state, key, |s.history|);
    InvokedGone(s, h, KVCommand.Get(key), state, m, k);
    OnWireGone(Cluster.Get(s, h, key), h, k);
  }

  lemma ShimStepGone(s: System, step: Step, k: Key)
    requires Inv(s) && Enabled(s, step) && AtShim(step) && Gone(s, k)
    ensures Gone(Do(s, step), k)
  {
    match step
    case ConnectShim(h, n) => GoneElsewhere(s, Connect(s, h, n), k);
    case CallPut(h, key, value) => PutGone(s, h, key, value, k);
    case CallGet(h, key) => GetGone(s, h, key, k);
    case DeliverReply(h, j) => DeliverGone(s, h, s.servers[s.shims[h].server].sent[j].msg, k);
  }

  lemma OtherStepGone(s: System, step: Step, k: Key)
    requires Inv(s) && Enabled(s, step) && !AtShim(step) && Gone(s, k)
    ensures Gone(Do(s, step), k)
  {
    match step
    case LoseRequest(i) => LoseGone(s, i, k);
    case TakeRequest(i) => ReceiveGone(s, i, k);
    case Decide(c) => ChooseGone(s, c, k);
    case PeerMessage(n, m) => FromPeerGone(s, n, m, k);
    case Fail(f) => FailedGone(s, f, k);
  }

  lemma StepGone(s: System, step: Step, k: Key)
    requires Inv(s) && Enabled(s, step) && Gone(s, k)
    ensures Gone(Do(s, step), k)
  {
    if AtShim(step) {
      ShimStepGone(s, step, k);
    } else {
      OtherStepGone(s, step, k);
    }
  }

  lemma {:induction false} RunGone(s: System, steps: seq<Step>, end: System, k: Key)
    requires Inv(s) && IsRun(s, steps, end) && Gone(s, k)
    ensures Inv(end) && Gone(end, k)
    decreases |steps|
  {
    if steps != [] {
      StepInv(s, steps[0]);
      StepGone(s, steps[0], k);
      RunGone(Do(s, steps[0]), steps[1..], end, k);
    }
  }

  lemma GoneUnanswered(s: System, k: Key)
    requires Inv(s) && Gone(s, k)
    ensures !Answered(s.history, k)
  {
    forall t | 0 <= t < |s.history| && s.history[t].event.Return? ensures s.history[t].key != k {
      AnsweredIsChosen(s.requests, s.log, s.history, t);
      ChosenHasPlace(s, s.history[t].pos);
    }
  }

  lemma AnsweredIsChosen(requests: map<Key, Request>, log: seq<Command>, history: seq<Stamped>, t: nat)
    requires StampsOk(requests, log, history) && t < |history| && history[t].event.Return?
    ensures history[t].pos < |log| && KeyOf(log[history[t].pos]) == history[t].key
  {
    assert StampOk(requests, log, history[t], t);
  }

  lemma ChosenHasPlace(s: System, i: nat)
    requires i < |s.log|
    ensures s.log[i] in Places(s)
  {
    assert s.log[i] in multiset(s.log);
  }

  /** A request that was lost is never answered, however the run goes on. */
  lemma LostNeverReturns(s: System, steps: seq<Step>, end: System, k: Key)
    requires Reachable(s) && Gone(s, k) && IsRun(s, steps, end)
    ensures !Answered(end.history, k)
  {
    ReachableInv(s);
    RunGone(s, steps, end, k);
    GoneUnanswered(end, k);
  }
}
