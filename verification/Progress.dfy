/** Which calls can complete. From every reachable state, whatever was lost or is still under way, a caller that a
    shim has parked can be answered if and only if the answer has got out to the shim, or the connection still
    works, the server runs and the request was not lost; and likewise for a new call. That a run exists is
    relative to the library: here it may choose any proposal, and bring all of the log to any running server. */
module Progress {
  import opened Wrappers
  import opened Kv
  import opened Server
  import opened Shim
  import opened Cluster
  import opened Connections
  import opened Requests
  import opened Safety
  import L = Linearizability

  lemma StepThen(s: System, step: Step, steps: seq<Step>, end: System)
    requires Enabled(s, step) && IsRun(Do(s, step), steps, end)
    ensures IsRun(s, [step] + steps, end)
  {
    assert ([step] + steps)[0] == step && ([step] + steps)[1..] == steps;
  }

  /** The shim has started and parks call `call`, for operation `op`, under `id`. */
  predicate Parked(state: ShimState, id: CommandId, op: KVCommand, call: Call) {
    && state.started
    && match op
       case Put(_, _) => id in state.pendingPut && state.pendingPut[id] == call
       case Get(_) => id in state.pendingGet && state.pendingGet[id] == call
       case Delete(_) => false
  }

  lemma Woken(state: ShimState, id: CommandId, op: KVCommand, call: Call, db: Store, c: Command)
    requires Parked(state, id, op, call) && c.id == id && c.kvCmd == op
    ensures Receive(state, Response(db, c)).1 == Some(Completion(id, call, Reply(db, op)))
  {
  }

  /** A server that runs and has a peer, with what it has learnt of the log. */
  ghost predicate Follows(s: System, n: NodeId, log: seq<Command>) {
    Running(s, n) && HasPeer(s, n) && s.servers[n].id == n && s.servers[n].Valid() && s.servers[n].decided <= log
  }

  predicate SameOutside(s: System, t: System) {
    t.shims == s.shims && t.halted == s.halted && t.cut == s.cut && t.history == s.history
  }

  lemma Take(s: System, i: nat, n: NodeId, client: ClientId, m: ClientMessage)
    requires Follows(s, n, s.log) && i < |s.toServer| && s.toServer[i] == Envelope(n, client, m)
    ensures Enabled(s, TakeRequest(i))
    ensures var t := Do(s, TakeRequest(i));
            Follows(t, n, s.log) && Tag(n, client, m) in t.pool && t.log == s.log && SameOutside(s, t)
  {
    PeersStay(s, Do(s, TakeRequest(i)), n);
  }

  lemma PeersStay(s: System, t: System, n: NodeId)
    requires HasPeer(s, n) && s.servers.Keys <= t.servers.Keys
    ensures HasPeer(t, n)
  {
    var p :| p in s.servers && p != n;
    assert p in t.servers;
  }

  lemma Return(s: System, h: ShimId, j: nat, id: CommandId, op: KVCommand, call: Call, db: Store, c: Command)
    requires Deliverable(s, h, j) && s.servers[s.shims[h].server].sent[j] == Sent(s.shims[h].client, Response(db, c))
    requires Parked(s.shims[h].state, id, op, call) && c.id == id && c.kvCmd == op
    ensures Enabled(s, DeliverReply(h, j))
    ensures var t := Do(s, DeliverReply(h, j));
            && Events(t.history) == Events(s.history) + [L.Return(call, Reply(db, op))]
            && Answered(t.history, Key(s.shims[h].server, s.shims[h].client, id)) && t.log == s.log
  {
    Woken(s.shims[h].state, id, op, call, db, c);
    var t := Do(s, DeliverReply(h, j));
    var last := t.history[|t.history| - 1];
    assert last.event.Return? && last.key == Key(s.shims[h].server, s.shims[h].client, id);
  }

  /** The run ends with the return of the call, as the command at place `at` of the log. */
  ghost predicate Returns(s: System, steps: seq<Step>, end: System, c: Command, call: Call, at: nat) {
    && IsRun(s, steps, end)
    && s.log <= end.log && at < |end.log| && end.log[at] == c
    && Events(end.history) == Events(s.history) + [L.Return(call, Reply(Replay(map[], end.log[..at]), c.kvCmd))]
    && Answered(end.history, KeyOf(c))
  }

  ghost predicate Awaits(s: System, h: ShimId, c: Command, call: Call) {
    && h in s.shims && c.coordinatorId == s.shims[h].server && c.clientId == s.shims[h].client
    && Parked(s.shims[h].state, c.id, c.kvCmd, call)
  }

  lemma StepReturns(s: System, step: Step, steps: seq<Step>, end: System, c: Command, call: Call, at: nat)
    requires Enabled(s, step) && Returns(Do(s, step), steps, end, c, call, at)
    requires Events(Do(s, step).history) == Events(s.history) && s.log <= Do(s, step).log
    ensures Returns(s, [step] + steps, end, c, call, at)
  {
    StepThen(s, step, steps, end);
  }

  /** A request that is on its way can be taken, chosen, learnt, answered and delivered. */
  lemma RequestCompletes(s: System, h: ShimId, i: nat, m: ClientMessage, call: Call)
    returns (steps: seq<Step>, end: System)
    requires h in s.shims && h !in s.cut && Follows(s, s.shims[h].server, s.log)
    requires i < |s.toServer| && s.toServer[i] == Envelope(s.shims[h].server, s.shims[h].client, m)
    requires Parked(s.shims[h].state, m.id, m.kvCmd, call)
    ensures Returns(s, steps, end, Tag(s.shims[h].server, s.shims[h].client, m), call, |s.log|)
  {
    var c := Tag(s.shims[h].server, s.shims[h].client, m);
    Take(s, i, s.shims[h].server, s.shims[h].client, m);
    var taken := Do(s, TakeRequest(i));
    steps, end := ProposalCompletes(taken, h, c, call);
    StepReturns(s, TakeRequest(i), steps, end, c, call, |s.log|);
    steps := [TakeRequest(i)] + steps;
  }

  /** A proposal can be chosen, learnt, answered and delivered. */
  lemma ProposalCompletes(s: System, h: ShimId, c: Command, call: Call) returns (steps: seq<Step>, end: System)
    requires Awaits(s, h, c, call) && h !in s.cut && Follows(s, c.coordinatorId, s.log) && c in s.pool
    ensures Returns(s, steps, end, c, call, |s.log|)
  {
    var chosen := Do(s, Decide(c));
    ChooseIt(s, h, c, call);
    steps, end := ChosenCompletes(chosen, h, c, call, |s.log|);
    StepReturns(s, Decide(c), steps, end, c, call, |s.log|);
    steps := [Decide(c)] + steps;
  }

  lemma ChooseIt(s: System, h: ShimId, c: Command, call: Call)
    requires Awaits(s, h, c, call) && Follows(s, c.coordinatorId, s.log) && c in s.pool
    ensures var t := Do(s, Decide(c));
            t.log == s.log + [c] && Follows(t, c.coordinatorId, t.log) && Awaits(t, h, c, call) && SameOutside(s, t)
  {
  }

  /** A chosen command can be learnt, answered and delivered. */
  lemma ChosenCompletes(s: System, h: ShimId, c: Command, call: Call, at: nat)
    returns (steps: seq<Step>, end: System)
    requires Awaits(s, h, c, call) && h !in s.cut && Follows(s, c.coordinatorId, s.log)
    requires at < |s.log| && s.log[at] == c
    ensures Returns(s, steps, end, c, call, at)
  {
    var n := c.coordinatorId;
    var learn := PeerMessage(n, OmniPaxosMessage(s.log[|s.servers[n].decided|..]));
    LearnAll(s, n);
    var learnt := Do(s, learn);
    steps, end := AnsweredCompletes(learnt, h, c, call, at);
    StepReturns(s, learn, steps, end, c, call, at);
    steps := [learn] + steps;
  }

  /** A server can learn all of the log. */
  lemma LearnAll(s: System, n: NodeId)
    requires Follows(s, n, s.log)
    ensures
      var learn := PeerMessage(n, OmniPaxosMessage(s.log[|s.servers[n].decided|..]));
      && Enabled(s, learn)
      && var t := Do(s, learn);
         && n in t.servers && t.servers[n].id == n && t.servers[n].Valid()
         && t.servers[n].decided == t.log == s.log && t.servers[n].idx == |s.log| && SameOutside(s, t)
  {
    var r := s.servers[n];
    var m := OmniPaxosMessage(s.log[|r.decided|..]);
    assert r.decided + m.decides == s.log;
    HandleClusterKeepsValid(r, m);
    HandleClusterFrame(r, m);
    LearntAll(r, m);
  }

  lemma LearntAll(r: Replica, m: ClusterMessage)
    requires r.Valid() && m.OmniPaxosMessage?
    ensures HandleCluster(r, m).idx == |r.decided + m.decides|
  {
  }

  /** A command whose server has applied it was answered, and on a working connection the answer can be delivered,
      also when the server no longer runs. */
  lemma AnsweredCompletes(s: System, h: ShimId, c: Command, call: Call, at: nat)
    returns (steps: seq<Step>, end: System)
    requires Awaits(s, h, c, call) && h !in s.cut && c.coordinatorId in s.servers
    requires s.servers[c.coordinatorId].id == c.coordinatorId && s.servers[c.coordinatorId].Valid()
    requires s.servers[c.coordinatorId].decided <= s.log
    requires at < s.servers[c.coordinatorId].idx && s.log[at] == c
    ensures Returns(s, steps, end, c, call, at)
  {
    var j := AnswerSent(s.servers[c.coordinatorId], s.log, at);
    Return(s, h, j, c.id, c.kvCmd, call, Replay(map[], s.log[..at]), c);
    end := Do(s, DeliverReply(h, j));
    StepThen(s, DeliverReply(h, j), [], end);
    steps := [DeliverReply(h, j)];
    assert steps == [DeliverReply(h, j)] + [];
  }

  lemma AnswerSent(r: Replica, log: seq<Command>, at: nat) returns (j: nat)
    requires r.Valid() && r.decided <= log && at < r.idx && log[at].coordinatorId == r.id
    ensures at < |log| && j < |r.sent|
    ensures r.sent[j] == Sent(log[at].clientId, Response(Replay(map[], log[..at]), log[at]))
  {
    var done := r.decided[..r.idx];
    assert done[at] == log[at] && done[..at] == log[..at];
    ResponseAt(r.id, map[], done, at);
    j := ReplyIsSent(r.sent, Coordinated(r.id, done[..at]));
  }

  lemma {:induction false} ReplyIsSent(sent: seq<Sent>, i: nat) returns (j: nat)
    requires i < |Replies(sent)|
    ensures j < |sent| && sent[j] == Replies(sent)[i]
    decreases |sent|
  {
    var front := sent[..|sent| - 1];
    if i < |Replies(front)| {
      j := ReplyIsSent(front, i);
    } else {
      j := |sent| - 1;
    }
  }

  // ---- Callers that wait ----

  /** The server of the command has applied it. */
  predicate Applied(s: System, c: Command) {
    c.coordinatorId in s.servers && s.servers[c.coordinatorId].idx <= |s.log|
    && c in s.log[..s.servers[c.coordinatorId].idx]
  }

  /** A caller that a shim has parked can be answered, while the connection works, when its request is still on its
      way, proposed or chosen and its server runs, or when its server has applied it already. */
  lemma ParkedCompletes(s: System, h: ShimId, c: Command, call: Call)
    returns (steps: seq<Step>, end: System, at: nat)
    requires Reachable(s) && Awaits(s, h, c, call) && h !in s.cut && c in Places(s)
    requires (Running(s, c.coordinatorId) && HasPeer(s, c.coordinatorId)) || Applied(s, c)
    ensures Returns(s, steps, end, c, call, at)
  {
    ReachableServer(s, c.coordinatorId);
    if Applied(s, c) {
      at :| 0 <= at < s.servers[c.coordinatorId].idx && s.log[at] == c;
      steps, end := AnsweredCompletes(s, h, c, call, at);
    } else if c in s.log {
      at :| 0 <= at < |s.log| && s.log[at] == c;
      steps, end := ChosenCompletes(s, h, c, call, at);
    } else if c in s.pool {
      at := |s.log|;
      steps, end := ProposalCompletes(s, h, c, call);
    } else {
      at := |s.log|;
      var i := OnItsWay(s, c);
      steps, end := RequestCompletes(s, h, i, s.toServer[i].msg, call);
    }
  }

  lemma OnItsWay(s: System, c: Command) returns (i: nat)
    requires c in Places(s) && c !in s.log && c !in s.pool
    ensures i < |s.toServer| && s.toServer[i].server == c.coordinatorId && s.toServer[i].client == c.clientId
    ensures Tag(s.toServer[i].server, s.toServer[i].client, s.toServer[i].msg) == c
  {
    assert c in Tagged(s.toServer);
    i :| 0 <= i < |s.toServer| && Tagged(s.toServer)[i] == c;
  }

  predicate Waits(state: ShimState, id: CommandId) {
    id in state.pendingPut || id in state.pendingGet
  }

  ghost predicate CanReturn(s: System, k: Key) {
    exists steps, end :: IsRun(s, steps, end) && Answered(end.history, k)
  }

  /** The server of the shim can still take, learn and answer what the shim asks, and the answer can get out. */
  predicate Served(s: System, h: ShimId)
    requires h in s.shims
  {
    h !in s.cut && Running(s, s.shims[h].server) && HasPeer(s, s.shims[h].server)
  }

  /** The message of an answer, by the place of its request in the log. */
  lemma AnswerOf(s: System, n: NodeId, x: Sent) returns (i: nat)
    requires ServersOk(s.servers, s.log) && PlacesOk(Places(s), s.requests)
    requires n in s.servers && x in s.servers[n].sent && !x.msg.StartSignal?
    ensures i < |s.log| && KeyOf(s.log[i]) == Key(n, x.to, x.msg.id)
    ensures x == Sent(s.log[i].clientId, Response(Replay(map[], s.log[..i]), s.log[i]))
  {
    i := AnswerPlace(s, n, x);
  }

  lemma CanReturnNow(s: System, h: ShimId, j: nat, c: Command, call: Call, db: Store)
    requires Awaits(s, h, c, call) && Deliverable(s, h, j)
    requires s.servers[s.shims[h].server].sent[j] == Sent(c.clientId, Response(db, c))
    ensures CanReturn(s, KeyAt(s.shims[h], c.id))
  {
    Return(s, h, j, c.id, c.kvCmd, call, db, c);
    var end := Do(s, DeliverReply(h, j));
    StepThen(s, DeliverReply(h, j), [], end);
    assert Answered(end.history, KeyAt(s.shims[h], c.id));
  }

  /** An answer that has got out can be delivered. */
  lemma OutCompletes(s: System, h: ShimId, id: CommandId, j: nat)
    requires Reachable(s) && h in s.shims && Waits(s.shims[h].state, id) && AnswerAt(s, h, id, j)
    ensures CanReturn(s, KeyAt(s.shims[h], id))
  {
    ReachableInv(s);
    var n := s.shims[h].server;
    var i := AnswerOf(s, n, s.servers[n].sent[j]);
    ChosenHasPlace(s, i);
    var call := WaitsFor(s, h, s.log[i]);
    CanReturnNow(s, h, j, s.log[i], call, Replay(map[], s.log[..i]));
  }

  lemma ServedCompletes(s: System, h: ShimId, id: CommandId)
    requires Reachable(s) && h in s.shims && Waits(s.shims[h].state, id)
    requires Served(s, h) && !Gone(s, KeyAt(s.shims[h], id))
    ensures CanReturn(s, KeyAt(s.shims[h], id))
  {
    var k := KeyAt(s.shims[h], id);
    ParkedCallers(s, h);
    var c :| c in Places(s) && KeyOf(c) == k;
    var call := WaitsFor(s, h, c);
    var steps, end, at := ParkedCompletes(s, h, c, call);
    assert IsRun(s, steps, end) && Answered(end.history, k);
  }

  lemma OtherwiseNever(s: System, h: ShimId, id: CommandId, steps: seq<Step>, end: System)
    requires Reachable(s) && h in s.shims && Waits(s.shims[h].state, id) && IsRun(s, steps, end)
    requires !AnswerOut(s, h, id) && (!Served(s, h) || Gone(s, KeyAt(s.shims[h], id)))
    ensures !Answered(end.history, KeyAt(s.shims[h], id))
  {
    ParkedCallers(s, h);
    ReachableInv(s);
    if Gone(s, KeyAt(s.shims[h], id)) {
      LostNeverReturns(s, steps, end, KeyAt(s.shims[h], id));
    } else {
      SeveredNeverReturns(s, steps, end, h, id);
    }
  }

  /** Exactly these parked callers can still be answered: those whose answer has got out, and those whose request
      was not lost while the connection works and the server runs. */
  lemma ParkedCanReturn(s: System, h: ShimId, id: CommandId)
    requires Reachable(s) && h in s.shims && Waits(s.shims[h].state, id)
    ensures var k := KeyAt(s.shims[h], id);
            CanReturn(s, k) <==> AnswerOut(s, h, id) || (Served(s, h) && !Gone(s, k))
  {
    if AnswerOut(s, h, id) {
      var j: nat :| AnswerAt(s, h, id, j);
      OutCompletes(s, h, id, j);
    } else if Served(s, h) && !Gone(s, KeyAt(s.shims[h], id)) {
      ServedCompletes(s, h, id);
    } else {
      forall steps, end | IsRun(s, steps, end) ensures !Answered(end.history, KeyAt(s.shims[h], id)) {
        OtherwiseNever(s, h, id, steps, end);
      }
    }
  }

  lemma WaitsFor(s: System, h: ShimId, c: Command) returns (call: Call)
    requires Reachable(s) && h in s.shims && Waits(s.shims[h].state, c.id) && c in Places(s)
    requires c.coordinatorId == s.shims[h].server && c.clientId == s.shims[h].client
    ensures Awaits(s, h, c, call)
  {
    ParkedCallers(s, h);
    OnePlace(s, c, c);
    ReachableBooks(s);
    var state := s.shims[h].state;
    assert state.started;
    call := if c.id in state.pendingPut then state.pendingPut[c.id] else state.pendingGet[c.id];
  }

  // ---- Starting ----

  lemma SignalFor(n: nat, time: int, client: ClientId)
    requires 1 <= client <= n
    ensures Sent(client, StartSignal(time)) in StartSignals(n, time)
  {
    assert StartSignals(n, time)[client - 1] == Sent(client, StartSignal(time));
  }

  /** A shim that connects as one of the clients that its server is configured for can be started. */
  lemma ShimStarts(s: System, h: ShimId, n: NodeId, time: int) returns (steps: seq<Step>, end: System)
    requires h !in s.shims && h !in s.cut && Running(s, n) && s.servers[n].maxClientId < s.servers[n].numClients
    ensures IsRun(s, steps, end) && h in end.shims && end.shims[h].state.started && end.shims[h].server == n
    ensures Running(end, n) && h !in end.cut && end.mute == s.mute
  {
    var connected := Do(s, ConnectShim(h, n));
    var client := s.servers[n].maxClientId + 1;
    var signal := PeerMessage(n, LeaderStartSignal(time));
    var signalled := Do(connected, signal);
    SignalFor(s.servers[n].numClients, time, client);
    var sent := signalled.servers[n].sent;
    assert Sent(client, StartSignal(time)) in sent;
    var j :| 0 <= j < |sent| && sent[j] == Sent(client, StartSignal(time));
    var deliver := DeliverReply(h, j);
    end := Do(signalled, deliver);
    StepThen(signalled, deliver, [], end);
    StepThen(connected, signal, [deliver] + [], end);
    StepThen(s, ConnectShim(h, n), [signal] + ([deliver] + []), end);
    steps := [ConnectShim(h, n)] + ([signal] + ([deliver] + []));
  }

  /** So started shims are reachable, in every configuration with a server that has clients. */
  lemma StartedReachable(s: System, h: ShimId, n: NodeId) returns (end: System)
    requires Init(s) && n in s.servers && s.servers[n].numClients > 0
    ensures Reachable(end) && h in end.shims && end.shims[h].state.started
    ensures Running(end, end.shims[h].server) && h !in end.cut && h !in end.mute
  {
    var steps;
    steps, end := ShimStarts(s, h, n, 0);
  }

  // ---- New calls ----

  /** A call is a put or a get at a shim. */
  function CallStep(h: ShimId, op: KVCommand): Step
    requires !op.Delete?
  {
    match op
    case Put(k, v) => CallPut(h, k, v)
    case Get(k) => CallGet(h, k)
  }

  lemma Call(s: System, h: ShimId, op: KVCommand)
    requires h in s.shims && s.shims[h].state.started && Follows(s, s.shims[h].server, s.log) && !op.Delete?
    requires h !in s.mute
    ensures Enabled(s, CallStep(h, op))
    ensures
      var t := Do(s, CallStep(h, op));
      var node, id := s.shims[h], s.shims[h].state.nextRequestId;
      && h in t.shims && t.shims[h].server == node.server && t.shims[h].client == node.client
      && Follows(t, node.server, s.log) && t.log == s.log && t.cut == s.cut
      && t.toServer == s.toServer + [Envelope(node.server, node.client, Append(id, op))]
      && Parked(t.shims[h].state, id, op, |s.history|)
      && Events(t.history) == Events(s.history) + [L.Invoke(|s.history|, op)]
  {
    PeersStay(s, Do(s, CallStep(h, op)), s.shims[h].server);
  }

  lemma RepliesFromWhole(s: System, steps: seq<Step>, end: System, c: Command, call: Call)
    requires Returns(s, steps, end, c, call, |s.log|)
    ensures Events(end.history) == Events(s.history) + [L.Return(call, Reply(Replay(map[], s.log), c.kvCmd))]
  {
    assert end.log[..|s.log|] == s.log;
  }

  /** The new call returns what the map of the whole chosen log answers. */
  lemma CallCompletes(s: System, h: ShimId, op: KVCommand) returns (steps: seq<Step>, end: System)
    requires Reachable(s) && h in s.shims && s.shims[h].state.started && Served(s, h) && h !in s.mute
    requires !op.Delete?
    ensures IsRun(s, [CallStep(h, op)] + steps, end)
    ensures Events(end.history) == Events(s.history)
              + [L.Invoke(|s.history|, op), L.Return(|s.history|, Reply(Replay(map[], s.log), op))]
  {
    ReachableServer(s, s.shims[h].server);
    Call(s, h, op);
    var call := CallStep(h, op);
    var next := Do(s, call);
    var m := Append(s.shims[h].state.nextRequestId, op);
    steps, end := RequestCompletes(next, h, |s.toServer|, m, |s.history|);
    StepThen(s, call, steps, end);
    RepliesFromWhole(next, steps, end, Tag(s.shims[h].server, s.shims[h].client, m), |s.history|);
    assert Events(s.history) + [L.Invoke(|s.history|, op)] + [L.Return(|s.history|, Reply(Replay(map[], s.log), op))]
        == Events(s.history) + [L.Invoke(|s.history|, op), L.Return(|s.history|, Reply(Replay(map[], s.log), op))];
  }

  lemma {:induction false} RunOn(s0: System, steps: seq<Step>, s: System, step: Step)
    requires IsRun(s0, steps, s) && Enabled(s, step)
    ensures IsRun(s0, steps + [step], Do(s, step))
    decreases |steps|
  {
    if steps == [] {
      assert [] + [step] == [step] && [step][1..] == [];
    } else {
      RunOn(Do(s0, steps[0]), steps[1..], s, step);
      assert (steps + [step])[0] == steps[0] && (steps + [step])[1..] == steps[1..] + [step];
    }
  }

  lemma StepReachable(s: System, step: Step)
    requires Reachable(s) && Enabled(s, step)
    ensures Reachable(Do(s, step))
  {
    var s0, steps :| Init(s0) && IsRun(s0, steps, s);
    RunOn(s0, steps, s, step);
  }

  /** What a call that was just taken up is like: it waits, nothing answers it, and it is lost exactly if the shim's
      side of the connection has failed. */
  lemma NewCall(s: System, h: ShimId, op: KVCommand)
    requires Reachable(s) && h in s.shims && s.shims[h].state.started && !op.Delete?
    ensures Enabled(s, CallStep(h, op))
    ensures
      var t := Do(s, CallStep(h, op));
      var id := s.shims[h].state.nextRequestId;
      && h in t.shims && KeyAt(t.shims[h], id) == KeyAt(s.shims[h], id) && Waits(t.shims[h].state, id)
      && !AnswerOut(t, h, id) && (Served(t, h) <==> Served(s, h))
      && (Gone(t, KeyAt(s.shims[h], id)) <==> h in s.mute)
  {
    var id := s.shims[h].state.nextRequestId;
    var t := Do(s, CallStep(h, op));
    CallFrame(s, h, op);
    forall j: nat ensures !AnswerAt(t, h, id, j) {
      if AnswerAt(t, h, id, j) {
        assert Deliverable(s, h, j);
        RepliesFit(s, h, j);
      }
    }
    assert HasPeer(t, s.shims[h].server) <==> HasPeer(s, s.shims[h].server);
    ReachableInv(s);
    CallPlaces(s, h, op);
  }

  lemma CallFrame(s: System, h: ShimId, op: KVCommand)
    requires h in s.shims && s.shims[h].state.started && !op.Delete?
    ensures
      var t := Do(s, CallStep(h, op));
      var id := s.shims[h].state.nextRequestId;
      && t.servers == s.servers && t.halted == s.halted && t.cut == s.cut && h in t.shims
      && t.shims[h].server == s.shims[h].server && t.shims[h].client == s.shims[h].client
      && Waits(t.shims[h].state, id) && KeyAt(s.shims[h], id) in t.requests
  {
  }

  lemma CallPlaces(s: System, h: ShimId, op: KVCommand)
    requires Inv(s) && h in s.shims && s.shims[h].state.started && !op.Delete?
    ensures var k := KeyAt(s.shims[h], s.shims[h].state.nextRequestId);
            Gone(Do(s, CallStep(h, op)), k) <==> h in s.mute
  {
    var node := s.shims[h];
    var k := KeyAt(node, node.state.nextRequestId);
    var e := Envelope(node.server, node.client, Append(node.state.nextRequestId, op));
    var c := Tag(e.server, e.client, e.msg);
    var t := Do(s, CallStep(h, op));
    CallFrame(s, h, op);
    NumberIsNew(s, h);
    SentOrLost(s, h, op, e);
    if h in s.mute {
      assert Places(t) == Places(s);
    } else {
      InvokePlaces(s, t, e);
      assert c in Places(t) && KeyOf(c) == k;
    }
  }

  lemma SentOrLost(s: System, h: ShimId, op: KVCommand, e: Envelope)
    requires h in s.shims && s.shims[h].state.started && !op.Delete?
    requires e == Envelope(s.shims[h].server, s.shims[h].client, Append(s.shims[h].state.nextRequestId, op))
    ensures var t := Do(s, CallStep(h, op));
            t.pool == s.pool && t.log == s.log && t.toServer == if h in s.mute then s.toServer else s.toServer + [e]
  {
    assert (s.toServer + [e])[..|s.toServer|] + (s.toServer + [e])[|s.toServer| + 1..] == s.toServer;
  }

  /** Exactly when a call that a started shim takes up now can return: both directions of the connection work and
      the server runs and has a peer. */
  lemma NewCallCanReturn(s: System, h: ShimId, op: KVCommand)
    requires Reachable(s) && h in s.shims && s.shims[h].state.started && !op.Delete?
    ensures Enabled(s, CallStep(h, op))
    ensures CanReturn(Do(s, CallStep(h, op)), KeyAt(s.shims[h], s.shims[h].state.nextRequestId))
       <==> Served(s, h) && h !in s.mute
  {
    NewCall(s, h, op);
    StepReachable(s, CallStep(h, op));
    ParkedCanReturn(Do(s, CallStep(h, op)), h, s.shims[h].state.nextRequestId);
  }
}
