/** What holds of every run of the system, whatever is lost, delayed, repeated or halted. */
module Safety {
  import opened Wrappers
  import opened Kv
  import opened Server
  import opened Shim
  import opened Cluster
  import L = Linearizability

  lemma ShimStepInv(s: System, step: Step)
    requires Inv(s) && Enabled(s, step) && AtShim(step)
    ensures Inv(Do(s, step))
  {
    match step
    case ConnectShim(h, n) => ConnectInv(s, h, n);
    case CallPut(h, key, value) => PutInv(s, h, key, value);
    case CallGet(h, key) => GetInv(s, h, key);
    case DeliverReply(h, j) => DeliverInv(s, h, s.servers[s.shims[h].server].sent[j].msg);
  }

  lemma OtherStepInv(s: System, step: Step)
    requires Inv(s) && Enabled(s, step) && !AtShim(step)
    ensures Inv(Do(s, step))
  {
    match step
    case LoseRequest(i) => LoseInv(s, i);
    case TakeRequest(i) => ReceiveInv(s, i);
    case Decide(c) => ChooseInv(s, c);
    case PeerMessage(n, m) => FromPeerInv(s, n, m);
    case Fail(f) => FailedInv(s, f);
  }

  lemma StepInv(s: System, step: Step)
    requires Inv(s) && Enabled(s, step)
    ensures Inv(Do(s, step))
  {
    if AtShim(step) {
      ShimStepInv(s, step);
    } else {
      OtherStepInv(s, step);
    }
  }

  lemma FirstStep(s: System, steps: seq<Step>, end: System)
    requires IsRun(s, steps, end) && steps != []
    ensures Enabled(s, steps[0]) && IsRun(Do(s, steps[0]), steps[1..], end)
  {
  }

  lemma FirstStepInv(s: System, steps: seq<Step>, end: System) returns (next: System)
    requires Inv(s) && IsRun(s, steps, end) && steps != []
    ensures Inv(next) && IsRun(next, steps[1..], end)
  {
    FirstStep(s, steps, end);
    StepInv(s, steps[0]);
    next := Do(s, steps[0]);
  }

  lemma {:induction false} RunInv(s: System, steps: seq<Step>, end: System)
    requires Inv(s) && IsRun(s, steps, end)
    ensures Inv(end)
    decreases |steps|
  {
    if steps != [] {
      var next := FirstStepInv(s, steps, end);
      RunInv(next, steps[1..], end);
    }
  }

  lemma ReachableInv(s: System)
    requires Reachable(s)
    ensures Inv(s)
  {
    var s0, steps :| Init(s0) && IsRun(s0, steps, s);
    InitInv(s0);
    RunInv(s0, steps, s);
  }

  // ---- Linearizability ----

  /** The chosen log read as a sequential execution: at each place the call that put it there, and
      what the map answers at that point. */
  ghost function Witness(s: System): (w: seq<L.Entry>)
    requires LogOk(s.requests, s.log, s.history)
    ensures |w| == |s.log|
    ensures forall i :: 0 <= i < |w| ==> w[i] == L.Entry(s.requests[KeyOf(s.log[i])].invokedAt, s.log[i].kvCmd,
                                                         Reply(Replay(map[], s.log[..i]), s.log[i].kvCmd))
  {
    seq(|s.log|, i requires 0 <= i < |s.log| =>
      L.Entry(s.requests[KeyOf(s.log[i])].invokedAt, s.log[i].kvCmd, Reply(Replay(map[], s.log[..i]), s.log[i].kvCmd)))
  }

  lemma SameWrites(w: seq<L.Entry>, log: seq<Command>, i: nat, k: string, j: int)
    requires |w| == |log| && (forall m :: 0 <= m < |w| ==> w[m].op == log[m].kvCmd) && i <= |log|
    requires LastWrite(log[..i], k, j)
    ensures L.LastWriteBefore(w, i, k, j)
  {
    forall m | j < m < i ensures !L.WritesTo(w[m].op, k) {
      assert log[..i][m] == log[m];
    }
  }

  lemma ReplyLegal(w: seq<L.Entry>, log: seq<Command>, i: nat)
    requires |w| == |log| && (forall m :: 0 <= m < |w| ==> w[m].op == log[m].kvCmd) && i < |log|
    requires w[i].reply == Reply(Replay(map[], log[..i]), log[i].kvCmd)
    ensures L.LegalAt(w, i)
  {
    if log[i].kvCmd.Get? {
      var j := ReadsLastPlace(log[..i], log[i].kvCmd.key);
      SameWrites(w, log, i, log[i].kvCmd.key, j);
    }
  }

  /** What the databases answer is what the last write in the log put. */
  lemma WitnessLegal(s: System, i: nat)
    requires LogOk(s.requests, s.log, s.history) && i < |s.log|
    ensures L.LegalAt(Witness(s), i)
  {
    ReplyLegal(Witness(s), s.log, i);
  }

  lemma CallsDiffer(s: System, i: nat, j: nat)
    requires Inv(s) && i < |s.log| && j < |s.log|
    requires s.requests[KeyOf(s.log[i])].invokedAt == s.requests[KeyOf(s.log[j])].invokedAt
    ensures i == j
  {
    assert KeyOf(s.log[i]) == KeyOf(s.log[j]);
    FindUnique(s, i);
    FindUnique(s, j);
  }

  /** A return at time `t` is of the call at its place in the log, which was long enough by then. */
  lemma ReturnPlace(s: System, t: nat) returns (i: nat)
    requires Inv(s) && t < |s.history| && s.history[t].event.Return?
    ensures i < |s.log| && i < s.history[t].logLen
    ensures Witness(s)[i].call == s.history[t].event.call && Witness(s)[i].reply == s.history[t].event.reply
  {
    assert StampOk(s.requests, s.log, s.history[t], t);
    i := s.history[t].pos;
  }

  /** Real time: what returned before another call began is before it in the log. */
  lemma InOrder(s: System, t: nat, u: nat, i: nat, j: nat)
    requires Inv(s) && t < u < |s.history| && s.history[t].event.Return? && s.history[u].event.Invoke?
    requires i < |s.log| && s.requests[KeyOf(s.log[i])].invokedAt == s.history[t].event.call
    requires j < |s.log| && s.requests[KeyOf(s.log[j])].invokedAt == s.history[u].event.call
    ensures i < j
  {
    var p := ReturnPlace(s, t);
    CallsDiffer(s, i, p);
    assert StampOk(s.requests, s.log, s.history[u], u);
  }

  lemma HistoryWellFormed(s: System)
    requires Inv(s)
    ensures L.WellFormed(Events(s.history))
  {
    var h := Events(s.history);
    forall t | 0 <= t < |h| && h[t].Return? ensures exists u :: 0 <= u < t && h[u].Invoke? && h[u].call == h[t].call {
      assert StampOk(s.requests, s.log, s.history[t], t);
      assert h[h[t].call].Invoke?;
    }
    forall t, u | 0 <= t < u < |h| && h[t].Invoke? && h[u].Invoke? ensures h[t].call != h[u].call {
      assert StampOk(s.requests, s.log, s.history[t], t) && StampOk(s.requests, s.log, s.history[u], u);
    }
    forall t, u | 0 <= t < u < |h| && h[t].Return? && h[u].Return? ensures h[t].call != h[u].call {
      assert StampOk(s.requests, s.log, s.history[t], t) && StampOk(s.requests, s.log, s.history[u], u);
    }
  }

  lemma WitnessCalls(s: System)
    requires Inv(s)
    ensures forall i, j :: 0 <= i < j < |Witness(s)| ==> Witness(s)[i].call != Witness(s)[j].call
    ensures forall i :: 0 <= i < |Witness(s)| ==> L.Invoke(Witness(s)[i].call, Witness(s)[i].op) in Events(s.history)
  {
    var h, w := Events(s.history), Witness(s);
    forall i, j | 0 <= i < j < |w| ensures w[i].call != w[j].call {
      if w[i].call == w[j].call {
        CallsDiffer(s, i, j);
      }
    }
    forall i | 0 <= i < |w| ensures L.Invoke(w[i].call, w[i].op) in h {
      FindUnique(s, i);
      assert h[w[i].call] == L.Invoke(w[i].call, w[i].op);
    }
  }

  lemma WitnessOrder(s: System, w: seq<L.Entry>, h: seq<L.Event>, t: nat, u: nat, i: nat, j: nat)
    requires Inv(s) && w == Witness(s) && h == Events(s.history)
    requires t < u < |h| && h[t].Return? && h[u].Invoke? && i < |w| && j < |w|
    requires w[i].call == h[t].call && w[j].call == h[u].call
    ensures i < j
  {
    InOrder(s, t, u, i, j);
  }

  lemma WitnessReturns(s: System, t: nat)
    requires Inv(s) && t < |s.history| && s.history[t].event.Return?
    ensures exists i ::
              && 0 <= i < |Witness(s)|
              && Witness(s)[i].call == s.history[t].event.call && Witness(s)[i].reply == s.history[t].event.reply
  {
    var i := ReturnPlace(s, t);
  }

  lemma WitnessLinearizes(s: System, w: seq<L.Entry>, h: seq<L.Event>)
    requires Inv(s) && w == Witness(s) && h == Events(s.history)
    ensures L.IsLinearization(h, w)
  {
    forall i: nat | i < |w| ensures L.LegalAt(w, i) {
      WitnessLegal(s, i);
    }
    WitnessCalls(s);
    forall t | 0 <= t < |h| && h[t].Return?
      ensures exists i :: 0 <= i < |w| && w[i].call == h[t].call && w[i].reply == h[t].reply
    {
      WitnessReturns(s, t);
    }
    forall t, u, i, j | (0 <= t < u < |h| && h[t].Return? && h[u].Invoke? && 0 <= i < |w| && 0 <= j < |w| &&
                         w[i].call == h[t].call && w[j].call == h[u].call)
      ensures i < j
    {
      WitnessOrder(s, w, h, t, u, i, j);
    }
  }

  /** The store is linearizable, in every state of every run. */
  lemma EveryRunLinearizable(s: System)
    requires Reachable(s)
    ensures L.Linearizable(Events(s.history))
  {
    ReachableInv(s);
    HistoryWellFormed(s);
    WitnessLinearizes(s, Witness(s), Events(s.history));
  }

  // ---- Replicas ----

  lemma ReachableServer(s: System, n: NodeId)
    requires Reachable(s) && n in s.servers
    ensures s.servers[n].id == n && s.servers[n].Valid() && s.servers[n].decided <= s.log
  {
    ReachableInv(s);
  }

  lemma OneLog(r: Replica, r': Replica, log: seq<Command>)
    requires r.Valid() && r'.Valid() && r.decided <= log && r'.decided <= log && r.idx <= r'.idx
    ensures r'.idx <= |log|
    ensures r.db == Replay(map[], log[..r.idx]) && r'.db == Replay(r.db, log[r.idx..r'.idx])
  {
    assert r.decided[..r.idx] == log[..r.idx];
    assert r'.decided[..r'.idx] == log[..r'.idx] == log[..r.idx] + log[r.idx..r'.idx];
    ReplayBatches(map[], log[..r.idx], log[r.idx..r'.idx]);
  }

  /** A server's map is the log applied up to its index, however the log reached it; the map of a
      server that is behind is an earlier state of one that is ahead. */
  lemma ReplicasAgree(s: System, m: NodeId, n: NodeId)
    requires Reachable(s) && m in s.servers && n in s.servers && s.servers[m].idx <= s.servers[n].idx
    ensures s.servers[n].idx <= |s.log|
    ensures s.servers[m].db == Replay(map[], s.log[..s.servers[m].idx])
    ensures s.servers[n].db == Replay(s.servers[m].db, s.log[s.servers[m].idx..s.servers[n].idx])
  {
    ReachableServer(s, m);
    ReachableServer(s, n);
    OneLog(s.servers[m], s.servers[n], s.log);
  }

  /** How many of these commands server `n` coordinates. */
  function Coordinated(n: NodeId, log: seq<Command>): nat {
    if log == [] then 0
    else Coordinated(n, log[..|log| - 1]) + if log[|log| - 1].coordinatorId == n then 1 else 0
  }

  lemma {:induction false} ResponsesCount(n: NodeId, db: Store, log: seq<Command>)
    ensures |Responses(n, db, log)| == Coordinated(n, log)
    decreases |log|
  {
    if log != [] {
      ResponsesCount(n, db, log[..|log| - 1]);
    }
  }

  lemma {:induction false} ResponseAt(n: NodeId, db: Store, log: seq<Command>, i: nat)
    requires i < |log| && log[i].coordinatorId == n
    ensures Coordinated(n, log[..i]) < |Responses(n, db, log)|
    ensures Responses(n, db, log)[Coordinated(n, log[..i])]
         == Sent(log[i].clientId, Response(Replay(db, log[..i]), log[i]))
    decreases |log|
  {
    var front := log[..|log| - 1];
    ResponsesCount(n, db, front);
    if i < |log| - 1 {
      ResponseAt(n, db, front, i);
      assert front[..i] == log[..i];
    }
  }

  /** Each command that a server has applied and coordinated is answered by it once, in log order,
      from the map just before it; it answers nothing else. */
  lemma ExactlyOneAnswer(s: System, n: NodeId)
    requires Reachable(s) && n in s.servers
    ensures
      var r := s.servers[n];
      && r.idx <= |s.log|
      && |Replies(r.sent)| == Coordinated(n, s.log[..r.idx])
      && forall i :: 0 <= i < r.idx && s.log[i].coordinatorId == n ==>
           var at := Coordinated(n, s.log[..i]);
           at < |Replies(r.sent)|
           && Replies(r.sent)[at] == Sent(s.log[i].clientId, Response(Replay(map[], s.log[..i]), s.log[i]))
  {
    ReachableServer(s, n);
    var r := s.servers[n];
    var done := s.log[..r.idx];
    assert r.decided[..r.idx] == done;
    ResponsesCount(n, map[], done);
    forall i | 0 <= i < r.idx && s.log[i].coordinatorId == n
      ensures Coordinated(n, s.log[..i]) < |Replies(r.sent)|
      ensures Replies(r.sent)[Coordinated(n, s.log[..i])]
           == Sent(s.log[i].clientId, Response(Replay(map[], s.log[..i]), s.log[i]))
    {
      ResponseAt(n, map[], done, i);
      assert done[..i] == s.log[..i];
    }
  }

  /** Server, client and number identify a request among all ever chosen, and the chosen command is
      the one its caller asked for. */
  lemma ChosenOnce(s: System, i: nat)
    requires Reachable(s) && i < |s.log|
    ensures forall j :: 0 <= j < |s.log| && j != i ==> KeyOf(s.log[j]) != KeyOf(s.log[i])
    ensures KeyOf(s.log[i]) in s.requests && s.requests[KeyOf(s.log[i])].op == s.log[i].kvCmd
  {
    ReachableInv(s);
    FindUnique(s, i);
    forall j | 0 <= j < |s.log| && KeyOf(s.log[j]) == KeyOf(s.log[i]) ensures j == i {
      FindUnique(s, j);
    }
  }

  /** Every caller that a shim has parked waits for the answer to its own request of that kind and has had
      no answer yet; numbers wait once, for one kind, and are below the next one. */
  lemma ParkedCallers(s: System, h: ShimId)
    requires Reachable(s) && h in s.shims
    ensures s.shims[h].state.Valid() && ParkedOk(s.shims[h], s.requests, s.history)
  {
    ReachableInv(s);
  }

  /** An answer fits a shim: it answers a request that the shim made and is of that request's kind, and nobody
      waits under its number for another kind. */
  predicate Fits(node: ShimNode, requests: map<Key, Request>, m: ServerMessage) {
    && !m.StartSignal?
    && var k := Key(node.server, node.client, m.id);
       && m.id < node.state.nextRequestId && k in requests
       && (m.Write? <==> requests[k].op.Put?) && (m.Read? <==> requests[k].op.Get?)
       && (m.id in node.state.pendingPut ==> m.Write?) && (m.id in node.state.pendingGet ==> m.Read?)
  }

  lemma AnswerFits(s: System, h: ShimId, x: Sent)
    requires ServersOk(s.servers, s.log) && ShimsOk(s.servers, s.shims) && IssuedOk(s.shims, s.requests)
    requires PendingOk(s.shims, s.requests, s.history) && PlacesOk(Places(s), s.requests)
    requires RequestsOk(s.requests, s.history)
    requires h in s.shims && x in s.servers[s.shims[h].server].sent && x.to == s.shims[h].client
    requires !x.msg.StartSignal?
    ensures Fits(s.shims[h], s.requests, x.msg)
  {
    var node := s.shims[h];
    var i := AnswerPlace(s, node.server, x);
    ChosenRequest(s, i);
    assert ParkedOk(node, s.requests, s.history);
    assert s.requests[KeyOf(s.log[i])].shim == h;
  }

  lemma ChosenRequest(s: System, i: nat)
    requires PlacesOk(Places(s), s.requests) && i < |s.log|
    ensures KeyOf(s.log[i]) in s.requests && s.requests[KeyOf(s.log[i])].op == s.log[i].kvCmd
  {
    assert s.log[i] in multiset(s.log);
    assert s.log[i] in Places(s);
  }

  /** What a shim can be sent, start signals aside, fits it; so a caller still parked under its number is woken. */
  lemma RepliesFit(s: System, h: ShimId, j: nat)
    requires Reachable(s) && Deliverable(s, h, j)
    requires !s.servers[s.shims[h].server].sent[j].msg.StartSignal?
    ensures Fits(s.shims[h], s.requests, s.servers[s.shims[h].server].sent[j].msg)
  {
    ReachableInv(s);
    AnswerFits(s, h, s.servers[s.shims[h].server].sent[j]);
  }
}
