/** Answers that cannot get out any more: the connection has failed, the server has halted, or it never hears from a
    peer. A caller whose answer had not got out by then is never answered. */
module Connections {
  import opened Wrappers
  import opened Kv
  import opened Server
  import opened Shim
  import opened Cluster
  import opened Requests
  import opened Safety

  function KeyAt(node: ShimNode, id: CommandId): Key {
    Key(node.server, node.client, id)
  }

  // ---- Failures ----

  predicate InEffect(s: System, f: Failure) {
    match f
    case Halt(n) => n in s.halted
    case CutRequests(h) => h in s.mute
    case CutReplies(h, kept) => h in s.cut && s.cut[h] == kept
  }

  lemma StepKeepsFailure(s: System, step: Step, f: Failure)
    requires Enabled(s, step) && InEffect(s, f)
    ensures InEffect(Do(s, step), f)
  {
  }

  lemma {:induction false} RunKeepsFailure(s: System, steps: seq<Step>, end: System, f: Failure)
    requires IsRun(s, steps, end) && InEffect(s, f)
    ensures InEffect(end, f)
    decreases |steps|
  {
    if steps != [] {
      StepKeepsFailure(s, steps[0], f);
      RunKeepsFailure(Do(s, steps[0]), steps[1..], end, f);
    }
  }

  /** A failure is for good, from the step at which it happens, and from then on its server takes no step, what its
      shim sends is lost, or no later message of its server reaches its shim. */
  lemma FailureLasts(s: System, f: Failure, steps: seq<Step>, end: System)
    requires Enabled(s, Fail(f)) && IsRun(s, [Fail(f)] + steps, end)
    ensures
      match f
      case Halt(n) =>
        && (forall m :: !Enabled(end, PeerMessage(n, m)))
        && (forall i: nat :: i < |end.toServer| && end.toServer[i].server == n ==> !Enabled(end, TakeRequest(i)))
      case CutRequests(h) =>
        forall key, value :: Enabled(end, CallPut(h, key, value)) ==>
          Do(end, CallPut(h, key, value)).toServer == end.toServer && Do(end, CallGet(h, key)).toServer == end.toServer
      case CutReplies(h, kept) => forall j: nat :: j >= kept ==> !Enabled(end, DeliverReply(h, j))
  {
    assert ([Fail(f)] + steps)[1..] == steps;
    RunKeepsFailure(Do(s, Fail(f)), steps, end, f);
    if f.CutRequests? {
      forall key, value | Enabled(end, CallPut(f.shim, key, value))
        ensures Do(end, CallPut(f.shim, key, value)).toServer == end.toServer
        ensures Do(end, CallGet(f.shim, key)).toServer == end.toServer
      {
        MutedIsLost(end, f.shim, key, value);
      }
    }
  }

  lemma MutedIsLost(s: System, h: ShimId, key: string, value: string)
    requires h in s.shims && h in s.mute
    ensures OnWire(Cluster.Put(s, h, key, value), h).toServer == s.toServer
    ensures OnWire(Cluster.Get(s, h, key), h).toServer == s.toServer
  {
    var e := Cluster.Put(s, h, key, value).toServer;
    var g := Cluster.Get(s, h, key).toServer;
    assert e[..|s.toServer|] + e[|s.toServer| + 1..] == s.toServer;
    assert g[..|s.toServer|] + g[|s.toServer| + 1..] == s.toServer;
  }

  /** This message is an answer to request `id` of the shim, and can get out to it. */
  predicate AnswerAt(s: System, h: ShimId, id: CommandId, j: nat) {
    Deliverable(s, h, j) && var m := s.servers[s.shims[h].server].sent[j].msg; !m.StartSignal? && m.id == id
  }

  ghost predicate AnswerOut(s: System, h: ShimId, id: CommandId) {
    exists j: nat :: AnswerAt(s, h, id, j)
  }

  /** Nothing that the server of the shim answers from now on gets out to it. */
  predicate Severed(s: System, h: ShimId)
    requires h in s.shims
  {
    h in s.cut || s.shims[h].server in s.halted || !HasPeer(s, s.shims[h].server)
  }

  ghost predicate Dead(s: System, h: ShimId, id: CommandId) {
    && h in s.shims && s.shims[h].server in s.servers && Severed(s, h)
    && (h in s.cut ==> s.cut[h] <= |s.servers[s.shims[h].server].sent|)
    && !AnswerOut(s, h, id) && !Answered(s.history, KeyAt(s.shims[h], id))
  }

  /** The shim is connected as it was, and its server has sent nothing new. */
  predicate SameConnection(s: System, t: System, h: ShimId) {
    && h in s.shims && h in t.shims
    && t.shims[h].server == s.shims[h].server && t.shims[h].client == s.shims[h].client
    && s.shims[h].server in s.servers && t.servers.Keys == s.servers.Keys
    && t.servers[s.shims[h].server].sent == s.servers[s.shims[h].server].sent
    && s.halted <= t.halted
    && (h in s.cut ==> h in t.cut && t.cut[h] == s.cut[h])
    && (h in t.cut ==> t.cut[h] <= |s.servers[s.shims[h].server].sent|)
  }

  lemma DeadStays(s: System, t: System, h: ShimId, id: CommandId)
    requires Dead(s, h, id) && SameConnection(s, t, h) && !Answered(t.history, KeyAt(s.shims[h], id))
    ensures Dead(t, h, id)
  {
    forall j: nat ensures !AnswerAt(t, h, id, j) {
      assert !AnswerAt(s, h, id, j);
    }
    assert HasPeer(t, s.shims[h].server) ==> HasPeer(s, s.shims[h].server);
  }

  // ---- Steps of this and other shims ----

  lemma InvokedUnanswered(history: seq<Stamped>, e: Stamped, k: Key)
    requires !Answered(history, k) && (e.event.Return? ==> e.key != k)
    ensures !Answered(history + [e], k)
  {
  }

  lemma InvokedDead(s: System, g: ShimId, op: KVCommand, state: ShimState, m: ClientMessage, h: ShimId, id: CommandId)
    requires Dead(s, h, id) && g in s.shims
    ensures Dead(Invoked(s, g, op, state, m), h, id)
  {
    var t := Invoked(s, g, op, state, m);
    InvokedUnanswered(s.history, t.history[|s.history|], KeyAt(s.shims[h], id));
    DeadStays(s, t, h, id);
  }

  lemma OnWireDead(s: System, g: ShimId, h: ShimId, id: CommandId)
    requires Dead(s, h, id) && s.toServer != []
    ensures Dead(OnWire(s, g), h, id)
  {
    DeadStays(s, OnWire(s, g), h, id);
  }

  lemma PutDead(s: System, g: ShimId, key: string, value: string, h: ShimId, id: CommandId)
    requires Dead(s, h, id) && g in s.shims
    ensures Dead(OnWire(Cluster.Put(s, g, key, value), g), h, id)
  {
    var (state, m) := SubmitPut(s.shims[g].state, key, value, |s.history|);
    InvokedDead(s, g, KVCommand.Put(key, value), state, m, h, id);
    OnWireDead(Cluster.Put(s, g, key, value), g, h, id);
  }

  lemma GetDead(s: System, g: ShimId, key: string, h: ShimId, id: CommandId)
    requires Dead(s, h, id) && g in s.shims
    ensures Dead(OnWire(Cluster.Get(s, g, key), g), h, id)
  {
    var (state, m) := SubmitGet(s.shims[g].state, key, |s.history|);
    InvokedDead(s, g, KVCommand.Get(key), state, m, h, id);
    OnWireDead(Cluster.Get(s, g, key), g, h, id);
  }

  lemma ConnectDead(s: System, g: ShimId, n: NodeId, h: ShimId, id: CommandId)
    requires Dead(s, h, id) && g !in s.shims && n in s.servers
    ensures Dead(Connect(s, g, n), h, id)
  {
    DeadStays(s, Connect(s, g, n), h, id);
  }

  /** A return that delivering a message causes is of the request that the message answers. */
  lemma DeliverHistory(s: System, g: ShimId, m: ServerMessage)
    requires g in s.shims && s.shims[g].state.Valid()
    ensures var t := Deliver(s, g, m);
            || t.history == s.history
            || (!m.StartSignal? && |t.history| == |s.history| + 1 && t.history[..|s.history|] == s.history
                && t.history[|s.history|].key == KeyAt(s.shims[g], m.id))
  {
  }

  lemma DeliverDead(s: System, g: ShimId, j: nat, h: ShimId, id: CommandId)
    requires Inv(s) && Dead(s, h, id) && Deliverable(s, g, j)
    ensures Dead(Deliver(s, g, s.servers[s.shims[g].server].sent[j].msg), h, id)
  {
    var m := s.servers[s.shims[g].server].sent[j].msg;
    var t := Deliver(s, g, m);
    DeliverFrame(s, g, m);
    DeliverHistory(s, g, m);
    assert !AnswerAt(s, h, id, j);
    if t.history != s.history {
      assert g == h ==> m.id != id;
      assert g != h ==> KeyAt(s.shims[g], m.id) != KeyAt(s.shims[h], id);
      assert t.history == s.history + [t.history[|s.history|]];
      InvokedUnanswered(s.history, t.history[|s.history|], KeyAt(s.shims[h], id));
    }
    DeadStays(s, t, h, id);
  }

  // ---- Steps of servers ----

  /** What a severed server still sends is no answer, or does not get out. */
  lemma FromPeerDead(s: System, n: NodeId, m: ClusterMessage, h: ShimId, id: CommandId)
    requires Dead(s, h, id) && Running(s, n) && (m.OmniPaxosMessage? ==> HasPeer(s, n))
    ensures Dead(FromPeer(s, n, m), h, id)
  {
    var t := FromPeer(s, n, m);
    SentGrows(s.servers[n], m);
    if n != s.shims[h].server {
      DeadStays(s, t, h, id);
    } else {
      forall j: nat ensures !AnswerAt(t, h, id, j) {
        assert !AnswerAt(s, h, id, j);
      }
      assert HasPeer(t, n) ==> HasPeer(s, n);
    }
  }

  lemma ReceiveDead(s: System, i: nat, h: ShimId, id: CommandId)
    requires Dead(s, h, id) && i < |s.toServer| && s.toServer[i].server in s.servers
    ensures Dead(ReceiveRequest(s, i), h, id)
  {
    DeadStays(s, ReceiveRequest(s, i), h, id);
  }

  lemma FailedDead(s: System, f: Failure, h: ShimId, id: CommandId)
    requires Dead(s, h, id) && CanFail(s, f)
    ensures Dead(Failed(s, f), h, id)
  {
    var t := Failed(s, f);
    forall j: nat ensures !AnswerAt(t, h, id, j) {
      assert !AnswerAt(s, h, id, j);
    }
    assert HasPeer(t, s.shims[h].server) ==> HasPeer(s, s.shims[h].server);
  }

  // ---- Runs ----

  lemma ShimStepDead(s: System, step: Step, h: ShimId, id: CommandId)
    requires Inv(s) && Enabled(s, step) && AtShim(step) && Dead(s, h, id)
    ensures Dead(Do(s, step), h, id)
  {
    match step
    case ConnectShim(g, n) => ConnectDead(s, g, n, h, id);
    case CallPut(g, key, value) => PutDead(s, g, key, value, h, id);
    case CallGet(g, key) => GetDead(s, g, key, h, id);
    case DeliverReply(g, j) => DeliverDead(s, g, j, h, id);
  }

  lemma OtherStepDead(s: System, step: Step, h: ShimId, id: CommandId)
    requires Enabled(s, step) && !AtShim(step) && Dead(s, h, id)
    ensures Dead(Do(s, step), h, id)
  {
    match step
    case LoseRequest(i) => DeadStays(s, Lose(s, i), h, id);
    case TakeRequest(i) => ReceiveDead(s, i, h, id);
    case Decide(c) => DeadStays(s, Choose(s, c), h, id);
    case PeerMessage(n, m) => FromPeerDead(s, n, m, h, id);
    case Fail(f) => FailedDead(s, f, h, id);
  }

  lemma {:induction false} RunDead(s: System, steps: seq<Step>, end: System, h: ShimId, id: CommandId)
    requires Inv(s) && IsRun(s, steps, end) && Dead(s, h, id)
    ensures Dead(end, h, id)
    decreases |steps|
  {
    if steps != [] {
      StepInv(s, steps[0]);
      if AtShim(steps[0]) {
        ShimStepDead(s, steps[0], h, id);
      } else {
        OtherStepDead(s, steps[0], h, id);
      }
      RunDead(Do(s, steps[0]), steps[1..], end, h, id);
    }
  }

  /** A caller whose answer had not got out when its shim was severed from the server is never answered, however the
      run goes on, also when its request was chosen and applied. */
  lemma SeveredNeverReturns(s: System, steps: seq<Step>, end: System, h: ShimId, id: CommandId)
    requires Reachable(s) && IsRun(s, steps, end) && h in s.shims && Severed(s, h)
    requires !AnswerOut(s, h, id) && !Answered(s.history, KeyAt(s.shims[h], id))
    ensures !Answered(end.history, KeyAt(s.shims[h], id))
  {
    ReachableInv(s);
    ReachableBooks(s);
    SameKey(s, steps, end, h);
    RunDead(s, steps, end, h, id);
  }

  lemma StepKey(s: System, step: Step, h: ShimId)
    requires Enabled(s, step) && h in s.shims
    ensures h in Do(s, step).shims && forall id :: KeyAt(Do(s, step).shims[h], id) == KeyAt(s.shims[h], id)
  {
  }

  /** A shim keeps its connection's name. */
  lemma {:induction false} SameKey(s: System, steps: seq<Step>, end: System, h: ShimId)
    requires IsRun(s, steps, end) && h in s.shims
    ensures h in end.shims && forall id :: KeyAt(end.shims[h], id) == KeyAt(s.shims[h], id)
    decreases |steps|
  {
    if steps != [] {
      StepKey(s, steps[0], h);
      SameKey(Do(s, steps[0]), steps[1..], end, h);
    }
  }
}
