/** One OmniPaxos server: it tags client requests and proposes them, applies the decided log to its
    database, and answers the commands it coordinated. `Replica` is the value of a server and the
    functions on it say what each handler does; `OmniPaxosServer` is the object that does it. */
module Server {
  import opened Wrappers
  import opened Kv

  datatype ServerMessage = Write(id: CommandId) | Read(id: CommandId, value: Option<string>) | StartSignal(time: int)

  datatype ClientMessage = Append(id: CommandId, kvCmd: KVCommand)

  /** What arrives from a peer. The consensus library handles an `OmniPaxosMessage`; all that the
      server sees of it is the (possibly empty) extension of its decided log. */
  datatype ClusterMessage = OmniPaxosMessage(decides: seq<Command>) | LeaderStartSignal(time: int)

  datatype Sent = Sent(to: ClientId, msg: ServerMessage)

  datatype Replica = Replica(
    id: NodeId,
    numClients: nat,
    maxClientId: ClientId,
    db: Store,
    decided: seq<Command>,
    idx: nat,
    proposed: seq<Command>,
    sent: seq<Sent>)
  {
    /** What holds of every server at every moment: its map is the replay of the decided log up to
        its index, and apart from start signals it has sent exactly the answers to the commands it
        coordinated in that prefix, in order. */
    ghost predicate Valid() {
      && idx <= |decided|
      && db == Replay(map[], decided[..idx])
      && Replies(sent) == Responses(id, map[], decided[..idx])
    }
  }

  function NewReplica(id: NodeId, numClients: nat): Replica {
    Replica(id, numClients, 0, map[], [], 0, [], [])
  }

  /** An answer bears the number of its request; a read also what the map holds. */
  function Response(db: Store, c: Command): (m: ServerMessage)
    ensures !m.StartSignal? && m.id == c.id
    ensures m.Read? <==> c.kvCmd.Get?
    ensures m.Read? ==> m.value == Lookup(db, c.kvCmd.key)
  {
    match Reply(db, c.kvCmd)
    case Some(read) => Read(c.id, read)
    case None => Write(c.id)
  }

  /** The answer of server `id` to one command: only the coordinator answers. */
  function Answer(id: NodeId, db: Store, c: Command): seq<Sent> {
    if c.coordinatorId == id then [Sent(c.clientId, Response(db, c))] else []
  }

  /** The answers of server `id` while it applies `batch` to `db`. */
  function Responses(id: NodeId, db: Store, batch: seq<Command>): seq<Sent> {
    if batch == [] then []
    else
      var front := batch[..|batch| - 1];
      Responses(id, db, front) + Answer(id, Replay(db, front), batch[|batch| - 1])
  }

  /** Answers among everything sent; start signals are not answers. */
  function Replies(sent: seq<Sent>): seq<Sent> {
    if sent == [] then []
    else
      var last := sent[|sent| - 1];
      Replies(sent[..|sent| - 1]) + if last.msg.StartSignal? then [] else [last]
  }

  /** One for each client, in order. */
  function StartSignals(numClients: nat, time: int): (signals: seq<Sent>)
    ensures |signals| == numClients
    ensures forall i :: 0 <= i < numClients ==> signals[i] == Sent(i + 1, StartSignal(time))
  {
    if numClients == 0 then [] else StartSignals(numClients - 1, time) + [Sent(numClients, StartSignal(time))]
  }

  function Tag(server: NodeId, from: ClientId, m: ClientMessage): Command {
    Command(from, server, m.id, m.kvCmd)
  }

  // What each handler of the server does to its value.

  function AppendToLog(r: Replica, from: ClientId, m: ClientMessage): Replica {
    r.(proposed := r.proposed + [Tag(r.id, from, m)])
  }

  function HandleDecided(r: Replica): Replica {
    if r.idx < |r.decided| then
      var batch := r.decided[r.idx..];
      r.(idx := |r.decided|, db := Replay(r.db, batch), sent := r.sent + Responses(r.id, r.db, batch))
    else r
  }

  function HandleCluster(r: Replica, m: ClusterMessage): Replica {
    match m
    case OmniPaxosMessage(decides) => HandleDecided(r.(decided := r.decided + decides))
    case LeaderStartSignal(time) => r.(sent := r.sent + StartSignals(r.numClients, time))
  }

  function HandleClusterAll(r: Replica, ms: seq<ClusterMessage>): Replica {
    if ms == [] then r else HandleCluster(HandleClusterAll(r, ms[..|ms| - 1]), ms[|ms| - 1])
  }

  /** There is a start signal among the first messages. */
  predicate BringsStart(ms: seq<ClusterMessage>, n: nat)
    requires n <= |ms|
  {
    exists k :: 0 <= k < n && ms[k].LeaderStartSignal?
  }

  lemma BringsStartNext(ms: seq<ClusterMessage>, i: nat)
    requires i < |ms|
    ensures BringsStart(ms, i + 1) <==> BringsStart(ms, i) || ms[i].LeaderStartSignal?
  {
  }

  function AppendAll(r: Replica, ms: seq<(ClientId, ClientMessage)>): Replica {
    if ms == [] then r
    else AppendToLog(AppendAll(r, ms[..|ms| - 1]), ms[|ms| - 1].0, ms[|ms| - 1].1)
  }

  // Splitting a batch does not change what is answered.

  lemma {:induction false} ResponsesBatches(id: NodeId, db: Store, a: seq<Command>, b: seq<Command>)
    ensures Responses(id, db, a + b) == Responses(id, db, a) + Responses(id, Replay(db, a), b)
    decreases |b|
  {
    if b == [] {
      assert a + b == a;
    } else {
      var front := b[..|b| - 1];
      assert (a + b)[..|a + b| - 1] == a + front;
      ResponsesBatches(id, db, a, front);
      ReplayBatches(db, a, front);
    }
  }

  lemma ApplyNext(id: NodeId, db: Store, batch: seq<Command>, i: nat)
    requires i < |batch|
    ensures Replay(db, batch[..i + 1]) == Apply(Replay(db, batch[..i]), batch[i].kvCmd)
    ensures Responses(id, db, batch[..i + 1])
         == Responses(id, db, batch[..i]) + Answer(id, Replay(db, batch[..i]), batch[i])
  {
    assert batch[..i + 1][..i] == batch[..i];
  }

  lemma {:induction false} RepliesAppend(a: seq<Sent>, b: seq<Sent>)
    ensures Replies(a + b) == Replies(a) + Replies(b)
    decreases |b|
  {
    if b == [] {
      assert a + b == a;
    } else {
      assert (a + b)[..|a + b| - 1] == a + b[..|b| - 1];
      RepliesAppend(a, b[..|b| - 1]);
    }
  }

  lemma {:induction false} ResponsesAreReplies(id: NodeId, db: Store, batch: seq<Command>)
    ensures Replies(Responses(id, db, batch)) == Responses(id, db, batch)
    decreases |batch|
  {
    if batch != [] {
      var front := batch[..|batch| - 1];
      ResponsesAreReplies(id, db, front);
      var last := Answer(id, Replay(db, front), batch[|batch| - 1]);
      assert Replies(last) == last by {
        if last != [] {
          assert last[..|last| - 1] == [];
        }
      }
      RepliesAppend(Responses(id, db, front), last);
    }
  }

  lemma {:induction false} StartSignalsAreNotReplies(n: nat, time: int)
    ensures Replies(StartSignals(n, time)) == []
  {
    if n != 0 {
      StartSignalsAreNotReplies(n - 1, time);
      assert StartSignals(n, time)[..|StartSignals(n, time)| - 1] == StartSignals(n - 1, time);
    }
  }

  /** Every message from a peer keeps the server's invariant, whatever the batch it brings. */
  lemma HandleClusterKeepsValid(r: Replica, m: ClusterMessage)
    requires r.Valid()
    ensures HandleCluster(r, m).Valid()
  {
    match m
    case OmniPaxosMessage(decides) =>
      var all := r.decided + decides;
      assert all[..r.idx] == r.decided[..r.idx];
      if r.idx < |all| {
        var done, batch := all[..r.idx], all[r.idx..];
        assert all[..|all|] == all == done + batch;
        ReplayBatches(map[], done, batch);
        ResponsesBatches(r.id, map[], done, batch);
        RepliesAppend(r.sent, Responses(r.id, r.db, batch));
        ResponsesAreReplies(r.id, r.db, batch);
      }
    case LeaderStartSignal(time) =>
      RepliesAppend(r.sent, StartSignals(r.numClients, time));
      StartSignalsAreNotReplies(r.numClients, time);
  }

  /** Each answer belongs to one command of the batch that the server coordinated, and carries what
      the map held just before that command. */
  lemma {:induction false} ResponseOrigin(id: NodeId, db: Store, batch: seq<Command>, s: Sent) returns (i: nat)
    requires s in Responses(id, db, batch)
    ensures i < |batch| && batch[i].coordinatorId == id && s.to == batch[i].clientId
    ensures s.msg == Response(Replay(db, batch[..i]), batch[i])
    decreases |batch|
  {
    var front := batch[..|batch| - 1];
    if s in Responses(id, db, front) {
      i := ResponseOrigin(id, db, front, s);
      assert front[..i] == batch[..i];
    } else {
      i := |batch| - 1;
    }
  }

  lemma {:induction false} RepliesMember(sent: seq<Sent>, s: Sent)
    requires s in sent && !s.msg.StartSignal?
    ensures s in Replies(sent)
    decreases |sent|
  {
    if s != sent[|sent| - 1] {
      RepliesMember(sent[..|sent| - 1], s);
    }
  }

  /** The client side of a server's network. A reply to a client that is not connected, or whose
      connection has failed, is lost. */
  class Network {
    var clientConnections: map<ClientId, seq<ServerMessage>>
    var failed: set<ClientId>
    var maxClientId: ClientId
    ghost var sent: seq<Sent>

    /** Only what was sent to a client waits on its connection, and ids are never reused. */
    ghost predicate Valid()
      reads this
    {
      && (forall c, m :: c in clientConnections && m in clientConnections[c] ==> Sent(c, m) in sent)
      && (forall c :: c in clientConnections ==> 1 <= c <= maxClientId)
    }

    constructor ()
      ensures Valid() && maxClientId == 0 && sent == [] && clientConnections == map[]
    {
      clientConnections, failed, maxClientId, sent := map[], {}, 0, [];
    }

    method RegisterClient() returns (id: ClientId)
      requires Valid()
      modifies this
      ensures Valid()
      ensures id == maxClientId == old(maxClientId) + 1 && id !in old(clientConnections)
      ensures clientConnections == old(clientConnections)[id := []]
      ensures sent == old(sent) && failed == old(failed)
    {
      maxClientId := maxClientId + 1;
      id := maxClientId;
      clientConnections := clientConnections[id := []];
    }

    method SendToClient(to: ClientId, msg: ServerMessage)
      requires Valid()
      modifies this
      ensures Valid()
      ensures sent == old(sent) + [Sent(to, msg)]
      ensures maxClientId == old(maxClientId) && failed == old(failed)
      ensures clientConnections ==
              if to !in old(clientConnections) then old(clientConnections)
              else if to in failed then old(clientConnections) - {to}
              else old(clientConnections)[to := old(clientConnections)[to] + [msg]]
    {
      sent := sent + [Sent(to, msg)];
      if to in clientConnections {
        if to in failed {
          clientConnections := clientConnections - {to};
        } else {
          clientConnections := clientConnections[to := clientConnections[to] + [msg]];
        }
      }
    }
  }

  class OmniPaxosServer {
    const id: NodeId
    const numClients: nat
    const database: Database
    const network: Network
    var currentDecidedIdx: nat
    // The consensus library, through its interface: its decided log here and what was proposed here.
    var decided: seq<Command>
    var proposed: seq<Command>

    ghost function View(): Replica
      reads this, database, network
    {
      Replica(id, numClients, network.maxClientId, database.db, decided, currentDecidedIdx, proposed, network.sent)
    }

    constructor (id: NodeId, numClients: nat)
      ensures View() == NewReplica(id, numClients) && network.Valid()
      ensures fresh(database) && fresh(network)
    {
      this.id, this.numClients := id, numClients;
      database := new Database();
      network := new Network();
      currentDecidedIdx, decided, proposed := 0, [], [];
    }

    method UpdateDatabaseAndRespond(commands: seq<Command>)
      requires network.Valid()
      modifies database, network
      ensures network.Valid()
      ensures View() == old(View()).(db := Replay(old(database.db), commands),
                                     sent := old(network.sent) + Responses(id, old(database.db), commands))
    {
      ghost var db0 := database.db;
      for i := 0 to |commands|
        invariant network.Valid()
        invariant View() == old(View()).(db := Replay(db0, commands[..i]),
                                         sent := old(network.sent) + Responses(id, db0, commands[..i]))
      {
        var command := commands[i];
        ApplyNext(id, db0, commands, i);
        var read := database.HandleCommand(command.kvCmd);
        if command.coordinatorId == id {
          var response := match read case Some(result) => Read(command.id, result) case None => Write(command.id);
          network.SendToClient(command.clientId, response);
        }
      }
      assert commands[..|commands|] == commands;
    }

    method HandleDecidedEntries()
      requires network.Valid()
      modifies this, database, network
      ensures network.Valid()
      ensures View() == HandleDecided(old(View()))
    {
      var newDecidedIdx := |decided|;
      if currentDecidedIdx < newDecidedIdx {
        var decidedEntries := decided[currentDecidedIdx..];
        currentDecidedIdx := newDecidedIdx;
        UpdateDatabaseAndRespond(decidedEntries);
      }
    }

    method SendClientStartSignals(time: int)
      requires network.Valid()
      modifies network
      ensures network.Valid()
      ensures View() == old(View()).(sent := old(network.sent) + StartSignals(numClients, time))
    {
      for clientId := 1 to numClients + 1
        invariant network.Valid()
        invariant View() == old(View()).(sent := old(network.sent) + StartSignals(clientId - 1, time))
      {
        network.SendToClient(clientId, StartSignal(time));
      }
    }

    method HandleClientMessages(messages: seq<(ClientId, ClientMessage)>)
      modifies this
      ensures View() == AppendAll(old(View()), messages) == old(View()).(proposed := proposed)
      ensures old(proposed) <= proposed && |proposed| == |old(proposed)| + |messages|
      ensures forall i :: 0 <= i < |messages| ==>
                var (from, message) := messages[i];
                proposed[|old(proposed)| + i] == Command(from, id, message.id, message.kvCmd)
    {
      for i := 0 to |messages|
        invariant View() == AppendAll(old(View()), messages[..i]) == old(View()).(proposed := proposed)
        invariant old(proposed) <= proposed && |proposed| == |old(proposed)| + i
        invariant forall k :: 0 <= k < i ==>
                    var (from, message) := messages[k];
                    proposed[|old(proposed)| + k] == Command(from, id, message.id, message.kvCmd)
      {
        assert messages[..i + 1][..i] == messages[..i];
        var (from, message) := messages[i];
        proposed := proposed + [Command(from, id, message.id, message.kvCmd)];
      }
      assert messages[..|messages|] == messages;
    }

    method HandleClusterMessage(message: ClusterMessage)
      requires network.Valid()
      modifies this, database, network
      ensures network.Valid()
      ensures View() == HandleCluster(old(View()), message)
    {
      match message {
        case OmniPaxosMessage(decides) =>
          decided := decided + decides;
          HandleDecidedEntries();
        case LeaderStartSignal(time) =>
          SendClientStartSignals(time);
      }
    }

    method HandleClusterMessages(messages: seq<ClusterMessage>) returns (receivedStartSignal: bool)
      requires network.Valid()
      modifies this, database, network
      ensures network.Valid()
      ensures View() == HandleClusterAll(old(View()), messages)
      ensures receivedStartSignal <==> exists i :: 0 <= i < |messages| && messages[i].LeaderStartSignal?
    {
      receivedStartSignal := false;
      for i := 0 to |messages|
        invariant network.Valid()
        invariant View() == HandleClusterAll(old(View()), messages[..i])
        invariant receivedStartSignal <==> BringsStart(messages, i)
      {
        assert messages[..i + 1][..i] == messages[..i];
        BringsStartNext(messages, i);
        HandleClusterMessage(messages[i]);
        receivedStartSignal := receivedStartSignal || messages[i].LeaderStartSignal?;
      }
      assert messages[..|messages|] == messages;
    }
  }
}
