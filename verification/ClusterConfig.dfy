/** The configuration of a cluster, and the checks that every configuration and every update of one passes. */
module ClusterConfig {

  import opened Wrappers

  datatype FlexibleQuorum = FlexibleQuorum(readSize: int, writeSize: int)

  datatype OmniPaxosConfig = OmniPaxosConfig(nodes: seq<int>, initialLeader: int, quorum: Option<FlexibleQuorum>)

  datatype ServerConfig = ServerConfig(numClients: int)

  datatype ClientConfig = ClientConfig(serverId: int)

  datatype Config = Config(omnipaxos: OmniPaxosConfig, servers: map<int, ServerConfig>, clients: map<int, ClientConfig>)

  datatype ConfigError =
    | SmallReadQuorum
    | SmallWriteQuorum
    | NoOverlap
    | ClientWithoutServer
    | WrongClientCount
    | UnknownLeader
    | NodesNotServers

  datatype Checked = Accepted(config: Config) | Refused(error: ConfigError)

  /** The list is the elements of the set in ascending order. */
  predicate SortedElements(list: seq<int>, s: set<int>) {
    && (forall i, j :: 0 <= i < j < |list| ==> list[i] < list[j])
    && Elements(list) == s
  }

  function References(clients: map<int, ClientConfig>, serverId: int): set<int> {
    set c | c in clients && clients[c].serverId == serverId
  }

  function Validate(c: Config): Option<ConfigError> {
    var op := c.omnipaxos;
    if op.quorum.Some? && op.quorum.value.readSize < 2 then Some(SmallReadQuorum)
    else if op.quorum.Some? && op.quorum.value.writeSize < 2 then Some(SmallWriteQuorum)
    else if op.quorum.Some? && op.quorum.value.readSize + op.quorum.value.writeSize <= |op.nodes| then Some(NoOverlap)
    else if exists client :: client in c.clients && client !in c.servers then Some(ClientWithoutServer)
    else if exists s :: s in c.servers && c.servers[s].numClients != |References(c.clients, s)| then
      Some(WrongClientCount)
    else if op.initialLeader !in c.servers then Some(UnknownLeader)
    else if !SortedElements(op.nodes, c.servers.Keys) then Some(NodesNotServers)
    else None
  }

  // ---- What is accepted ----

  /** What each error complains about, by itself. */
  ghost predicate Violates(c: Config, e: ConfigError) {
    var op := c.omnipaxos;
    match e
    case SmallReadQuorum => op.quorum.Some? && op.quorum.value.readSize < 2
    case SmallWriteQuorum => op.quorum.Some? && op.quorum.value.writeSize < 2
    case NoOverlap => op.quorum.Some? && op.quorum.value.readSize + op.quorum.value.writeSize <= |op.nodes|
    case ClientWithoutServer => exists client :: client in c.clients && client !in c.servers
    case WrongClientCount =>
      exists s :: s in c.servers
                  && c.servers[s].numClients != |set client | client in c.clients && c.clients[client].serverId == s|
    case UnknownLeader => op.initialLeader !in c.servers
    case NodesNotServers =>
      (exists i, j :: 0 <= i < j < |op.nodes| && op.nodes[i] >= op.nodes[j])
      || (set node | node in op.nodes) != c.servers.Keys
  }

  function Rank(e: ConfigError): nat {
    match e
    case SmallReadQuorum => 0
    case SmallWriteQuorum => 1
    case NoOverlap => 2
    case ClientWithoutServer => 3
    case WrongClientCount => 4
    case UnknownLeader => 5
    case NodesNotServers => 6
  }

  lemma CountsWrong(c: Config)
    ensures Violates(c, WrongClientCount)
       <==> exists s :: s in c.servers && c.servers[s].numClients != |References(c.clients, s)|
  {
    forall s ensures References(c.clients, s) == set client | client in c.clients && c.clients[client].serverId == s {
    }
  }

  lemma NodesWrong(c: Config)
    ensures Violates(c, NodesNotServers) <==> !SortedElements(c.omnipaxos.nodes, c.servers.Keys)
  {
    assert Elements(c.omnipaxos.nodes) == set node | node in c.omnipaxos.nodes;
  }

  lemma Checks(c: Config)
    ensures Validate(c) ==
            if Violates(c, SmallReadQuorum) then Some(SmallReadQuorum)
            else if Violates(c, SmallWriteQuorum) then Some(SmallWriteQuorum)
            else if Violates(c, NoOverlap) then Some(NoOverlap)
            else if Violates(c, ClientWithoutServer) then Some(ClientWithoutServer)
            else if Violates(c, WrongClientCount) then Some(WrongClientCount)
            else if Violates(c, UnknownLeader) then Some(UnknownLeader)
            else if Violates(c, NodesNotServers) then Some(NodesNotServers)
            else None
  {
    CountsWrong(c);
    NodesWrong(c);
  }

  /** A configuration is refused for the first of the seven errors that applies, and accepted if none does. */
  lemma RefusedFor(c: Config, e: ConfigError)
    ensures Validate(c) == Some(e) <==> Violates(c, e) && forall f: ConfigError :: Rank(f) < Rank(e) ==> !Violates(c, f)
    ensures Validate(c) == None <==> forall f: ConfigError :: !Violates(c, f)
  {
    Checks(c);
  }

  /** Any servers, any leader among them and any clients named after servers make an accepted configuration. */
  lemma AnyClusterAccepted(nodes: seq<int>, leader: int, clients: map<int, ClientConfig>) returns (c: Config)
    requires forall i, j :: 0 <= i < j < |nodes| ==> nodes[i] < nodes[j]
    requires leader in nodes && forall client :: client in clients ==> client in nodes
    ensures Validate(c) == None
    ensures c.omnipaxos.nodes == nodes && c.omnipaxos.initialLeader == leader && c.clients == clients
  {
    var servers := map s | s in nodes :: ServerConfig(|References(clients, s)|);
    c := Config(OmniPaxosConfig(nodes, leader, None), servers, clients);
    assert SortedElements(nodes, servers.Keys);
  }

  function Update(c: Config, op: OmniPaxosConfig): Checked {
    var next := c.(omnipaxos := op);
    match Validate(next)
    case Some(error) => Refused(error)
    case None => Accepted(next)
  }

  function Updates(c: Config, ops: seq<OmniPaxosConfig>): Checked
    decreases |ops|
  {
    if ops == [] then Accepted(c)
    else
      match Update(c, ops[0])
      case Refused(error) => Refused(error)
      case Accepted(next) => Updates(next, ops[1..])
  }

  // ---- Quorums ----

  lemma {:induction false} DistinctCount(list: seq<int>)
    requires forall i, j :: 0 <= i < j < |list| ==> list[i] != list[j]
    ensures |Elements(list)| == |list|
  {
    if list != [] {
      var rest := list[1..];
      DistinctCount(rest);
      assert list[0] !in rest;
      assert Elements(list) == {list[0]} + Elements(rest);
    }
  }

  lemma DisjointFits(a: set<int>, b: set<int>, all: set<int>)
    requires a <= all && b <= all && a * b == {}
    ensures |a| + |b| <= |all|
  {
    SubsetSize(a + b, all);
  }

  lemma {:induction false} SubsetSize<T>(a: set<T>, b: set<T>)
    requires a <= b
    ensures |a| <= |b|
  {
    if a != {} {
      var x :| x in a;
      SubsetSize(a - {x}, b - {x});
    }
  }

  ghost predicate Quorum(c: Config, q: set<int>, size: int) {
    q <= Elements(c.omnipaxos.nodes) && |q| == size
  }

  /** Every accepted configuration with a flexible quorum: a read quorum and a write quorum have a node in common.
      That the nodes are distinct comes from their match with the sorted server ids. */
  lemma QuorumsOverlap(c: Config, read: set<int>, write: set<int>)
    requires Validate(c) == None && c.omnipaxos.quorum.Some?
    requires Quorum(c, read, c.omnipaxos.quorum.value.readSize)
    requires Quorum(c, write, c.omnipaxos.quorum.value.writeSize)
    ensures read * write != {}
  {
    DistinctCount(c.omnipaxos.nodes);
    if read * write == {} {
      DisjointFits(read, write, Elements(c.omnipaxos.nodes));
    }
  }

  /** The check is no stricter than it must be: the sizes it refuses admit quorums that miss each other. */
  lemma RefusedQuorumsMiss(c: Config) returns (read: set<int>, write: set<int>)
    requires SortedElements(c.omnipaxos.nodes, c.servers.Keys)
    requires Validate(c) == Some(NoOverlap)
    ensures Quorum(c, read, c.omnipaxos.quorum.value.readSize)
    ensures Quorum(c, write, c.omnipaxos.quorum.value.writeSize)
    ensures read * write == {}
  {
    var nodes, r, w := c.omnipaxos.nodes, c.omnipaxos.quorum.value.readSize, c.omnipaxos.quorum.value.writeSize;
    read, write := Elements(nodes[..r]), Elements(nodes[r..r + w]);
    DistinctCount(nodes[..r]);
    DistinctCount(nodes[r..r + w]);
    forall x, y | x in read && y in write ensures x != y {
      var i :| 0 <= i < r && nodes[..r][i] == x;
      var k :| 0 <= k < w && nodes[r..r + w][k] == y;
      assert nodes[i] < nodes[r + k];
    }
  }

  /** A quorum size is accepted even when no set of nodes has it: a quorum exists exactly up to the number of
      nodes. */
  lemma QuorumExists(c: Config, size: nat)
    requires Validate(c) == None
    ensures (exists q :: Quorum(c, q, size)) <==> size <= |c.omnipaxos.nodes|
  {
    var nodes := c.omnipaxos.nodes;
    DistinctCount(nodes);
    if q :| Quorum(c, q, size) {
      SubsetSize(q, Elements(nodes));
    }
    if size <= |nodes| {
      DistinctCount(nodes[..size]);
      assert Quorum(c, Elements(nodes[..size]), size);
    }
  }

  lemma UnmeetableAccepted()
    ensures exists c :: Validate(c) == None && c.omnipaxos.quorum.Some?
                        && c.omnipaxos.quorum.value.readSize > |c.omnipaxos.nodes|
  {
    var c := Config(OmniPaxosConfig([1], 1, Some(FlexibleQuorum(2, 2))), map[1 := ServerConfig(0)], map[]);
    assert References(c.clients, 1) == {};
    assert SortedElements([1], c.servers.Keys);
    assert Validate(c) == None;
  }

  // ---- Clients ----

  predicate Configured(ids: seq<int>, servers: map<int, ServerConfig>) {
    forall i :: 0 <= i < |ids| ==> ids[i] in servers
  }

  /** The number of clients that these servers wait for. */
  function Declared(servers: map<int, ServerConfig>, ids: seq<int>): int
    requires Configured(ids, servers)
  {
    if ids == [] then 0 else servers[ids[0]].numClients + Declared(servers, ids[1..])
  }

  function Served(ids: seq<int>, clients: map<int, ClientConfig>): set<int> {
    set c | c in clients && clients[c].serverId in ids
  }

  lemma {:induction false} DeclaredServed(servers: map<int, ServerConfig>, ids: seq<int>,
                                          clients: map<int, ClientConfig>)
    requires Configured(ids, servers)
    requires forall s :: s in servers ==> servers[s].numClients == |References(clients, s)|
    requires forall i, j :: 0 <= i < j < |ids| ==> ids[i] != ids[j]
    ensures Declared(servers, ids) == |Served(ids, clients)|
  {
    if ids == [] {
      assert Served(ids, clients) == {};
    } else {
      DeclaredServed(servers, ids[1..], clients);
      assert Served(ids, clients) == References(clients, ids[0]) + Served(ids[1..], clients);
      assert References(clients, ids[0]) * Served(ids[1..], clients) == {};
    }
  }

  /** The clients that the servers of an accepted configuration wait for are the configured ones, exactly when
      each client's server is configured: the check looks for the client's own id among the servers, not for
      the id of the server it connects to. */
  lemma ClientsAccountedFor(c: Config)
    requires Validate(c) == None
    ensures Configured(c.omnipaxos.nodes, c.servers)
    ensures Declared(c.servers, c.omnipaxos.nodes) == |c.clients|
       <==> (forall client :: client in c.clients ==> c.clients[client].serverId in c.servers)
  {
    var nodes := c.omnipaxos.nodes;
    forall s ensures s in nodes <==> s in c.servers {
      assert s in nodes <==> s in Elements(nodes);
    }
    DeclaredServed(c.servers, nodes, c.clients);
    SameSize(Served(nodes, c.clients), c.clients.Keys);
    assert |c.clients| == |c.clients.Keys|;
    forall client ensures client in Served(nodes, c.clients)
                     <==> client in c.clients && c.clients[client].serverId in c.servers
    {
    }
    if Served(nodes, c.clients) == c.clients.Keys {
      forall client | client in c.clients ensures c.clients[client].serverId in c.servers {
        assert client in c.clients.Keys;
      }
    }
    if forall client :: client in c.clients ==> c.clients[client].serverId in c.servers {
      forall client | client in c.clients.Keys ensures client in Served(nodes, c.clients) {
        assert client in c.clients;
      }
      assert c.clients.Keys <= Served(nodes, c.clients) <= c.clients.Keys;
    }
  }

  /** A client of a server that does not exist is accepted, and no server waits for it. */
  lemma StrayClientAccepted()
    ensures
      var c := Config(OmniPaxosConfig([1], 1, None), map[1 := ServerConfig(0)], map[1 := ClientConfig(7)]);
      Validate(c) == None && Declared(c.servers, [1]) == 0 && |c.clients| == 1
  {
    var c := Config(OmniPaxosConfig([1], 1, None), map[1 := ServerConfig(0)], map[1 := ClientConfig(7)]);
    assert References(c.clients, 1) == {};
    assert SortedElements([1], c.servers.Keys);
    assert Validate(c) == None;
    assert [1][1..] == [];
  }

  lemma SameSize<T>(a: set<T>, b: set<T>)
    requires a <= b
    ensures |a| == |b| <==> a == b
  {
    if a != b {
      var x :| x in b && x !in a;
      SubsetSize(a, b - {x});
    }
  }

  // ---- Updates ----

  /** A chain of updates is accepted if and only if each passes the checks with the servers and clients there are. */
  lemma {:induction false} UpdatesAccepted(c: Config, ops: seq<OmniPaxosConfig>)
    ensures Updates(c, ops).Accepted? <==> forall op :: op in ops ==> Validate(c.(omnipaxos := op)) == None
    decreases |ops|
  {
    if ops != [] {
      if Validate(c.(omnipaxos := ops[0])) == None {
        UpdatesAccepted(c.(omnipaxos := ops[0]), ops[1..]);
      }
      assert ops == [ops[0]] + ops[1..];
    }
  }

  /** After any chain of accepted updates the configuration is one that passes the checks, with the servers and
      clients it started with. */
  lemma {:induction false} UpdatesKeep(c: Config, ops: seq<OmniPaxosConfig>)
    requires Validate(c) == None && Updates(c, ops).Accepted?
    ensures var last := Updates(c, ops).config;
            && Validate(last) == None && last.servers == c.servers && last.clients == c.clients
            && last.omnipaxos == if ops == [] then c.omnipaxos else ops[|ops| - 1]
    decreases |ops|
  {
    if ops != [] {
      UpdatesKeep(Update(c, ops[0]).config, ops[1..]);
    }
  }
}
