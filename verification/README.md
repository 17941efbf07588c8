# Verified models of the OmniPaxos key-value store and its test tools

This project models, and proves properties of, five parts of the repository.

- **The replicated key-value store** (`Kv`, `Server`, `Shim`, `Cluster`, `Linearizability`, `Safety`, `Requests`,
  `Connections`, `Progress`, `Buffers`).
  HTTP requests enter a shim, which numbers them and parks the callers; a server tags them and proposes them;
  servers apply the decided log and answer what they coordinated. `Server` and `Shim` hold the objects whose
  methods change state in place, each method proved against a function on the value of the object. `Cluster` puts
  these functions together as a transition system with any number of servers, shims, clients and messages in
  flight, in which requests are lost, replies are delivered late, out of order, repeatedly or never, connections
  fail in either direction, and servers halt. The main theorem is that every history of every run is linearizable
  (`Safety.EveryRunLinearizable`), stated with a definition that knows nothing of logs, messages or the database: in
  a sequential order of the calls that respects real time, each read gets what the last write to its key before it
  put there. `Buffers` shows that the handlers, which take messages by the buffer, are runs of that system.
  `Progress` says which calls can still complete, in every reachable state and exactly: a parked caller if and only
  if its answer got out to the shim, or the connection still works, the server runs and the request was not lost; a
  new call if and only if both directions of the connection work and the server runs. `Connections` has the other
  half: once the server's side of a connection has failed, a caller whose answer had not got out is never answered,
  even when its request was chosen and applied.
- **Log snapshots** (`Snapshot`). `KVSnapshot::create` and `merge` as a second meaning of a log, and the exact
  conditions under which it agrees with applying the log.
- **The Fressian reader** (`Fressian`, `FressianReader`, `FressianBytes`, `FressianRoundTrip`, `FressianTheorems`,
  `FressianInverse`, `FressianPlain`, `FressianErrors`, `FressianTruncation`, `Words`). The decoder
  as total functions, the reader object proved to compute them, and the round trip for every value and every way of
  encoding it, with both caches. There is no writer in the repository; an encoding is therefore a tree that says
  which form each value takes, so the theorems hold for every writer that keeps to the format, and
  `FressianTheorems.Write` is one such writer. The built-in struct types have a table of their own on the writer's
  side, with their codes, the bytes of their tags and their numbers of fields. The converse
  (`FressianPlain.PlainMeans`), what is refused and with which error, and what happens to streams that are cut short
  (`FressianTruncation.ShortAccepted`) are proved as well.
- **The file corrupter** (`CorruptFile`, `BitFlip`, `CopyChunks`, `SnapshotRestore`). Chunk arithmetic, and the
  three ways of changing chunks in place, with every random draw arbitrary.
- **The clock strober and cluster configurations** (`StrobeTime`, `ClusterConfig`).

## What is assumed

Of the consensus library, which is not part of the repository, only this, in `Cluster.Enabled` and nowhere else:
there is one append-only chosen log; an entry is chosen only if it was proposed, and a proposal is chosen at most
once (`Decide` takes it out of the pool); what a server learns as decided extends what it had and is a prefix of
the chosen log (`PeerMessage`); and reading the decided suffix gives decided entries only. A message of
the library comes from a peer, so there are two servers or more where one learns anything. A server's connection
to a shim carries to it only what the server sent to that client id.

`Safety`, `Requests` and `Connections` speak of all runs and need no more. Where `Progress` says that a call can
complete, it uses in addition that the library may choose any proposal and bring all of the log to any running
server. The library does so while enough servers run for its quorums; that is not part of the model, so when too
many have halted those runs are not runs of the system.

Random draws, clock readings, signals and lost messages are parameters. Where the program rolls again until the
draw is acceptable, some acceptable chunk is assumed to be drawn at some time (`CopyChunks.Finds`), and the
monotonic clock to pass every time in the end (`StrobeTime.Advances`); both are needed for the loops to end.

## Where the code and its description differ

The models follow the code.

- `send_to_client` drops a client for good when its connection has failed (Omnipax/src/server/network.rs:260-270), and
  the shim does not connect again: its callers wait without end, also those whose requests are applied
  (`Connections.SeveredNeverReturns`), and a shim in this state still takes up new calls
  (`Progress.NewCallCanReturn`).
- `create` records a deletion only when the key is not in the batch's map at that moment
  (Omnipax/src/common.rs:86), so a batch that puts a key and then deletes it leaves no mark, and merging it brings
  an older value back (`Snapshot.MergeResurrects`). `merge` drops all marks (line 109), so a snapshot that was
  merged into is not a faithful delta any more (`Snapshot.MergedDeltaFaithful`, with an input in
  `Snapshot.MergedDeltaResurrects`).
- `corrupt_restore` moves `end` on from its last value (corrupt-file.c:438) where `corrupt_snapshot` computes it
  from `start`. Restoring therefore looks for many chunks under names they were not saved as;
  `SnapshotRestore.EveryRunRecovers` says for which options none is missed.
- `corrupt_copy` clips the destination to the region, but not the source: with a region that ends inside the file
  a short last chunk used as source brings in bytes from behind the region. `CopyChunks.NeverReadsPast` says for
  which options and file sizes this cannot happen.
- `readAndCacheObject` fills its reserved place by index; a reset of the caches inside the object removes the
  place or gives it to another object. The object fills its own place exactly when no reset is anywhere inside it
  (`FressianTheorems.FillsOwnPlace`; outcomes in `FressianTheorems.ResetInsideCached`, with streams in
  `FressianTheorems.ResetLosesPlace` and `FressianTheorems.ResetTakesPlace`).
- `cmp_timespec` is described as a standard comparator, but is the reverse of one (`StrobeTime.CmpReversed`).
  `nanos_to_timespec` truncates towards zero and gives times that are not normal for negative arguments; with a
  negative period the sleep fails and the program ends with the wall clock still off, at the first strobe (`StrobeTime.Strobe`).
- `ClusterConfig.validate` says that a quorum must be "greater than 2" but accepts 2; it accepts sizes larger than
  the cluster (`ClusterConfig.UnmeetableAccepted`), and clients of servers that do not exist
  (`ClusterConfig.StrayClientAccepted`).

## Model

| member | source | states |
|---|---|---|
| Safety.EveryRunLinearizable | Omnipax/src/server/server.rs:114-203 | Linearizability of every history of every run, under any loss, delay, repetition and halting: the chosen log is a legal sequential order in which each completed call is once, with the reply it got, and after every call that returned before it began. |
| Safety.HistoryWellFormed | Omnipax/src/client/api_shim.rs:79-130 | Each call is invoked once and returns at most once, after its invocation: no caller gets two replies. |
| Safety.WitnessLinearizes | Omnipax/src/server/database.rs:13-25 | The chosen log itself, read as calls with what the databases answer, is the linearization: what they answer is what the last write in the log put. |
| Safety.InOrder | Omnipax/src/client/api_shim.rs:83-125 | Real-time order: a call that returned before another was invoked is before it in the log. |
| Safety.StepInv | Omnipax/src/server/server.rs:114-203 | Every step of servers, shims and network keeps the system invariant, which ties the maps, pending callers, places of requests and the history to the log. |
| Safety.RunInv | Omnipax/src/server/server.rs:50-75 | The invariant holds in every state of every run. |
| Safety.ReplicasAgree | Omnipax/src/server/server.rs:114-147 | In every reachable state a server's map is the replay of the chosen log up to its decided index, however it came in batches; servers at one index agree, and the map of one that lags is an earlier state of one that leads. |
| Safety.ReachableServer | Omnipax/src/server/server.rs:114-147 | A server has sent exactly the answers to the commands it coordinated in the part of the log it applied, in order. |
| Safety.ExactlyOneAnswer | Omnipax/src/server/server.rs:135-147 | Over a whole run each applied command yields one answer, of the coordinator only, with what the map held just before it, at its place among that server's answers; there are no others. |
| Safety.ChosenOnce | Omnipax/src/server/server.rs:193-203 | Coordinator, client and request number identify the place of a command in the log, and it is the one that its caller asked for. |
| Requests.AppendedOnce | Omnipax/src/server/server.rs:193-203 | Coordinator, client and request number identify a command among all that any server ever appended; each was appended by the server it names and is proposed or chosen, once. |
| Requests.OnePlace | Omnipax/src/client/api_shim.rs:92-106 | The same among all commands on their way, proposed or chosen: each is in one place only and is what its caller asked for. |
| Requests.LostNeverReturns | Omnipax/src/client/api_shim.rs:92-106 | A request that was lost is never answered, however the run goes on. |
| Safety.ParkedCallers | Omnipax/src/client/api_shim.rs:79-125 | In every reachable state the two pending maps are disjoint with numbers below the next one, and each parked caller waits for its own request of that kind and has had no answer. |
| Safety.RepliesFit | Omnipax/src/client/api_shim.rs:108-125 | Any answer that can reach a shim is for a request that this shim made, and is a `Write` for a put and a `Read` for a get; so a caller still parked under its number is woken by it. |
| Progress.ParkedCanReturn | Omnipax/src/client/api_shim.rs:108-125 | In every reachable state, a parked caller can still be answered if and only if its answer got out to the shim, or the request was not lost while the connection works and the server runs and has a peer. |
| Progress.NewCallCanReturn | Omnipax/src/client/api_shim.rs:83-125 | A call that a started shim takes up now can return if and only if both directions of the connection work and the server runs and has a peer. |
| Progress.CallCompletes | Omnipax/src/client/api_shim.rs:83-125 | Then it can return what the map of the whole chosen log answers, whatever else is under way. |
| Progress.ParkedCompletes | Omnipax/src/client/api_shim.rs:108-125 | On a working connection a parked caller can be answered with what the map of the log before its command answers, when its request is on its way, proposed or chosen and the server runs, or when the server has applied it and no longer runs. |
| Connections.SeveredNeverReturns | Omnipax/src/server/network.rs:260-270 | A caller whose answer had not got out when the server's side of the connection failed, or the server halted, is never answered, however the run goes on. |
| Connections.FromPeerDead | Omnipax/src/server/network.rs:260-270 | What a server sends after a connection failed does not get out on it, whatever batch it answers. |
| Connections.FailureLasts | Omnipax/src/server/network.rs:260-270 | A failure is for good in every run: a server that halted takes no step, a shim whose side failed sends nothing, and no message past those that had got out reaches a shim to which its server's side failed. |
| Progress.StartedReachable | Omnipax/src/client/api_shim.rs:71-77 | Started shims are reachable in every configuration with a server that has clients. |
| Progress.ShimStarts | Omnipax/src/server/server.rs:213-219 | A shim that connects as one of its server's configured clients can be started. |
| Progress.AnswerSent | Omnipax/src/server/server.rs:114-147 | The answer to each command that a server applied and coordinated is among what it sent, with the map of the whole log before it. |
| Cluster.DeliverInv | Omnipax/src/client/api_shim.rs:108-125 | Delivering any message a server sent, also one delivered before, keeps the invariant; a return it causes has its place and reply in the log. |
| Cluster.InvokedInv | Omnipax/src/client/api_shim.rs:83-106 | Taking up a request under a fresh number keeps the invariant. |
| Cluster.ConnectInv | Omnipax/src/server/network.rs:173-178 | Handing out the next client id keeps the invariant: a client id names one shim of its server. |
| Cluster.FromPeerInv | Omnipax/src/server/server.rs:170-191 | A peer message with any extension of the decided log keeps the invariant. |
| Cluster.AnswerPlace | Omnipax/src/server/server.rs:135-147 | Every answer ever sent belongs to the one place of its request in the log and carries what the map held there. |
| Kv.Database.HandleCommand | Omnipax/src/server/database.rs:13-25 | A put leaves its value at its key and a delete nothing, all other keys stay; a read answers what the map held, and nothing else answers a value. |
| Kv.ReadsLastWrite | Omnipax/src/server/database.rs:13-25 | After any log, a read answers what the last write to its key left, a deletion nothing, and without a write what the map held before. |
| Kv.ReplayBatches | Omnipax/src/server/server.rs:114-133 | Cutting a log into batches does not change the map it leads to. |
| Server.OmniPaxosServer.UpdateDatabaseAndRespond | Omnipax/src/server/server.rs:135-147 | Applying a batch replays it on the map and sends exactly the coordinated answers of the batch, in order; nothing else changes. |
| Server.OmniPaxosServer.HandleDecidedEntries | Omnipax/src/server/server.rs:114-133 | The new decided suffix is applied and answered once, and the index moves to its end; without one nothing happens. |
| Server.OmniPaxosServer.HandleClientMessages | Omnipax/src/server/server.rs:159-168 | The proposals grow by each request of the buffer, once, in order, with its client, number and operation and this server; nothing else changes. |
| Server.OmniPaxosServer.HandleClusterMessages | Omnipax/src/server/server.rs:170-191 | The effect on the server of a buffer of messages, one after the other, and whether a start signal was among them. |
| Buffers.TakenInTurn | Omnipax/src/server/server.rs:159-168 | Handling a whole buffer of requests is a run of the system, one step for each request in turn, wherever they lie on the wire. |
| Buffers.AppendsAll | Omnipax/src/server/server.rs:159-168 | It proposes exactly the requests of the buffer, as commands with their clients and this server, in order. |
| Buffers.HeardInTurn | Omnipax/src/server/server.rs:170-191 | Handling a whole buffer of messages from peers is a run of the system, one step for each message, whatever each of them decides. |
| Server.OmniPaxosServer.SendClientStartSignals | Omnipax/src/server/server.rs:213-219 | One start signal to each configured client, and nothing else changes. |
| Requests.SentGrows | Omnipax/src/server/server.rs:170-219 | A peer message only adds to what a server sends: a start signal one to each configured client, any other message answers only. |
| Server.HandleClusterKeepsValid | Omnipax/src/server/server.rs:170-191 | Every peer message, whatever batch it brings, keeps the map equal to the replay of the decided log and the answers equal to those of its coordinated commands. |
| Server.ResponsesBatches | Omnipax/src/server/server.rs:135-147 | Cutting a log into batches does not change what is answered. |
| Server.ResponseOrigin | Omnipax/src/server/server.rs:135-147 | Each answer of a batch is that of a command in it that the server coordinated, from the map just before. |
| Server.Network.RegisterClient | Omnipax/src/server/network.rs:173-178 | A new connection gets an id never used before. |
| Server.Network.SendToClient | Omnipax/src/server/network.rs:260-270 | A message for an unknown client is dropped, a failed connection is removed, and otherwise the message waits on that client's connection only. |
| Shim.ApiShim.HandlePut | Omnipax/src/client/api_shim.rs:86-98 | A put takes the next number, parks its caller there and sends one request with it; numbers stay fresh and the two pending maps disjoint. |
| Shim.ApiShim.HandleGet | Omnipax/src/client/api_shim.rs:99-108 | The same for a get. |
| Shim.ApiShim.HandleServerMessage | Omnipax/src/client/api_shim.rs:71-125 | Until the start signal messages are discarded; then an answer wakes the caller parked for that kind of answer, once. |
| Shim.ReceiveWakes | Omnipax/src/client/api_shim.rs:71-125 | A message wakes a caller if and only if the shim has started and that caller is parked under its number for that kind of answer; nothing but a start signal starts a shim. |
| Shim.ReceiveTwice | Omnipax/src/client/api_shim.rs:112-121 | A repeated answer wakes nobody. |
| Snapshot.KVSnapshot.Create | Omnipax/src/common.rs:77-100 | The two loops compute the condensed batch. |
| Snapshot.KVSnapshot.Merge | Omnipax/src/common.rs:102-110 | After merging each key has nothing if the delta marks it, else the delta's value, else what it had; the snapshot's own marks are forgotten, whatever the order in which the hash map is walked. |
| Snapshot.SnapshotEqualsDatabase | Omnipax/src/common.rs:77-100 | For every log the snapshot's map is the database's map after it, and the marks are the absent keys that some delete found absent. |
| Snapshot.MarksInOrder | Omnipax/src/common.rs:84-99 | The marks with their order and number: one for each delete of the batch that finds its key absent, if the batch leaves it absent. |
| Snapshot.MergeFaithful | Omnipax/src/common.rs:77-110 | Merging a batch's snapshot is applying the batch, if and only if no key that is held ends deleted in the batch with every delete directly after a put of that key. |
| Snapshot.MergeResurrects | Omnipax/src/common.rs:86-89 | A put and a delete in one batch bring back an old value. |
| Snapshot.MergeAllFaithful | Omnipax/src/common.rs:102-110 | For any number of batches: merging all is applying the whole log, if and only if no batch forgets the deletion of a key that is held and that no later batch writes; all of it said of the writes in the batches alone. |
| Snapshot.HeldAfterMerges | Omnipax/src/common.rs:102-110 | Whether a key is held after any number of merges, by the writes to it in the batches. |
| Snapshot.DeleteFreeFaithful | Omnipax/src/common.rs:77-110 | Logs without deletes are always merged faithfully, however they are cut. |
| Snapshot.MergedDeltaFaithful | Omnipax/src/common.rs:109-109 | The exact condition under which a snapshot that was merged into still works as a delta. |
| Snapshot.MergedDeltasFaithful | Omnipax/src/common.rs:102-110 | The same for a snapshot that any number of batches were merged into. |
| Snapshot.MergedDeltaResurrects | Omnipax/src/common.rs:109-109 | One delete, merged with an empty batch, is lost when the result is used as a delta. |
| FressianTheorems.RoundTrip | jepsen-main/jepsen/src/jepsen/store/FressianReader.java:287-706 | For every value and every mix of packed, counted, closed, open and chunked forms, cache references, struct definitions and references and resets at any depth: reading an encoding gives its value, takes exactly its bytes and leaves both caches as the encoder's are. |
| FressianTheorems.Unambiguous | jepsen-main/jepsen/src/jepsen/store/FressianReader.java:287-706 | One stream of bytes cannot be two encodings with different values, lengths or caches. |
| FressianInverse.Inverse | jepsen-main/jepsen/src/jepsen/store/FressianReader.java:287-706 | The converse: any object that is read, without a footer in it, without an open list that the input ends, and with counts written as integers, is the encoding of the value read, with the caches that the encoder has. |
| FressianPlain.PlainMeans | jepsen-main/jepsen/src/jepsen/store/FressianReader.java:287-706 | The three together: a plain stream is read as a value, with these bytes taken and these caches left, if and only if it begins with an encoding of that value. |
| FressianTheorems.WriteThenRead | jepsen-main/jepsen/src/jepsen/store/FressianReader.java:283-706 | Every value, written in shortest forms with cached strings and struct types, is read back from any caches, and both sides agree on the caches again. |
| FressianTheorems.ShortestFits | jepsen-main/jepsen/src/jepsen/store/FressianReader.java:75-256 | The shortest integer form holds the integer and no other form is shorter. |
| FressianTheorems.IntAgrees | jepsen-main/jepsen/src/jepsen/store/FressianReader.java:75-256 | Reading an integer directly, with its own switch of shifts and ors, and reading an object agree on every input: same value, same bytes, same caches, same error. |
| FressianBytes.SwitchesAgree | jepsen-main/jepsen/src/jepsen/store/FressianReader.java:75-256 | The two switches take each integer code, with whatever follows it, for the same integer. |
| FressianBytes.BuiltinRead | jepsen-main/jepsen/src/jepsen/store/FressianReader.java:514-576 | For each of the sixteen built-in struct types the reader's switch has the code, the tag, byte for byte, and the number of fields that a writer uses. |
| FressianBytes.SignedWord | jepsen-main/jepsen/src/jepsen/store/FressianReader.java:241-243 | Eight raw bytes are a 64-bit number in two's complement. |
| FressianTheorems.OpenListAtEof | jepsen-main/jepsen/src/jepsen/store/FressianReader.java:841-855 | An open list may end with the input. |
| FressianTruncation.Truncated | jepsen-main/jepsen/src/jepsen/store/FressianReader.java:287-706 | Any encoding, cut anywhere: reading fails for lack of input, except with open lists; then it may take all that is left, only if one is at the end, or fail because an object lost its place in the cache. |
| FressianTruncation.CutIsEof | jepsen-main/jepsen/src/jepsen/store/FressianReader.java:287-706 | An encoding without open lists that is cut anywhere is refused for lack of input. |
| FressianTruncation.ShortAccepted | jepsen-main/jepsen/src/jepsen/store/FressianReader.java:841-855 | Some beginning of an encoding is accepted in its place if and only if the encoding ends with an open list. |
| FressianTruncation.LastByteLoose | jepsen-main/jepsen/src/jepsen/store/FressianReader.java:841-855 | An encoding that ends with an open list, at any depth, means the same without its last byte: value, length and caches. |
| FressianErrors.Unexpected | jepsen-main/jepsen/src/jepsen/store/FressianReader.java:687-693 | A code is refused whatever follows it if and only if it is one of eighteen. |
| FressianErrors.CountOutcome | jepsen-main/jepsen/src/jepsen/store/FressianReader.java:712-718 | A count is any integer form whose integer has 32 bits; others are refused. |
| FressianErrors.NegativeCount | jepsen-main/jepsen/src/jepsen/store/FressianReader.java:720-830 | Byte arrays, strings and lists with a negative length are refused. |
| FressianErrors.WrongChunk | jepsen-main/jepsen/src/jepsen/store/FressianReader.java:732-793 | A chunk that is not followed by another, or by a last one of its kind, is refused. |
| FressianErrors.FooterOutcome | jepsen-main/jepsen/src/jepsen/store/FressianReader.java:902-913 | What any bytes after the code of a footer lead to: which of missing input, a wrong magic number or length and a wrong checksum is noticed first, and otherwise a new start. |
| FressianErrors.WideReference | jepsen-main/jepsen/src/jepsen/store/FressianReader.java:884-896 | What a reference with any index gives: the object, a circular reference if it is still being read, or an error below or beyond the cache. |
| FressianErrors.SelfReference | jepsen-main/jepsen/src/jepsen/store/FressianReader.java:884-896 | An object that is only a reference to itself is a circular reference. |
| FressianErrors.Handled | jepsen-main/jepsen/src/jepsen/store/FressianReader.java:698-707 | A built-in struct whose tag has a handler is left to it before any field is read. |
| FressianErrors.HandledType | jepsen-main/jepsen/src/jepsen/store/FressianReader.java:672-677 | The same for a struct type that the stream defines; without a handler a negative number of fields is refused. |
| FressianErrors.ClosedListAtEof | jepsen-main/jepsen/src/jepsen/store/FressianReader.java:830-839 | A closed list must be ended, however many elements it has. |
| FressianTheorems.ConstantDoubles | jepsen-main/jepsen/src/jepsen/store/FressianReader.java:803-812 | The two codes for doubles stand for the numbers zero and one of IEEE 754. |
| FressianTheorems.ResetInsideCached | jepsen-main/jepsen/src/jepsen/store/FressianReader.java:940-946 | What exactly reading a cached object does when resets are anywhere inside it: an error if the caches no longer reach its place, and otherwise the object fills that place; without a reset inside it the place is always there. |
| FressianTheorems.FillsOwnPlace | jepsen-main/jepsen/src/jepsen/store/FressianReader.java:940-946 | A cached object fills the place that it reserved, and no other, if and only if no reset is anywhere inside it: a condition on the encoding alone. |
| FressianTheorems.MeaningFills | jepsen-main/jepsen/src/jepsen/store/FressianReader.java:925-946 | After any object without a reset the old cache places are as they were and the new ones are filled; after one with a reset all places are filled. |
| FressianTheorems.ResetLosesPlace | jepsen-main/jepsen/src/jepsen/store/FressianReader.java:940-946 | A stream with a reset inside a cached object that is never read. |
| FressianTheorems.ResetTakesPlace | jepsen-main/jepsen/src/jepsen/store/FressianReader.java:940-946 | A stream in which a cached object overwrites another one's place. |
| FressianTheorems.FooterThenObject | jepsen-main/jepsen/src/jepsen/store/FressianReader.java:666-671 | After a footer everything starts anew with empty caches, if and only if its length is that of the bytes since the last one and its checksum, for a reader that validates, is the one computed at that place. |
| FressianTheorems.ReadingCompletes | jepsen-main/jepsen/src/jepsen/store/FressianReader.java:884-896 | Every successful read takes at least one byte and leaves no cache place under construction, whatever is nested in it. |
| Fressian.ReadObject | jepsen-main/jepsen/src/jepsen/store/FressianReader.java:283-285 | On every finite input reading ends with a value or an error, each success takes a byte, and no place of a cache is left open. |
| Fressian.Read | jepsen-main/jepsen/src/jepsen/store/FressianReader.java:287-696 | The same for what follows a code. |
| Fressian.ReadAndCache | jepsen-main/jepsen/src/jepsen/store/FressianReader.java:940-946 | A cached object closes the place that it opened, or fails. |
| FressianBytes.IntRoundTrip | jepsen-main/jepsen/src/jepsen/store/FressianReader.java:287-449 | Each integer form gives back every integer that fits it. |
| FressianBytes.IntOnto | jepsen-main/jepsen/src/jepsen/store/FressianReader.java:287-449 | Each packed family is one to one onto a contiguous interval of signed integers: every code with its bytes is the form of the integer it is read as. |
| FressianBytes.ComposeOfBytes | jepsen-main/jepsen/src/jepsen/store/FressianReader.java:184-238 | Prefix and low bytes give back the integer, also a negative one. |
| FressianBytes.OrIsCompose | jepsen-main/jepsen/src/jepsen/store/FressianReader.java:184-238 | Or-ing the low bytes into the shifted prefix, as 64-bit words read with their sign, is the integer of prefix and bytes, also for a negative prefix. |
| Words.PrefixAndLow | jepsen-main/jepsen/src/jepsen/store/FressianReader.java:184-238 | On words: the same for any low bits below the shift. |
| Words.OrIsSum | jepsen-main/jepsen/src/jepsen/store/FressianReader.java:184-238 | Bit by bit, or-ing bits in below a number that ends in zeros adds them. |
| Words.OrBits | jepsen-main/jepsen/src/jepsen/store/FressianReader.java:184-238 | Each bit of the or is set exactly when it is set in one of the two numbers. |
| FressianRoundTrip.Back | jepsen-main/jepsen/src/jepsen/store/FressianReader.java:287-706 | The round trip with any bytes following and any number read before. |
| FressianRoundTrip.AllBack | jepsen-main/jepsen/src/jepsen/store/FressianReader.java:822-855 | Elements one after the other are read back alike by counted, closed and open lists. |
| FressianReader.FressianReader.Read | jepsen-main/jepsen/src/jepsen/store/FressianReader.java:287-696 | The switch, changing stream and caches in place, does what the function says, errors included. |
| FressianReader.FressianReader.ReadObject | jepsen-main/jepsen/src/jepsen/store/FressianReader.java:283-285 | The public read agrees with the function the theorems are about. |
| FressianReader.FressianReader.ReadInt | jepsen-main/jepsen/src/jepsen/store/FressianReader.java:71-256 | The same for reading an integer, by its own switch or else through an object. |
| FressianReader.FressianReader.ReadAndCache | jepsen-main/jepsen/src/jepsen/store/FressianReader.java:940-946 | A place is reserved before the nested read and filled by index after it. |
| FressianReader.FressianReader.ReadChunkedBytes | jepsen-main/jepsen/src/jepsen/store/FressianReader.java:771-793 | The loops over chunks give the concatenation of all chunks. |
| FressianReader.FressianReader.ReadChunkedString | jepsen-main/jepsen/src/jepsen/store/FressianReader.java:732-763 | The same for strings, with their three kinds of last chunk. |
| FressianReader.FressianReader.ReadOpenList | jepsen-main/jepsen/src/jepsen/store/FressianReader.java:841-855 | End of input ends an open list between elements, but not inside one. |
| FressianReader.FressianReader.ReadClosedList | jepsen-main/jepsen/src/jepsen/store/FressianReader.java:830-839 | A closed list ends at its end code only. |
| FressianReader.FressianReader.ReadPastFooter | jepsen-main/jepsen/src/jepsen/store/FressianReader.java:902-913 | Magic number, length and, for a reader that validates, checksum are checked, then counters and caches are reset and the next object read. |
| CorruptFile.Tiling | jepsen-main/jepsen/resources/corrupt-file.c:300-322 | For all valid options and file sizes the counted chunks are not empty, do not overlap and together are exactly the bytes from start to the end of region or file. |
| CorruptFile.Counted | jepsen-main/jepsen/resources/corrupt-file.c:305-322 | The count with its rounding: a chunk is counted exactly when it starts before the end of the region. |
| CorruptFile.VisitedSelected | jepsen-main/jepsen/resources/corrupt-file.c:363-363 | The stride loops visit selected chunks only, each once. |
| CorruptFile.SelectedVisited | jepsen-main/jepsen/resources/corrupt-file.c:363-363 | They miss none. |
| BitFlip.CorruptBitflip | jepsen-main/jepsen/resources/corrupt-file.c:564-670 | A bit differs afterwards exactly when it is in a selected chunk of the region and some sum of the drawn distances is its place on the tape of selected chunks laid end to end; bit k of a byte is the k-th from the lowest; the count returned is the number of bits that differ, so none is flipped twice. |
| BitFlip.ByteFlip | jepsen-main/jepsen/resources/corrupt-file.c:621-633 | Xor-ing a byte with the mask changes the bit that the program aims at, counted from the lowest, and no other. |
| BitFlip.FlippingTwice | jepsen-main/jepsen/resources/corrupt-file.c:605-661 | Repeating a run with the same draws restores the file. |
| BitFlip.OthersKept | jepsen-main/jepsen/resources/corrupt-file.c:605-621 | Bytes outside selected chunks, the region or the file are untouched. |
| BitFlip.EveryBitFlipped | jepsen-main/jepsen/resources/corrupt-file.c:605-661 | With the smallest distances every bit of every selected chunk in the region changes. |
| BitFlip.FlippedFile | jepsen-main/jepsen/resources/corrupt-file.c:564-670 | The draws decide the resulting file. |
| BitFlip.TapeBitInjective | jepsen-main/jepsen/resources/corrupt-file.c:600-612 | Different bits of selected chunks have different places on the tape, although chunks are spread out and the last may be short. |
| BitFlip.ArrivalGrows | jepsen-main/jepsen/resources/corrupt-file.c:642-656 | Forcing a distance of zero to one makes the arrivals strictly increase. |
| BitFlip.ArrivalSums | jepsen-main/jepsen/resources/corrupt-file.c:642-656 | The arrivals are the sums of the draws, and one more for each draw of zero after the first. |
| CopyChunks.RandSourceOffset | jepsen-main/jepsen/resources/corrupt-file.c:486-513 | Minus one exactly when there are fewer than two chunks, else the first drawn chunk that is acceptable; the rerolling ends whenever one is drawn at all. |
| CopyChunks.SourceExists | jepsen-main/jepsen/resources/corrupt-file.c:486-513 | With two chunks or more there is always an acceptable source, and drawing it is enough. |
| CopyChunks.AcceptableWhen | jepsen-main/jepsen/resources/corrupt-file.c:486-513 | A chunk may be copied from if and only if it is not selected, or all are selected and it is another one. |
| CopyChunks.CorruptCopy | jepsen-main/jepsen/resources/corrupt-file.c:516-561 | A visit is skipped if and only if its roll is above the probability, and otherwise copies from a legal source as its draws say, if there are two chunks; every byte afterwards is the byte that was at its origin before. |
| CopyChunks.Provenance | jepsen-main/jepsen/resources/corrupt-file.c:516-561 | Over a whole run every byte comes from the same distance into some counted chunk; unselected chunks and everything outside the region are untouched; and unless all chunks are selected, replacements come from unselected chunks only. |
| CopyChunks.VisitCopies | jepsen-main/jepsen/resources/corrupt-file.c:528-556 | What a visit leaves in its chunk at the end of the run, whatever the modulus: what was at the same distance in the source just before that visit, as far as the file goes. |
| CopyChunks.CleanCopy | jepsen-main/jepsen/resources/corrupt-file.c:528-556 | With clean chunks to copy from, a selected chunk holds, byte for byte, the old bytes of its source as far as the file goes, and otherwise its own. |
| CopyChunks.NoOverlap | jepsen-main/jepsen/resources/corrupt-file.c:545-549 | Source and destination ranges never overlap, so a copy within the file is always allowed. |
| CopyChunks.NeverReadsPast | jepsen-main/jepsen/resources/corrupt-file.c:486-561 | Every run fills the region from the region, if and only if the file ends with the region, or the chunks are all full, or nothing is copied, or the short last chunk is itself selected beside chunks that are not: a condition on options and file size. |
| CopyChunks.RunPast | jepsen-main/jepsen/resources/corrupt-file.c:528-549 | For all other options the rolls and draws of a whole run that copies the byte just past the region into it. |
| CopyChunks.StaysInRegion | jepsen-main/jepsen/resources/corrupt-file.c:528-549 | For one run: all bytes of the region come from the region if and only if each copy's source chunk is as long as its destination or the file ends with the region. |
| CopyChunks.CopyPastRegion | jepsen-main/jepsen/resources/corrupt-file.c:545-549 | A file, a region and a copy that brings in a byte from behind the region. |
| SnapshotRestore.CorruptSnapshot | jepsen-main/jepsen/resources/corrupt-file.c:337-411 | Each selected chunk is saved under its offsets clipped to the region, with its bytes; other snapshots stay as they were, and none is longer than its range. |
| SnapshotRestore.CorruptRestore | jepsen-main/jepsen/resources/corrupt-file.c:414-481 | Which byte every position has afterwards, given what the running end offset finds at each visit, including skipped visits and missing snapshots. |
| SnapshotRestore.SnapshotThenRestore | jepsen-main/jepsen/resources/corrupt-file.c:337-481 | Save, change the content, restore, with any skips and any older snapshots: a byte comes back exactly when its chunk is looked for under the name it was saved as. |
| SnapshotRestore.FreshSnapshotThenRestore | jepsen-main/jepsen/resources/corrupt-file.c:337-481 | Without older snapshots all other bytes keep their changed content, and the length stays. |
| SnapshotRestore.RecoversWhen | jepsen-main/jepsen/resources/corrupt-file.c:428-442 | For any rolls: the exact chunks that are found again, by how many rolls before theirs were not above the probability. |
| SnapshotRestore.EveryRunRecovers | jepsen-main/jepsen/resources/corrupt-file.c:428-442 | Whatever is rolled, every chunk that is not skipped is found again, if and only if the options and the file size say so: nothing selected, a region no longer than one chunk from the start of the file, or chunks counted from the start of the file of which only the first is selected, or all are with probability one. |
| SnapshotRestore.EverythingComesBack | jepsen-main/jepsen/resources/corrupt-file.c:436-442 | When nothing is skipped, all saved chunks are found again if and only if none is selected, or the region ends within the first chunk size of the file, or chunks are counted from the start of the file, starting with the first, and either all are selected or only the first is. |
| SnapshotRestore.WholeRegion | jepsen-main/jepsen/resources/corrupt-file.c:337-481 | With start 0, index 0, modulus 1 and nothing skipped the whole region comes back, with a short last chunk and a region end inside the file too. |
| SnapshotRestore.WritesInChunk | jepsen-main/jepsen/resources/corrupt-file.c:436-460 | The wrong end offset never makes a restore write outside the visited chunk. |
| StrobeTime.TimespecVar.Balance | jepsen-main/jepsen/resources/strobe-time.c:55-64 | The two overshooting loops end, in the one form with nanoseconds in [0, 10^9) and the same total. |
| StrobeTime.NanosToTimespec | jepsen-main/jepsen/resources/strobe-time.c:19-26 | The total is kept, less than a second of nanoseconds is left over, and both parts have the sign of the whole; the result is normal exactly for arguments that are not negative or are whole seconds. |
| StrobeTime.AddTimespec | jepsen-main/jepsen/resources/strobe-time.c:67-73 | Addition is exact on totals and normal. |
| StrobeTime.SubTimespec | jepsen-main/jepsen/resources/strobe-time.c:76-82 | Subtraction likewise. |
| StrobeTime.AddThenSub | jepsen-main/jepsen/resources/strobe-time.c:67-82 | They cancel on exactly the normal times. |
| StrobeTime.CmpReversed | jepsen-main/jepsen/resources/strobe-time.c:85-99 | On normal times the comparator is the reversed order of totals, and antisymmetric. |
| StrobeTime.Strobe | jepsen-main/jepsen/resources/strobe-time.c:113-148 | For any readings, delta, period and duration: each strobe sets the clock ahead of the real time by the delta, or right, in turn, after a check within the duration; at the end it is set right, the first wall time moved on by what the monotonic clock moved on, unless a sleep failed; then the exit code is 3 and the last strobe stands, with a negative period the first one. |
| StrobeTime.StrobesAlternate | jepsen-main/jepsen/resources/strobe-time.c:133-139 | The settings alternate between the real time plus delta and the real time, said of the clock readings. |
| ClusterConfig.QuorumsOverlap | Omnipax/benchmarks/omnipaxos_configs.py:28-71 | In every accepted configuration each read quorum and each write quorum have a node in common; that nodes are distinct comes from the match with the sorted server ids. |
| ClusterConfig.RefusedFor | Omnipax/benchmarks/omnipaxos_configs.py:25-71 | A configuration is refused for the first of the seven errors that applies, each said by itself, and accepted if and only if none does. |
| ClusterConfig.AnyClusterAccepted | Omnipax/benchmarks/omnipaxos_configs.py:25-71 | Any set of servers, any leader among them and any clients named after servers make an accepted configuration. |
| ClusterConfig.RefusedQuorumsMiss | Omnipax/benchmarks/omnipaxos_configs.py:37-40 | The overlap check refuses no more than it must: refused sizes admit quorums that miss each other. |
| ClusterConfig.QuorumExists | Omnipax/benchmarks/omnipaxos_configs.py:28-40 | Quorums of a size exist exactly up to the number of nodes. |
| ClusterConfig.UnmeetableAccepted | Omnipax/benchmarks/omnipaxos_configs.py:28-40 | A configuration with a read quorum larger than the cluster is accepted. |
| ClusterConfig.ClientsAccountedFor | Omnipax/benchmarks/omnipaxos_configs.py:42-60 | The clients that servers wait for are all clients, if and only if each client's server exists. |
| ClusterConfig.StrayClientAccepted | Omnipax/benchmarks/omnipaxos_configs.py:42-60 | A configuration with a client whose server does not exist is accepted, and no server waits for it. |
| ClusterConfig.UpdatesKeep | Omnipax/benchmarks/omnipaxos_configs.py:73-77 | After any chain of accepted updates the configuration passes all checks and keeps its servers and clients. |
| ClusterConfig.UpdatesAccepted | Omnipax/benchmarks/omnipaxos_configs.py:73-77 | A chain of updates is accepted if and only if each of them passes the checks with the servers and clients there are. |

## Left out

- The OmniPaxos protocol itself (elections, prepare, accept, log synchronisation): a dependency that is not part of this model; see "What is assumed".
- Servers that restart with empty memory, and the liveness of consensus: `Progress` says that completing is possible, not that it happens.
- TCP, framing, serialisation, tokio tasks, HTTP routing, timers, logging, and the establishment of the first leader.
- The HTTP side of the shim: an invocation is recorded when the shim takes a request up and a return when it hands the answer over, so the intervals of HTTP clients contain those of the model; a caller that went away is not distinguished from one that was answered.
- A shim that dies, and the order in which a connection's two directions fail: each fails by itself, at any time.
- Clients other than the shim; the shim never sends `Delete`, though servers handle it.
- Widths of `u64` and `usize` counters (client ids, request numbers, decided indices): unbounded.
- Benchmark client, data collection, GCP, SSH, graphing, Docker and shell scripts.
- The Fressian `Codes` constants are those of the org.fressian library, which is not part of the repository; handlers of the library or the user for struct tags (a tag with a handler gives `ExternalHandler`), UTF-8 decoding (strings are bytes), the meaning of float bits (except the two doubles with a code of their own), the Adler checksum itself (whether readers validate it is a parameter, and so is the value it has at each position), limits on memory for announced lengths, and `readBoolean`, `readDouble`, `readFloat` and the public `validateFooter`.
- FressianInverse.Inverse: counts that are read through an object or a cache reference are not described by an encoding.
- FressianReader.FressianReader.Read: the state of the reader after an exception is not specified.
- Argument parsing, paths, `mkdir`, open and close, I/O errors and partial copies of the file corrupter; the snapshot files of one file are a map from offsets to bytes, which holds nothing longer than its range.
- The distributions of random draws: a distance is any natural number and a chunk draw any natural number taken modulo the count; `lrand48` reaches no chunk past number 2^31.
- `off_t` overflow, and the statistics printed at the end, apart from the number of flipped bits.
- BitFlip.CorruptBitflip: the byte offset, always the bit offset divided by eight, is not kept as a variable of its own, and the inner loop is a method.
- StrobeTime.Strobe: the loop is a method of its own.
- Width and wrap-around of `int64_t` in the clock arithmetic, argument parsing through `atof`, and failures of the clock calls.
- `bump-time.c`, which repeats the balancing loops, and `strobe-time-experiment.c`, which does not compile as written.
- Which server a wrong client count is reported for, and the texts of configuration errors; defaults of the consensus library when no flexible quorum is given.
