/** The replicated map: the commands of the log, what one command does to the map and what it
    answers, and the `Database` object that applies commands in place. */
module Kv {

  import opened Wrappers

  type ClientId = nat
  type NodeId = nat
  type CommandId = nat
  type Store = map<string, string>

  datatype KVCommand = Put(key: string, value: string) | Delete(key: string) | Get(key: string)

  /** A log entry: the request of a client, tagged by the server that proposed it. */
  datatype Command = Command(clientId: ClientId, coordinatorId: NodeId, id: CommandId, kvCmd: KVCommand)

  /** The sequential map. */
  function Apply(db: Store, c: KVCommand): Store {
    match c
    case Put(k, v) => db[k := v]
    case Delete(k) => db - {k}
    case Get(_) => db
  }

  /** Updates answer nothing; a read answers what the map holds, possibly nothing. */
  function Reply(db: Store, c: KVCommand): Option<Option<string>> {
    match c
    case Put(_, _) => None
    case Delete(_) => None
    case Get(k) => Some(Lookup(db, k))
  }

  predicate WritesKey(c: KVCommand, k: string) {
    !c.Get? && c.key == k
  }

  /** What a write leaves at its key. */
  function Leaves(c: KVCommand): Option<string> {
    match c
    case Put(_, v) => Some(v)
    case _ => None
  }

  /** The map after a log is applied to `db` in order. */
  function Replay(db: Store, log: seq<Command>): Store {
    if log == [] then db
    else Apply(Replay(db, log[..|log| - 1]), log[|log| - 1].kvCmd)
  }

  /** However a log is cut in two batches, applying them one after the other is the same. */
  lemma {:induction false} ReplayBatches(db: Store, a: seq<Command>, b: seq<Command>)
    ensures Replay(db, a + b) == Replay(Replay(db, a), b)
    decreases |b|
  {
    if b == [] {
      assert a + b == a;
    } else {
      var front := b[..|b| - 1];
      assert (a + b)[..|a + b| - 1] == a + front;
      ReplayBatches(db, a, front);
    }
  }

  // ---- One key ----

  /** The writes to `k`, in order. */
  function Writes(entries: seq<Command>, k: string): seq<KVCommand> {
    if entries == [] then []
    else
      var c := entries[|entries| - 1].kvCmd;
      Writes(entries[..|entries| - 1], k) + if WritesKey(c, k) then [c] else []
  }

  /** What the last write leaves. */
  function Left(ws: seq<KVCommand>): Option<string>
    requires ws != []
  {
    Leaves(ws[|ws| - 1])
  }

  lemma {:induction false} ReplayOfKey(db: Store, b: seq<Command>, k: string)
    ensures
      var ws := Writes(b, k);
      Lookup(Replay(db, b), k) ==
      if ws == [] then Lookup(db, k) else Left(ws)
    decreases |b|
  {
    if b != [] {
      ReplayOfKey(db, b[..|b| - 1], k);
    }
  }

  /** A read after a log answers what the last write to its key left, and without one what was there before. */
  lemma ReadsLastWrite(db: Store, log: seq<Command>, k: string)
    ensures
      var ws := Writes(log, k);
      Reply(Replay(db, log), Get(k)) == Some(if ws == [] then Lookup(db, k) else Left(ws))
  {
    ReplayOfKey(db, log, k);
  }

  /** The last place of the log that writes `k`, or -1. */
  predicate LastWrite(log: seq<Command>, k: string, j: int) {
    && -1 <= j < |log|
    && (j >= 0 ==> WritesKey(log[j].kvCmd, k))
    && forall m :: j < m < |log| ==> !WritesKey(log[m].kvCmd, k)
  }

  /** The same by places of the log. */
  lemma {:induction false} ReadsLastPlace(log: seq<Command>, k: string) returns (j: int)
    ensures LastWrite(log, k, j)
    ensures Reply(Replay(map[], log), Get(k)) == Some(if j < 0 then None else Leaves(log[j].kvCmd))
    decreases |log|
  {
    var last := |log| - 1;
    if log == [] || WritesKey(log[last].kvCmd, k) {
      j := last;
    } else {
      j := ReadsLastPlace(log[..last], k);
    }
  }

  class Database {
    var db: Store

    constructor ()
      ensures db == map[]
    {
      db := map[];
    }

    method HandleCommand(command: KVCommand) returns (read: Option<Option<string>>)
      modifies this
      ensures db == Apply(old(db), command) && read == Reply(old(db), command)
      ensures forall k :: Lookup(db, k) == if WritesKey(command, k) then Leaves(command) else Lookup(old(db), k)
      ensures read == if command.Get? then Some(Lookup(old(db), command.key)) else None
    {
      match command {
        case Put(key, value) =>
          db := db[key := value];
          read := None;
        case Delete(key) =>
          db := db - {key};
          read := None;
        case Get(key) =>
          read := Some(Lookup(db, key));
      }
    }
  }
}
