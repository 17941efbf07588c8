/** `KVSnapshot`: a second way of giving a log its meaning. `Create` condenses a batch of commands and
    `Merge` applies the result to an earlier snapshot. The two do not always agree with applying the
    batch to the map, and this module says exactly when they do. */
module Snapshot {
  import opened Wrappers
  import opened Kv

  datatype Delta = Delta(snapshotted: Store, deletedKeys: seq<string>)

  // ---- What `Create` and `Merge` compute ----

  /** The loop of `Create`: the keys held, and each key deleted while it was not held. */
  function Scan(entries: seq<Command>): Delta {
    if entries == [] then Delta(map[], [])
    else
      var d := Scan(entries[..|entries| - 1]);
      match entries[|entries| - 1].kvCmd
      case Put(k, v) => d.(snapshotted := d.snapshotted[k := v])
      case Delete(k) =>
        if k in d.snapshotted then d.(snapshotted := d.snapshotted - {k}) else d.(deletedKeys := d.deletedKeys + [k])
      case Get(_) => d
  }

  function Retain(keys: seq<string>, held: Store): seq<string> {
    if keys == [] then []
    else Retain(keys[..|keys| - 1], held) + if keys[|keys| - 1] in held then [] else [keys[|keys| - 1]]
  }

  function Condense(entries: seq<Command>): Delta {
    var d := Scan(entries);
    d.(deletedKeys := Retain(d.deletedKeys, d.snapshotted))
  }

  /** Deletions come last, so a key that is both given a value and marked is gone. */
  function MergeInto(db: Store, d: Delta): (merged: Store)
    ensures forall k :: Lookup(merged, k) ==
              if k in d.deletedKeys then None else if k in d.snapshotted then Some(d.snapshotted[k]) else Lookup(db, k)
  {
    (db + d.snapshotted) - Elements(d.deletedKeys)
  }

  class KVSnapshot {
    var snapshotted: Store
    var deletedKeys: seq<string>

    ghost function View(): Delta
      reads this
    {
      Delta(snapshotted, deletedKeys)
    }

    constructor Create(entries: seq<Command>)
      ensures View() == Condense(entries)
    {
      var held: Store := map[];
      var deleted: seq<string> := [];
      for i := 0 to |entries|
        invariant Delta(held, deleted) == Scan(entries[..i])
      {
        assert entries[..i + 1][..i] == entries[..i];
        match entries[i].kvCmd {
          case Put(key, value) =>
            held := held[key := value];
          case Delete(key) =>
            if key in held {
              held := held - {key};
            } else {
              deleted := deleted + [key];
            }
          case Get(_) =>
        }
      }
      assert entries[..|entries|] == entries;
      var kept: seq<string> := [];
      for i := 0 to |deleted|
        invariant kept == Retain(deleted[..i], held)
      {
        assert deleted[..i + 1][..i] == deleted[..i];
        if deleted[i] !in held {
          kept := kept + [deleted[i]];
        }
      }
      assert deleted[..|deleted|] == deleted;
      snapshotted, deletedKeys := held, kept;
    }

    /** The order in which a hash map is walked does not matter. */
    method Merge(delta: Delta)
      modifies this
      ensures View() == Delta(MergeInto(old(snapshotted), delta), [])
      ensures forall k :: Lookup(snapshotted, k) ==
                if k in delta.deletedKeys then None
                else if k in delta.snapshotted then Some(delta.snapshotted[k])
                else Lookup(old(snapshotted), k)
    {
      var todo := delta.snapshotted.Keys;
      while todo != {}
        invariant todo <= delta.snapshotted.Keys
        invariant snapshotted == old(snapshotted) + (delta.snapshotted - todo)
        decreases todo
      {
        var k :| k in todo;
        snapshotted := snapshotted[k := delta.snapshotted[k]];
        todo := todo - {k};
      }
      ghost var merged := snapshotted;
      assert merged == old(snapshotted) + delta.snapshotted;
      for i := 0 to |delta.deletedKeys|
        invariant snapshotted == merged - Elements(delta.deletedKeys[..i])
      {
        assert Elements(delta.deletedKeys[..i + 1]) == Elements(delta.deletedKeys[..i]) + {delta.deletedKeys[i]};
        snapshotted := snapshotted - {delta.deletedKeys[i]};
      }
      assert delta.deletedKeys[..|delta.deletedKeys|] == delta.deletedKeys;
      deletedKeys := [];
    }
  }

  // ---- What a batch writes to one key ----

  predicate EndsInDelete(ws: seq<KVCommand>) {
    ws != [] && ws[|ws| - 1].Delete?
  }

  /** Some delete finds the key absent: it is the first write, or follows another delete. */
  predicate FindsAbsent(ws: seq<KVCommand>) {
    exists i :: 0 <= i < |ws| && ws[i].Delete? && (i == 0 || ws[i - 1].Delete?)
  }

  /** The batch leaves `k` deleted, but each of its deletes comes directly after a put of `k`, so no
      trace of the deletion is kept. */
  predicate Forgotten(entries: seq<Command>, k: string) {
    var ws := Writes(entries, k);
    EndsInDelete(ws) && forall i :: 0 <= i < |ws| && ws[i].Delete? ==> i > 0 && ws[i - 1].Put?
  }

  lemma {:induction false} ScanOfKey(b: seq<Command>, k: string)
    ensures
      var ws := Writes(b, k);
      && Scan(b).snapshotted == Replay(map[], b)
      && (k in Scan(b).deletedKeys <==> FindsAbsent(ws))
      && (forall i :: 0 <= i < |ws| ==> ws[i].Put? || ws[i].Delete?)
    decreases |b|
  {
    if b != [] {
      var front := b[..|b| - 1];
      var c := b[|b| - 1].kvCmd;
      ScanOfKey(front, k);
      ReplayOfKey(map[], front, k);
      var ws, vs := Writes(b, k), Writes(front, k);
      if WritesKey(c, k) {
        assert ws == vs + [c];
        AbsentGrows(vs, c);
      } else {
        assert ws == vs;
      }
    }
  }

  lemma AbsentGrows(vs: seq<KVCommand>, c: KVCommand)
    ensures FindsAbsent(vs + [c]) <==> FindsAbsent(vs) || (c.Delete? && (vs == [] || vs[|vs| - 1].Delete?))
  {
    var ws := vs + [c];
    assert forall i :: 0 <= i < |vs| ==> ws[i] == vs[i];
    if FindsAbsent(vs) {
      var i :| 0 <= i < |vs| && vs[i].Delete? && (i == 0 || vs[i - 1].Delete?);
      assert ws[i].Delete? && (i == 0 || ws[i - 1].Delete?);
    }
    if c.Delete? && (vs == [] || vs[|vs| - 1].Delete?) {
      assert ws[|vs|].Delete? && (|vs| == 0 || ws[|vs| - 1].Delete?);
    }
  }

  lemma {:induction false} RetainMember(keys: seq<string>, held: Store, k: string)
    ensures k in Retain(keys, held) <==> k in keys && k !in held
    decreases |keys|
  {
    if keys != [] {
      RetainMember(keys[..|keys| - 1], held, k);
    }
  }

  /** What `Create` keeps of one key: its value if the batch leaves it with one, and otherwise a
      deletion mark if some delete found the key absent. */
  lemma CondenseOfKey(b: seq<Command>, k: string)
    ensures
      var d := Condense(b);
      && d.snapshotted == Replay(map[], b)
      && (k in d.deletedKeys <==> EndsInDelete(Writes(b, k)) && !Forgotten(b, k))
      && (k in d.deletedKeys ==> k !in d.snapshotted)
  {
    var ws := Writes(b, k);
    ScanOfKey(b, k);
    ReplayOfKey(map[], b, k);
    RetainMember(Scan(b).deletedKeys, Scan(b).snapshotted, k);
  }

  /** For every log, the snapshot of the whole log holds exactly what the database holds after it, and
      its deletion marks are the absent keys that some delete found absent. */
  lemma SnapshotEqualsDatabase(log: seq<Command>)
    ensures Condense(log).snapshotted == Replay(map[], log)
    ensures forall k :: k in Condense(log).deletedKeys <==> k !in Replay(map[], log) && FindsAbsent(Writes(log, k))
  {
    CondenseOfKey(log, "");
    forall k ensures k in Condense(log).deletedKeys <==> k !in Replay(map[], log) && FindsAbsent(Writes(log, k)) {
      ScanOfKey(log, k);
      RetainMember(Scan(log).deletedKeys, Scan(log).snapshotted, k);
    }
  }

  // ---- The marks, in order ----

  /** The delete at this place finds its key absent. */
  predicate DeletesAbsent(b: seq<Command>, i: nat)
    requires i < |b|
  {
    b[i].kvCmd.Delete? && b[i].kvCmd.key !in Replay(map[], b[..i])
  }

  /** The keys of the first `n` commands' deletes that find their key absent, in order, those held in the end left
      out. */
  function Marks(b: seq<Command>, n: nat, held: Store): seq<string>
    requires n <= |b|
  {
    if n == 0 then []
    else
      var key := b[n - 1].kvCmd.key;
      Marks(b, n - 1, held) + if DeletesAbsent(b, n - 1) && key !in held then [key] else []
  }

  lemma {:induction false} ScanMarks(b: seq<Command>, n: nat)
    requires n <= |b|
    ensures Scan(b[..n]).deletedKeys == Marks(b, n, map[])
    decreases n
  {
    if n > 0 {
      ScanMarks(b, n - 1);
      assert b[..n][..n - 1] == b[..n - 1];
      ScanOfKey(b[..n - 1], "");
    }
  }

  lemma {:induction false} RetainMarks(b: seq<Command>, n: nat, held: Store)
    requires n <= |b|
    ensures Retain(Marks(b, n, map[]), held) == Marks(b, n, held)
    decreases n
  {
    if n > 0 {
      RetainMarks(b, n - 1, held);
      var front := Marks(b, n - 1, map[]);
      if DeletesAbsent(b, n - 1) {
        RetainLast(front, b[n - 1].kvCmd.key, held);
      } else {
        assert front + [] == front && Marks(b, n - 1, held) + [] == Marks(b, n - 1, held);
      }
    }
  }

  lemma RetainLast(keys: seq<string>, key: string, held: Store)
    ensures Retain(keys + [key], held) == Retain(keys, held) + if key in held then [] else [key]
  {
    assert (keys + [key])[..|keys|] == keys;
  }

  /** The marks of a batch, with their order and number: one for each delete that finds its key absent, if the batch
      leaves it absent. */
  lemma MarksInOrder(b: seq<Command>)
    ensures Condense(b).deletedKeys == Marks(b, |b|, Replay(map[], b))
  {
    assert b[..|b|] == b;
    ScanOfKey(b, "");
    ScanMarks(b, |b|);
    RetainMarks(b, |b|, Scan(b).snapshotted);
  }

  // ---- One merge ----

  lemma MergeOfKey(db: Store, b: seq<Command>, k: string)
    ensures
      Lookup(MergeInto(db, Condense(b)), k) == Lookup(Replay(db, b), k)
      <==> !(k in db && Forgotten(b, k))
  {
    CondenseOfKey(b, k);
    ReplayOfKey(map[], b, k);
    ReplayOfKey(db, b, k);
    ScanOfKey(b, k);
  }

  lemma SameStore(a: Store, b: Store)
    ensures a == b <==> forall k :: Lookup(a, k) == Lookup(b, k)
  {
    if forall k :: Lookup(a, k) == Lookup(b, k) {
      forall k ensures k in a <==> k in b {
        assert Lookup(a, k) == Lookup(b, k);
      }
      forall k | k in a ensures a[k] == b[k] {
        assert Lookup(a, k) == Lookup(b, k);
      }
    }
  }

  /** Merging the snapshot of a batch is the same as applying the batch, if and only if the batch
      forgets no deletion of a key that is held. */
  lemma MergeFaithful(db: Store, b: seq<Command>)
    ensures MergeInto(db, Condense(b)) == Replay(db, b) <==> forall k :: k in db ==> !Forgotten(b, k)
  {
    SameStore(MergeInto(db, Condense(b)), Replay(db, b));
    forall k
      ensures Lookup(MergeInto(db, Condense(b)), k) == Lookup(Replay(db, b), k) <==> !(k in db && Forgotten(b, k))
    {
      MergeOfKey(db, b, k);
    }
  }

  /** A put followed by a delete in one batch is enough to resurrect an old value. */
  lemma MergeResurrects()
    ensures
      var b := [Command(1, 1, 0, Put("x", "new")), Command(1, 1, 1, Delete("x"))];
      var db := map["x" := "old"];
      MergeInto(db, Condense(b)) == db && Replay(db, b) == map[]
  {
    var b := [Command(1, 1, 0, Put("x", "new")), Command(1, 1, 1, Delete("x"))];
    assert b[..1] == [b[0]] && b[..1][..0] == [];
    assert Scan(b[..1]) == Delta(map["x" := "new"], []);
    assert Scan(b) == Delta(map[], []);
    assert Replay(map["x" := "old"], b[..1]) == map["x" := "new"];
  }

  lemma {:induction false} NoDeleteNothingForgotten(b: seq<Command>, k: string)
    requires forall c :: c in b ==> !c.kvCmd.Delete?
    ensures forall i :: 0 <= i < |Writes(b, k)| ==> Writes(b, k)[i].Put?
    decreases |b|
  {
    if b != [] {
      NoDeleteNothingForgotten(b[..|b| - 1], k);
    }
  }

  // ---- Many batches ----

  function Concat(batches: seq<seq<Command>>): seq<Command> {
    if batches == [] then [] else Concat(batches[..|batches| - 1]) + batches[|batches| - 1]
  }

  function MergeAll(db: Store, batches: seq<seq<Command>>): Store {
    if batches == [] then db
    else MergeInto(MergeAll(db, batches[..|batches| - 1]), Condense(batches[|batches| - 1]))
  }

  /** Whether a key is held after these batches are merged, by the writes to it alone: the last batch that writes
      it and does not forget its deletion decides. */
  predicate Held(db: Store, batches: seq<seq<Command>>, k: string) {
    if batches == [] then k in db
    else
      var last := batches[|batches| - 1];
      if Writes(last, k) == [] || Forgotten(last, k) then Held(db, batches[..|batches| - 1], k)
      else !EndsInDelete(Writes(last, k))
  }

  lemma {:induction false} HeldAfterMerges(db: Store, batches: seq<seq<Command>>, k: string)
    ensures k in MergeAll(db, batches) <==> Held(db, batches, k)
    decreases |batches|
  {
    if batches != [] {
      var front, last := batches[..|batches| - 1], batches[|batches| - 1];
      HeldAfterMerges(db, front, k);
      MergeStep(MergeAll(db, front), last, k);
      LeftOrDeleted(last, k);
    }
  }

  /** Batch `n` forgets a deletion of `k`, which is held by then, and no later batch writes `k`. */
  ghost predicate Stale(db: Store, batches: seq<seq<Command>>, k: string, n: nat) {
    && n < |batches| && Forgotten(batches[n], k) && Held(db, batches[..n], k)
    && forall m :: n < m < |batches| ==> Writes(batches[m], k) == []
  }

  ghost predicate LeftStale(db: Store, batches: seq<seq<Command>>, k: string) {
    exists n :: Stale(db, batches, k, n)
  }

  /** A last batch that does not write `k` leaves it as it was; one that does decides alone. */
  lemma StaleStep(db: Store, batches: seq<seq<Command>>, k: string)
    requires batches != []
    ensures
      var end := |batches| - 1;
      LeftStale(db, batches, k) <==>
      if Writes(batches[end], k) == [] then LeftStale(db, batches[..end], k)
      else Forgotten(batches[end], k) && Held(db, batches[..end], k)
  {
    var end := |batches| - 1;
    if Writes(batches[end], k) == [] {
      forall n: nat | n < end ensures Stale(db, batches[..end], k, n) <==> Stale(db, batches, k, n) {
        assert batches[..end][..n] == batches[..n];
      }
    } else {
      assert Stale(db, batches, k, end) <==> Forgotten(batches[end], k) && Held(db, batches[..end], k);
      forall n | Stale(db, batches, k, n) ensures n == end {
      }
    }
  }

  lemma {:induction false} MergeAllOfKey(db: Store, batches: seq<seq<Command>>, k: string)
    ensures Lookup(MergeAll(db, batches), k) == Lookup(Replay(db, Concat(batches)), k)
            <==> !LeftStale(db, batches, k)
    decreases |batches|
  {
    if batches != [] {
      var end := |batches| - 1;
      var front, last := batches[..end], batches[end];
      MergeAllOfKey(db, front, k);
      StaleStep(db, batches, k);
      HeldAfterMerges(db, front, k);
      MergeStep(MergeAll(db, front), last, k);
      ReplayBatches(db, Concat(front), last);
      ReplayOfKey(Replay(db, Concat(front)), last, k);
    }
  }

  lemma MergeStep(db: Store, b: seq<Command>, k: string)
    ensures
      var ws := Writes(b, k);
      Lookup(MergeInto(db, Condense(b)), k) ==
      if ws == [] || Forgotten(b, k) then Lookup(db, k)
      else Left(ws)
  {
    CondenseOfKey(b, k);
    ReplayOfKey(map[], b, k);
    ScanOfKey(b, k);
  }

  /** Merging any number of snapshots one after the other is applying the whole log, if and only if no
      batch leaves a stale key that no later batch writes. */
  lemma MergeAllFaithful(db: Store, batches: seq<seq<Command>>)
    ensures MergeAll(db, batches) == Replay(db, Concat(batches))
            <==> forall k :: !LeftStale(db, batches, k)
  {
    SameStore(MergeAll(db, batches), Replay(db, Concat(batches)));
    forall k ensures Lookup(MergeAll(db, batches), k) == Lookup(Replay(db, Concat(batches)), k)
                     <==> !LeftStale(db, batches, k)
    {
      MergeAllOfKey(db, batches, k);
    }
  }

  /** Without deletes there is nothing to forget, however the log is cut. */
  lemma DeleteFreeFaithful(db: Store, batches: seq<seq<Command>>)
    requires forall n, c :: 0 <= n < |batches| && c in batches[n] ==> !c.kvCmd.Delete?
    ensures MergeAll(db, batches) == Replay(db, Concat(batches))
  {
    forall k, n | 0 <= n < |batches| ensures !Forgotten(batches[n], k) {
      NoDeleteNothingForgotten(batches[n], k);
    }
    MergeAllFaithful(db, batches);
  }

  lemma MergedDeltaOfKey(db: Store, a: seq<Command>, b: seq<Command>, k: string)
    ensures
      var held := MergeInto(Condense(a).snapshotted, Condense(b));
      Lookup(MergeInto(db, Delta(held, [])), k) == Lookup(Replay(db, a + b), k)
      <==> !(k in Replay(map[], a) && Forgotten(b, k)) && !(k in db && EndsInDelete(Writes(a + b, k)))
  {
    CondenseOfKey(a, k);
    WritesAppend(a, b, k);
    MergeStep(Replay(map[], a), b, k);
    ReplayOfKey(map[], a, k);
    ReplayOfKey(db, a + b, k);
    LeftOrDeleted(a, k);
    LeftOrDeleted(b, k);
    OverlayOfKey(db, MergeInto(Condense(a).snapshotted, Condense(b)), k);
  }

  lemma LeftOrDeleted(b: seq<Command>, k: string)
    ensures Writes(b, k) != [] ==> (EndsInDelete(Writes(b, k)) <==> Left(Writes(b, k)).None?)
    ensures Forgotten(b, k) ==> EndsInDelete(Writes(b, k))
  {
    ScanOfKey(b, k);
  }

  lemma OverlayOfKey(db: Store, held: Store, k: string)
    ensures Lookup(MergeInto(db, Delta(held, [])), k) == if k in held then Lookup(held, k) else Lookup(db, k)
  {
  }

  /** A snapshot that has itself been merged into keeps no deletion mark. As a delta it stands for its
      two batches if and only if the second forgot no key of the first, and no key held is left deleted
      by the two together. */
  lemma MergedDeltaFaithful(db: Store, a: seq<Command>, b: seq<Command>)
    ensures
      var merged := Delta(MergeInto(Condense(a).snapshotted, Condense(b)), []);
      MergeInto(db, merged) == Replay(db, a + b)
      <==> forall k :: !(k in Replay(map[], a) && Forgotten(b, k)) && !(k in db && EndsInDelete(Writes(a + b, k)))
  {
    var merged := Delta(MergeInto(Condense(a).snapshotted, Condense(b)), []);
    SameStore(MergeInto(db, merged), Replay(db, a + b));
    forall k
      ensures Lookup(MergeInto(db, merged), k) == Lookup(Replay(db, a + b), k)
              <==> !(k in Replay(map[], a) && Forgotten(b, k)) && !(k in db && EndsInDelete(Writes(a + b, k)))
    {
      MergedDeltaOfKey(db, a, b, k);
    }
  }

  lemma SomeBatch(db: Store, batches: seq<seq<Command>>, k: string)
    requires LeftStale(db, batches, k)
    ensures batches != []
  {
  }

  lemma EndsAppend(a: seq<Command>, b: seq<Command>, k: string)
    ensures EndsInDelete(Writes(a + b, k))
       <==> EndsInDelete(if Writes(b, k) == [] then Writes(a, k) else Writes(b, k))
  {
    WritesAppend(a, b, k);
    assert Writes(a, k) + [] == Writes(a, k);
  }

  /** A key that is left stale is one that the whole log leaves deleted. */
  lemma {:induction false} StaleIsDeleted(db: Store, batches: seq<seq<Command>>, k: string)
    requires LeftStale(db, batches, k)
    ensures EndsInDelete(Writes(Concat(batches), k))
    decreases |batches|
  {
    SomeBatch(db, batches, k);
    var end := |batches| - 1;
    StaleStep(db, batches, k);
    EndsAppend(Concat(batches[..end]), batches[end], k);
    if Writes(batches[end], k) == [] {
      StaleIsDeleted(db, batches[..end], k);
    }
  }

  lemma MergedDeltasOfKey(db: Store, batches: seq<seq<Command>>, k: string)
    ensures
      Lookup(MergeInto(db, Delta(MergeAll(map[], batches), [])), k) == Lookup(Replay(db, Concat(batches)), k)
      <==> !LeftStale(map[], batches, k) && !(k in db && EndsInDelete(Writes(Concat(batches), k)))
  {
    var log := Concat(batches);
    MergeAllOfKey(map[], batches, k);
    ReplayOfKey(map[], log, k);
    ReplayOfKey(db, log, k);
    LeftOrDeleted(log, k);
    OverlayOfKey(db, MergeAll(map[], batches), k);
    if LeftStale(map[], batches, k) {
      StaleIsDeleted(map[], batches, k);
    }
  }

  /** For any number of batches merged into one snapshot: as a delta it stands for all of them if and only if none
      of them leaves a stale key, and no key held is left deleted by them together. */
  lemma MergedDeltasFaithful(db: Store, batches: seq<seq<Command>>)
    ensures
      MergeInto(db, Delta(MergeAll(map[], batches), [])) == Replay(db, Concat(batches))
      <==> forall k :: !LeftStale(map[], batches, k) && !(k in db && EndsInDelete(Writes(Concat(batches), k)))
  {
    var merged := Delta(MergeAll(map[], batches), []);
    SameStore(MergeInto(db, merged), Replay(db, Concat(batches)));
    forall k
      ensures Lookup(MergeInto(db, merged), k) == Lookup(Replay(db, Concat(batches)), k)
              <==> !LeftStale(map[], batches, k) && !(k in db && EndsInDelete(Writes(Concat(batches), k)))
    {
      MergedDeltasOfKey(db, batches, k);
    }
  }

  /** A batch with one delete, merged with an empty one: the deletion is lost. */
  lemma MergedDeltaResurrects()
    ensures
      var a := [Command(1, 1, 0, Delete("x"))];
      var db := map["x" := "old"];
      && MergeInto(db, Condense(a)) == Replay(db, a + []) == map[]
      && MergeInto(db, Delta(MergeInto(Condense(a).snapshotted, Condense([])), [])) == db
  {
    var a := [Command(1, 1, 0, Delete("x"))];
    var db := map["x" := "old"];
    assert a + [] == a && a[..0] == [];
    assert Scan(a) == Delta(map[], ["x"]);
    assert Condense(a) == Delta(map[], ["x"]) by {
      assert ["x"][..0] == [];
    }
    assert Replay(db, a) == map[];
  }

  lemma {:induction false} WritesAppend(a: seq<Command>, b: seq<Command>, k: string)
    ensures Writes(a + b, k) == Writes(a, k) + Writes(b, k)
    decreases |b|
  {
    if b == [] {
      assert a + b == a;
    } else {
      assert (a + b)[..|a + b| - 1] == a + b[..|b| - 1];
      WritesAppend(a, b[..|b| - 1], k);
    }
  }
}
