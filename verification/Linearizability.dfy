/** Linearizability of a history of calls on a map, stated without any reference to logs, servers, messages or the
    database: in a sequential order of the calls, a read gets what the last write before it put. */
module Linearizability {
  import opened Wrappers
  import opened Kv

  datatype Event =
    | Invoke(call: nat, op: KVCommand)
    | Return(call: nat, reply: Option<Option<string>>)

  /** One call of a sequential execution with its reply. */
  datatype Entry = Entry(call: nat, op: KVCommand, reply: Option<Option<string>>)

  predicate WritesTo(op: KVCommand, k: string) {
    (op.Put? || op.Delete?) && op.key == k
  }

  /** The last place before `i` that writes `k`, or -1. */
  predicate LastWriteBefore(w: seq<Entry>, i: nat, k: string, j: int) {
    && -1 <= j < i <= |w|
    && (j >= 0 ==> WritesTo(w[j].op, k))
    && forall m :: j < m < i ==> !WritesTo(w[m].op, k)
  }

  /** A read gets the value that the last write to its key put there: nothing, if there is none before it or if that
      was a delete. A write gets no value. */
  ghost predicate LegalAt(w: seq<Entry>, i: nat)
    requires i < |w|
  {
    match w[i].op
    case Get(k) =>
      exists j :: LastWriteBefore(w, i, k, j)
                  && w[i].reply == Some(if j >= 0 && w[j].op.Put? then Some(w[j].op.value) else None)
    case _ => w[i].reply == None
  }

  /** The calls, run one after the other from nothing, get these replies. */
  ghost predicate Legal(w: seq<Entry>) {
    forall i :: 0 <= i < |w| ==> LegalAt(w, i)
  }

  /** Every call is invoked once, and returns at most once, after its invocation. */
  ghost predicate WellFormed(h: seq<Event>) {
    && (forall s, t :: 0 <= s < t < |h| && h[s].Invoke? && h[t].Invoke? ==> h[s].call != h[t].call)
    && (forall s, t :: 0 <= s < t < |h| && h[s].Return? && h[t].Return? ==> h[s].call != h[t].call)
    && (forall t :: 0 <= t < |h| && h[t].Return? ==> exists s :: 0 <= s < t && h[s].Invoke? && h[s].call == h[t].call)
  }

  /** `w` is a legal order of the calls in `h`: every completed call is in it with the reply it got, a
      pending call may be, no call is twice, and a call that returned before another was invoked
      comes before it. */
  ghost predicate IsLinearization(h: seq<Event>, w: seq<Entry>) {
    && Legal(w)
    && (forall i, j :: 0 <= i < j < |w| ==> w[i].call != w[j].call)
    && (forall i :: 0 <= i < |w| ==> Invoke(w[i].call, w[i].op) in h)
    && (forall t :: 0 <= t < |h| && h[t].Return? ==>
          exists i :: 0 <= i < |w| && w[i].call == h[t].call && w[i].reply == h[t].reply)
    && (forall s, t, i, j ::
          (0 <= s < t < |h| && h[s].Return? && h[t].Invoke? && 0 <= i < |w| && 0 <= j < |w| &&
           w[i].call == h[s].call && w[j].call == h[t].call)
          ==> i < j)
  }

  ghost predicate Linearizable(h: seq<Event>) {
    WellFormed(h) && exists w :: IsLinearization(h, w)
  }
}
