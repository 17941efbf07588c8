/** The HTTP shim: it numbers each request, parks the caller under that number, and wakes it when the
    matching answer arrives. A caller (the reply channel of one HTTP request) is a number. */
module Shim {
  import opened Wrappers
  import opened Kv
  import opened Server

  type Call = nat

  /** The end of request `id`: what its caller is told, nothing for a write, the value found for a read. */
  datatype Completion = Completion(id: CommandId, call: Call, reply: Option<Option<string>>)

  datatype ShimState = ShimState(
    started: bool,
    nextRequestId: CommandId,
    pendingPut: map<CommandId, Call>,
    pendingGet: map<CommandId, Call>)
  {
    /** Requests are numbered upwards, and one number waits for one kind of answer. */
    ghost predicate Valid() {
      && (forall id :: id in pendingPut ==> id < nextRequestId)
      && (forall id :: id in pendingGet ==> id < nextRequestId)
      && pendingPut.Keys !! pendingGet.Keys
    }
  }

  const NEW_SHIM := ShimState(false, 0, map[], map[])

  function SubmitPut(s: ShimState, key: string, value: string, replyTo: Call): (ShimState, ClientMessage) {
    (s.(nextRequestId := s.nextRequestId + 1, pendingPut := s.pendingPut[s.nextRequestId := replyTo]),
     Append(s.nextRequestId, Put(key, value)))
  }

  function SubmitGet(s: ShimState, key: string, replyTo: Call): (ShimState, ClientMessage) {
    (s.(nextRequestId := s.nextRequestId + 1, pendingGet := s.pendingGet[s.nextRequestId := replyTo]),
     Append(s.nextRequestId, Get(key)))
  }

  /** Until the start signal everything is discarded; afterwards an answer wakes the caller parked
      under its number, if there still is one waiting for that kind of answer. */
  function Receive(s: ShimState, m: ServerMessage): (ShimState, Option<Completion>) {
    if !s.started then (s.(started := m.StartSignal?), None)
    else
      match m
      case Write(id) =>
        if id in s.pendingPut then (s.(pendingPut := s.pendingPut - {id}), Some(Completion(id, s.pendingPut[id], None)))
        else (s, None)
      case Read(id, value) =>
        if id in s.pendingGet then
          (s.(pendingGet := s.pendingGet - {id}), Some(Completion(id, s.pendingGet[id], Some(value))))
        else (s, None)
      case StartSignal(_) => (s, None)
  }

  /** Exactly which callers a message wakes, and with what: the one parked for that kind of answer under its number,
      once the shim has started. Nothing else starts a shim than a start signal. */
  lemma ReceiveWakes(s: ShimState, m: ServerMessage, c: Completion)
    ensures Receive(s, m).1 == Some(c) <==>
            && s.started && !m.StartSignal? && m.id == c.id
            && if m.Write? then c.id in s.pendingPut && c.call == s.pendingPut[c.id] && c.reply == None
               else c.id in s.pendingGet && c.call == s.pendingGet[c.id] && c.reply == Some(m.value)
    ensures Receive(s, m).0.started <==> s.started || m.StartSignal?
    ensures Receive(s, m).0.pendingPut == if s.started && m.Write? then s.pendingPut - {m.id} else s.pendingPut
    ensures Receive(s, m).0.pendingGet == if s.started && m.Read? then s.pendingGet - {m.id} else s.pendingGet
    ensures Receive(s, m).0.nextRequestId == s.nextRequestId
  {
    assert m.Write? && m.id !in s.pendingPut ==> s.pendingPut - {m.id} == s.pendingPut;
    assert m.Read? && m.id !in s.pendingGet ==> s.pendingGet - {m.id} == s.pendingGet;
  }

  /** A caller that was woken is no longer waiting, so the same answer again wakes nobody. */
  lemma ReceiveTwice(s: ShimState, m: ServerMessage)
    requires s.Valid() && s.started
    ensures Receive(s, m).0.Valid()
    ensures Receive(Receive(s, m).0, m) == (Receive(s, m).0, None)
  {
  }

  class ApiShim {
    var started: bool
    var nextRequestId: CommandId
    var pendingPut: map<CommandId, Call>
    var pendingGet: map<CommandId, Call>
    // Messages handed to the network, and callers woken, in order.
    var outbox: seq<ClientMessage>
    var completed: seq<Completion>

    ghost function View(): ShimState
      reads this
    {
      ShimState(started, nextRequestId, pendingPut, pendingGet)
    }

    constructor ()
      ensures View() == NEW_SHIM == ShimState(false, 0, map[], map[]) && outbox == [] && completed == []
    {
      started, nextRequestId, pendingPut, pendingGet, outbox, completed := false, 0, map[], map[], [], [];
    }

    method HandlePut(key: string, value: string, replyTo: Call)
      requires View().Valid()
      modifies this
      ensures View().Valid()
      ensures View() == SubmitPut(old(View()), key, value, replyTo).0
      ensures outbox == old(outbox) + [SubmitPut(old(View()), key, value, replyTo).1] && completed == old(completed)
      ensures nextRequestId == old(nextRequestId) + 1 && started == old(started)
      ensures pendingPut == old(pendingPut)[old(nextRequestId) := replyTo] && pendingGet == old(pendingGet)
      ensures outbox == old(outbox) + [Append(old(nextRequestId), Put(key, value))]
    {
      var requestId := nextRequestId;
      nextRequestId := nextRequestId + 1;
      pendingPut := pendingPut[requestId := replyTo];
      outbox := outbox + [Append(requestId, Put(key, value))];
    }

    method HandleGet(key: string, replyTo: Call)
      requires View().Valid()
      modifies this
      ensures View().Valid()
      ensures View() == SubmitGet(old(View()), key, replyTo).0
      ensures outbox == old(outbox) + [SubmitGet(old(View()), key, replyTo).1] && completed == old(completed)
      ensures nextRequestId == old(nextRequestId) + 1 && started == old(started)
      ensures pendingGet == old(pendingGet)[old(nextRequestId) := replyTo] && pendingPut == old(pendingPut)
      ensures outbox == old(outbox) + [Append(old(nextRequestId), Get(key))]
    {
      var requestId := nextRequestId;
      nextRequestId := nextRequestId + 1;
      pendingGet := pendingGet[requestId := replyTo];
      outbox := outbox + [Append(requestId, Get(key))];
    }

    method HandleServerMessage(m: ServerMessage)
      requires View().Valid()
      modifies this
      ensures View().Valid()
      ensures View() == Receive(old(View()), m).0 && outbox == old(outbox)
      ensures completed == old(completed) +
                           match Receive(old(View()), m).1 case Some(c) => [c] case None => []
    {
      if !started {
        started := m.StartSignal?;
        return;
      }
      match m {
        case Write(id) =>
          if id in pendingPut {
            completed := completed + [Completion(id, pendingPut[id], None)];
            pendingPut := pendingPut - {id};
          }
        case Read(id, value) =>
          if id in pendingGet {
            completed := completed + [Completion(id, pendingGet[id], Some(value))];
            pendingGet := pendingGet - {id};
          }
        case StartSignal(_) =>
      }
    }
  }
}
