/** Servers take messages off the network by the buffer. Handling a whole buffer is a run of the system, one step for
    each message in turn, so that what holds of every run holds of the handlers that servers run. */
module Buffers {
  import opened Kv
  import opened Server
  import opened Cluster
  import opened Progress

  /** The requests of a buffer, on their way to the server. */
  function Envelopes(n: NodeId, ms: seq<(ClientId, ClientMessage)>): (es: seq<Envelope>)
    ensures |es| == |ms| && forall i :: 0 <= i < |ms| ==> es[i] == Envelope(n, ms[i].0, ms[i].1)
  {
    seq(|ms|, i requires 0 <= i < |ms| => Envelope(n, ms[i].0, ms[i].1))
  }

  function Repeated(step: Step, k: nat): seq<Step> {
    if k == 0 then [] else Repeated(step, k - 1) + [step]
  }

  /** The commands of a buffer of requests, each with the client that it came from, and this server. */
  function Commands(n: NodeId, ms: seq<(ClientId, ClientMessage)>): (cs: seq<Command>)
    ensures |cs| == |ms|
    ensures forall i :: 0 <= i < |ms| ==> cs[i] == Command(ms[i].0, n, ms[i].1.id, ms[i].1.kvCmd)
  {
    seq(|ms|, i requires 0 <= i < |ms| => Command(ms[i].0, n, ms[i].1.id, ms[i].1.kvCmd))
  }

  /** A buffer of requests is proposed as it is: all of them, once, in order. */
  lemma {:induction false} AppendsAll(r: Replica, ms: seq<(ClientId, ClientMessage)>)
    ensures AppendAll(r, ms) == r.(proposed := r.proposed + Commands(r.id, ms))
    decreases |ms|
  {
    if ms != [] {
      var front := ms[..|ms| - 1];
      AppendsAll(r, front);
      assert Commands(r.id, ms) == Commands(r.id, front) + [Commands(r.id, ms)[|front|]];
    } else {
      assert r.proposed + Commands(r.id, ms) == r.proposed;
    }
  }

  /** The state after a buffer of requests that lay together on the wire was taken. */
  function Taken(s: System, n: NodeId, ms: seq<(ClientId, ClientMessage)>, wire: seq<Envelope>): System
    requires n in s.servers
  {
    s.(toServer := wire, servers := s.servers[n := AppendAll(s.servers[n], ms)],
       pool := s.pool + multiset(Commands(n, ms)))
  }

  /** One request more, from wherever the server stands. */
  lemma TakeOne(s: System, n: NodeId, e: Envelope, before: seq<Envelope>, after: seq<Envelope>)
    requires Running(s, n) && e.server == n && s.toServer == before + [e] + after
    ensures
      && Enabled(s, TakeRequest(|before|))
      && Do(s, TakeRequest(|before|)) ==
         s.(toServer := before + after, servers := s.servers[n := AppendToLog(s.servers[n], e.client, e.msg)],
            pool := s.pool + multiset{Tag(n, e.client, e.msg)})
  {
    var wire := s.toServer;
    assert wire[|before|] == e && wire[..|before|] + wire[|before| + 1..] == before + after;
  }

  lemma TakenOne(s: System, n: NodeId, ms: seq<(ClientId, ClientMessage)>, before: seq<Envelope>, after: seq<Envelope>)
    requires Running(s, n) && ms != []
    ensures
      var last := ms[|ms| - 1];
      var t := Taken(s, n, ms[..|ms| - 1], before + [Envelope(n, last.0, last.1)] + after);
      Enabled(t, TakeRequest(|before|)) && Do(t, TakeRequest(|before|)) == Taken(s, n, ms, before + after)
  {
    var front, last := ms[..|ms| - 1], ms[|ms| - 1];
    var e := Envelope(n, last.0, last.1);
    TakeOne(Taken(s, n, front, before + [e] + after), n, e, before, after);
    assert Commands(n, ms) == Commands(n, front) + [Tag(n, last.0, last.1)];
    assert s.pool + multiset(Commands(n, ms))
        == s.pool + multiset(Commands(n, front)) + multiset{Tag(n, last.0, last.1)};
    OneServer(s.servers, n, AppendAll(s.servers[n], front), AppendAll(s.servers[n], ms));
  }

  lemma OneServer(servers: map<NodeId, Replica>, n: NodeId, r: Replica, r': Replica)
    ensures servers[n := r][n := r'] == servers[n := r']
  {
  }

  /** Handling a buffer of requests is taking them from the wire one by one. */
  lemma {:induction false} TakenInTurn(s: System, n: NodeId, ms: seq<(ClientId, ClientMessage)>,
                                       before: seq<Envelope>, after: seq<Envelope>)
    requires Running(s, n) && s.toServer == before + Envelopes(n, ms) + after
    ensures IsRun(s, Repeated(TakeRequest(|before|), |ms|), Taken(s, n, ms, before + after))
    decreases |ms|
  {
    if ms == [] {
      assert s.toServer == before + after && Taken(s, n, ms, before + after) == s;
    } else {
      var front, last := ms[..|ms| - 1], ms[|ms| - 1];
      var e := Envelope(n, last.0, last.1);
      assert before + Envelopes(n, ms) + after == before + Envelopes(n, front) + ([e] + after);
      TakenInTurn(s, n, front, before, [e] + after);
      assert before + ([e] + after) == before + [e] + after;
      TakenOne(s, n, ms, before, after);
      var t := Taken(s, n, front, before + [e] + after);
      RunOn(s, Repeated(TakeRequest(|before|), |front|), t, TakeRequest(|before|));
    }
  }

  /** All that a buffer of messages from peers adds to the decided log. */
  function Learnt(ms: seq<ClusterMessage>): seq<Command> {
    if ms == [] then []
    else
      var last := ms[|ms| - 1];
      Learnt(ms[..|ms| - 1]) + if last.OmniPaxosMessage? then last.decides else []
  }

  function PeerMessages(n: NodeId, ms: seq<ClusterMessage>): (steps: seq<Step>)
    ensures |steps| == |ms| && forall i :: 0 <= i < |ms| ==> steps[i] == PeerMessage(n, ms[i])
  {
    seq(|ms|, i requires 0 <= i < |ms| => PeerMessage(n, ms[i]))
  }

  function Heard(s: System, n: NodeId, ms: seq<ClusterMessage>): System
    requires n in s.servers
  {
    s.(servers := s.servers[n := HandleClusterAll(s.servers[n], ms)])
  }

  lemma {:induction false} LearnsAll(r: Replica, ms: seq<ClusterMessage>)
    ensures HandleClusterAll(r, ms).decided == r.decided + Learnt(ms)
    decreases |ms|
  {
    if ms != [] {
      LearnsAll(r, ms[..|ms| - 1]);
      HandleClusterFrame(HandleClusterAll(r, ms[..|ms| - 1]), ms[|ms| - 1]);
    }
  }

  /** One message more, from wherever the server stands. */
  lemma HearOne(s: System, n: NodeId, r: Replica, m: ClusterMessage)
    requires Running(s, n) && HasPeer(s, n) && (m.OmniPaxosMessage? ==> r.decided + m.decides <= s.log)
    ensures
      var t := s.(servers := s.servers[n := r]);
      && Enabled(t, PeerMessage(n, m))
      && Do(t, PeerMessage(n, m)) == s.(servers := s.servers[n := HandleCluster(r, m)])
  {
    PeersStay(s, s.(servers := s.servers[n := r]), n);
    OneServer(s.servers, n, r, HandleCluster(r, m));
  }

  lemma LastLearnt(r: Replica, ms: seq<ClusterMessage>, log: seq<Command>)
    requires ms != [] && r.decided + Learnt(ms) <= log
    ensures r.decided + Learnt(ms[..|ms| - 1]) <= log
    ensures ms[|ms| - 1].OmniPaxosMessage? ==>
              HandleClusterAll(r, ms[..|ms| - 1]).decided + ms[|ms| - 1].decides <= log
  {
    LearnsAll(r, ms[..|ms| - 1]);
    Regroup(r.decided, Learnt(ms[..|ms| - 1]),
            if ms[|ms| - 1].OmniPaxosMessage? then ms[|ms| - 1].decides else []);
  }

  lemma Regroup<T>(a: seq<T>, b: seq<T>, c: seq<T>)
    ensures a + b + c == a + (b + c)
  {
  }

  lemma PeerMessagesNext(n: NodeId, ms: seq<ClusterMessage>)
    requires ms != []
    ensures PeerMessages(n, ms) == PeerMessages(n, ms[..|ms| - 1]) + [PeerMessage(n, ms[|ms| - 1])]
  {
  }

  lemma HeardThen(s: System, n: NodeId, ms: seq<ClusterMessage>)
    requires Running(s, n) && HasPeer(s, n) && ms != [] && s.servers[n].decided + Learnt(ms) <= s.log
    requires IsRun(s, PeerMessages(n, ms[..|ms| - 1]), Heard(s, n, ms[..|ms| - 1]))
    ensures IsRun(s, PeerMessages(n, ms), Heard(s, n, ms))
  {
    var front, last := ms[..|ms| - 1], ms[|ms| - 1];
    LastLearnt(s.servers[n], ms, s.log);
    HearOne(s, n, HandleClusterAll(s.servers[n], front), last);
    RunOn(s, PeerMessages(n, front), Heard(s, n, front), PeerMessage(n, last));
    PeerMessagesNext(n, ms);
  }

  /** Handling a buffer of messages from peers is hearing them one by one, whatever each of them decides. */
  lemma {:induction false} HeardInTurn(s: System, n: NodeId, ms: seq<ClusterMessage>)
    requires Running(s, n) && HasPeer(s, n) && s.servers[n].decided + Learnt(ms) <= s.log
    ensures IsRun(s, PeerMessages(n, ms), Heard(s, n, ms))
    decreases |ms|
  {
    if ms == [] {
      assert Heard(s, n, ms) == s;
    } else {
      LastLearnt(s.servers[n], ms, s.log);
      HeardInTurn(s, n, ms[..|ms| - 1]);
      HeardThen(s, n, ms);
    }
  }
}
