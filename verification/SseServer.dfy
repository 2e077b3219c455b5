/**
  The transport as an object: the methods that run under one lock, with the loops of
  BroadcastEvent and Stop.  Each is proved to be a step, or a run, of the labelled system.
 */
module SseServer {
  import opened SseTransport

  ghost predicate Reaches(s: State, s': State) {
    exists tr: seq<State>, ls: seq<Label> :: Execution(tr, ls) && tr[0] == s && tr[|ls|] == s'
  }

  lemma Stay(s: State)
    ensures Reaches(s, s)
  {
    assert Execution([s], []) && [s][0] == s;
  }

  lemma Advance(s: State, s': State, l: Label)
    requires Reaches(s, s') && Enabled(s', l)
    ensures Reaches(s, Step(s', l))
  {
    var tr: seq<State>, ls: seq<Label> :| Execution(tr, ls) && tr[0] == s && tr[|ls|] == s';
    var tr', ls' := tr + [Step(s', l)], ls + [l];
    assert forall i {:trigger ls'[i]} | 0 <= i < |ls| :: ls'[i] == ls[i];
    assert Execution(tr', ls') && tr'[0] == s && tr'[|ls'|] == Step(s', l);
  }

  /** Visits left to make by a broadcast of number 0. */
  function Visited(s: State, e: Event, remaining: set<string>): State {
    s.(broadcasts := s.broadcasts[0 := Broadcast(e, remaining)])
  }

  /** The connections once every mapped session outside `remaining` has been offered the event. */
  function Offered(conns: map<nat, Conn>, clients: map<string, nat>, e: Event, remaining: set<string>): map<nat, Conn> {
    map c | c in conns ::
      if c in clients.Values && conns[c].session !in remaining && |conns[c].events| < EVENT_CAPACITY
      then conns[c].(events := conns[c].events + [e]) else conns[c]
  }

  lemma NobodyOffered(s: State, e: Event)
    requires ClientsSound(s)
    ensures Offered(s.conns, s.clients, e, s.clients.Keys) == s.conns
  {
    forall c | c in s.clients.Values ensures c in s.conns && s.conns[c].session in s.clients {
      var k :| k in s.clients && s.clients[k] == c;
      assert Live(s, s.clients[k]);
    }
  }

  lemma OneMoreOffered(s: State, e: Event, remaining: set<string>, session: string)
    requires ClientsSound(s) && remaining <= s.clients.Keys && session in remaining
    ensures var c := s.clients[session];
            var before := Offered(s.conns, s.clients, e, remaining);
            var after := Offered(s.conns, s.clients, e, remaining - {session});
            && c in s.conns && before[c] == s.conns[c] && !s.conns[c].phase.Closed?
            && after == if |s.conns[c].events| < EVENT_CAPACITY
                        then before[c := s.conns[c].(events := s.conns[c].events + [e])] else before
  {
    var c := s.clients[session];
    assert Live(s, c) && s.conns[c].session == session;
    assert c in s.clients.Values;
    forall d | d in s.clients.Values && d != c ensures d in s.conns && s.conns[d].session != session {
      var k :| k in s.clients && s.clients[k] == d;
      assert Live(s, s.clients[k]);
    }
  }

  function Visiting(s: State, e: Event, remaining: set<string>): State {
    Visited(s.(conns := Offered(s.conns, s.clients, e, remaining)), e, remaining)
  }

  lemma VisitStep(s: State, e: Event, remaining: set<string>, session: string)
    requires ClientsSound(s) && !s.panicked && remaining <= s.clients.Keys && session in remaining
    ensures Enabled(Visiting(s, e, remaining), BroadcastTo(0, session))
    ensures Step(Visiting(s, e, remaining), BroadcastTo(0, session)) == Visiting(s, e, remaining - {session})
  {
    OneMoreOffered(s, e, remaining, session);
    var left := remaining - {session};
    assert s.broadcasts[0 := Broadcast(e, remaining)][0 := Broadcast(e, left)] == s.broadcasts[0 := Broadcast(e, left)];
  }

  /** One visit of a broadcast is a step of the system. */
  lemma VisitIsAStep(s: State, e: Event, remaining: set<string>, session: string)
    requires ClientsSound(s) && !s.panicked && remaining <= s.clients.Keys && session in remaining
    requires Reaches(s, Visiting(s, e, remaining))
    ensures Reaches(s, Visiting(s, e, remaining - {session}))
  {
    VisitStep(s, e, remaining, session);
    Advance(s, Visiting(s, e, remaining), BroadcastTo(0, session));
  }

  lemma BroadcastBegins(s: State, e: Event)
    requires ClientsSound(s) && !s.panicked && s.broadcasts == map[]
    ensures Reaches(s, Visiting(s, e, s.clients.Keys))
  {
    Stay(s);
    Advance(s, s, BeginBroadcast(0, e));
    NobodyOffered(s, e);
  }

  lemma BroadcastEnds(s: State, e: Event)
    requires !s.panicked && s.broadcasts == map[] && Reaches(s, Visiting(s, e, {}))
    ensures Reaches(s, s.(conns := Offered(s.conns, s.clients, e, {})))
  {
    Advance(s, Visiting(s, e, {}), EndBroadcast(0));
    assert Step(Visiting(s, e, {}), EndBroadcast(0)) == s.(conns := Offered(s.conns, s.clients, e, {}));
  }

  /** The connections once Stop has closed Done for every mapped session outside `remaining`. */
  function Signalled(conns: map<nat, Conn>, clients: map<string, nat>, remaining: set<string>): map<nat, Conn> {
    map c | c in conns ::
      if c in clients.Values && conns[c].session !in remaining then conns[c].(done := true) else conns[c]
  }

  lemma OneMoreSignalled(s: State, remaining: set<string>, session: string)
    requires ClientsSound(s) && remaining <= s.clients.Keys && session in remaining
    ensures var c := s.clients[session];
            var before := Signalled(s.conns, s.clients, remaining);
            var after := Signalled(s.conns, s.clients, remaining - {session});
            && c in s.conns && before[c] == s.conns[c]
            && after == before[c := s.conns[c].(done := true)]
  {
    var c := s.clients[session];
    assert Live(s, c) && s.conns[c].session == session;
    assert c in s.clients.Values;
    forall d | d in s.clients.Values && d != c ensures d in s.conns && s.conns[d].session != session {
      var k :| k in s.clients && s.clients[k] == d;
      assert Live(s, s.clients[k]);
    }
  }

  lemma NobodySignalled(s: State)
    requires ClientsSound(s)
    ensures Signalled(s.conns, s.clients, s.clients.Keys) == s.conns
  {
    forall c | c in s.clients.Values ensures c in s.conns && s.conns[c].session in s.clients {
      var k :| k in s.clients && s.clients[k] == c;
      assert Live(s, s.clients[k]);
    }
  }

  lemma SignalledTwice(s: State, k: string)
    requires !s.panicked && s.broadcasts == map[]
    requires k in s.clients && s.clients[k] in s.conns && s.conns[s.clients[k]].done
    ensures Step(s, Stop).panicked
  {
  }

  lemma EveryoneSignalled(s: State)
    requires !s.panicked && s.broadcasts == map[]
    requires forall k | k in s.clients && s.clients[k] in s.conns :: !s.conns[s.clients[k]].done
    ensures Step(s, Stop) == s.(conns := Signalled(s.conns, s.clients, {}))
  {
  }

  /** What a Send changes, written out: the channel takes the response, or is full. */
  function Sent(s: State, h: nat, r: Response, q: nat): State
    requires q in s.channels
  {
    var t := s.(senders := s.senders - {h});
    if |s.channels[q]| < QUEUE_CAPACITY then
      t.(channels := s.channels[q := s.channels[q] + [r]], log := s.log.(accepted := s.log.accepted + [r]))
    else t.(log := s.log.(dropped := s.log.dropped + [r]))
  }

  lemma SentIsARun(s: State, h: nat, r: Response, q: nat)
    requires !s.panicked && h in s.senders && s.senders[h] == Answering(r)
    requires r.session in s.messageQueues && q == s.messageQueues[r.session] && q in s.channels
    ensures Reaches(s, Sent(s, h, r, q))
  {
    Stay(s);
    Advance(s, s, Lookup(h));
    Advance(s, Step(s, Lookup(h)), Send(h));
    assert s.senders[h := Routed(r, q)] - {h} == s.senders - {h};
  }

  /** No session but the one of the channel sees the difference. */
  lemma SentToItsQueue(s: State, h: nat, r: Response, q: nat, k: string)
    requires QueuesDistinct(s) && r.session in s.messageQueues && q == s.messageQueues[r.session]
    ensures QueueOf(s, r.session) == s.channels[q]
    ensures QueueOf(Sent(s, h, r, q), k)
         == QueueOf(s, k) + (if k == r.session && |s.channels[q]| < QUEUE_CAPACITY then [r] else [])
  {
  }

  lemma UnroutedIsARun(s: State, h: nat, r: Response)
    requires !s.panicked && h in s.senders && s.senders[h] == Answering(r) && r.session !in s.messageQueues
    ensures Reaches(s, s.(senders := s.senders - {h}, log := s.log.(unrouted := s.log.unrouted + [r])))
  {
    Stay(s);
    Advance(s, s, Lookup(h));
  }

  class SSETransport {
    var clients: map<string, nat>
    var messageQueues: map<string, nat>
    var channels: map<nat, seq<Response>>   // the channels by number
    var conns: map<nat, Conn>               // the connections by number
    ghost var senders: map<nat, Sender>
    ghost var log: Log

    ghost function Model(): State
      reads this
    {
      State(clients, messageQueues, channels, conns, senders, map[], false, log)
    }

    constructor ()
      ensures Init(Model())
    {
      clients, messageQueues, channels, conns := map[], map[], map[], map[];
      senders, log := map[], Log([], [], [], [], []);
    }

    method RegisterClient(c: nat)
      requires Enabled(Model(), Register(c))
      modifies this`conns, this`clients
      ensures Model() == Step(old(Model()), Register(c))
    {
      clients := clients[conns[c].session := c];
      conns := conns[c := conns[c].(phase := Registered)];
    }

    method BindQueue(c: nat, channel: nat)
      requires Enabled(Model(), Bind(c, channel))
      modifies this`conns, this`messageQueues, this`channels
      ensures Model() == Step(old(Model()), Bind(c, channel))
    {
      var session := conns[c].session;
      if session !in messageQueues {
        messageQueues, channels := messageQueues[session := channel], channels[channel := []];
      }
      conns := conns[c := conns[c].(phase := Serving, queue := messageQueues[session])];
    }

    /** The cases of the event loop that write to the response. */
    method ServeMessage(c: nat) returns (r: Response)
      requires Enabled(Model(), TakeMessage(c))
      modifies this`channels, this`log
      ensures Model() == Step(old(Model()), TakeMessage(c))
      ensures log.taken == old(log).taken + [Delivery(c, r)]
      ensures conns[c].queue in channels && old(channels)[conns[c].queue] == [r] + channels[conns[c].queue]
    {
      var q := conns[c].queue;
      r := channels[q][0];
      channels, log := channels[q := channels[q][1..]], log.(taken := log.taken + [Delivery(c, r)]);
    }

    method ServeEvent(c: nat) returns (e: Event)
      requires Enabled(Model(), TakeEvent(c))
      modifies this`conns
      ensures Model() == Step(old(Model()), TakeEvent(c))
      ensures c in conns && old(conns[c].events) == [e] + conns[c].events
    {
      e := conns[c].events[0];
      conns := conns[c := conns[c].(events := conns[c].events[1..])];
    }

    /** The deferred clean-up of handleSSE. */
    method Disconnect(c: nat)
      requires Enabled(Model(), Leave(c))
      modifies this`conns, this`clients
      ensures Reaches(old(Model()), Model())
      ensures In(Model(), c, Closed) && clients == old(clients) - {old(conns[c].session)}
      ensures messageQueues == old(messageQueues) && channels == old(channels)
    {
      ghost var s := Model();
      Stay(s);
      Advance(s, s, Leave(c));
      Advance(s, Step(s, Leave(c)), CloseEvents(c));
      clients := clients - {conns[c].session};
      conns := conns[c := conns[c].(phase := Unmapped)];
      assert Model() == Step(s, Leave(c));
      conns := conns[c := conns[c].(phase := Closed)];
    }

    /** sendSSEResponse run without interruption, by RPC handler `h`. */
    method SendResponse(ghost h: nat, r: Response) returns (queued: bool)
      requires h in senders && senders[h] == Answering(r) && QueuesDistinct(Model())
      modifies this`channels, this`senders, this`log
      ensures Reaches(old(Model()), Model())
      ensures queued <==> r.session in messageQueues && |QueueOf(old(Model()), r.session)| < 100
      ensures QueueOf(Model(), r.session) == QueueOf(old(Model()), r.session) + (if queued then [r] else [])
      ensures forall k | k != r.session :: QueueOf(Model(), k) == QueueOf(old(Model()), k)
    {
      if r.session in messageQueues {
        SentIsARun(Model(), h, r, messageQueues[r.session]);
        queued := Enqueue(h, r, messageQueues[r.session]);
      } else {
        UnroutedIsARun(Model(), h, r);
        senders, log := senders - {h}, log.(unrouted := log.unrouted + [r]);
        queued := false;
      }
    }

    /** The send on the channel that the session's queue is, `q`. */
    method Enqueue(ghost h: nat, r: Response, q: nat) returns (queued: bool)
      requires QueuesDistinct(Model()) && r.session in messageQueues && q == messageQueues[r.session]
      modifies this`channels, this`senders, this`log
      ensures Model() == Sent(old(Model()), h, r, q)
      ensures queued <==> |QueueOf(old(Model()), r.session)| < QUEUE_CAPACITY
      ensures forall k :: QueueOf(Model(), k)
                       == QueueOf(old(Model()), k) + (if queued && k == r.session then [r] else [])
    {
      ghost var s := Model();
      forall k
        ensures QueueOf(s, r.session) == channels[q]
        ensures QueueOf(Sent(s, h, r, q), k)
             == QueueOf(s, k) + (if k == r.session && |channels[q]| < QUEUE_CAPACITY then [r] else [])
      {
        SentToItsQueue(s, h, r, q, k);
      }
      senders := senders - {h};
      queued := |channels[q]| < QUEUE_CAPACITY;
      if queued {
        channels, log := channels[q := channels[q] + [r]], log.(accepted := log.accepted + [r]);
      } else {
        log := log.(dropped := log.dropped + [r]);
      }
    }

    /** Every mapped client with room receives the event, nobody else is touched, and no send
        meets a closed channel. */
    method BroadcastEvent(event: Event)
      requires ClientsSound(Model())
      modifies this`conns
      ensures Reaches(old(Model()), Model())
      ensures conns.Keys == old(conns).Keys
      ensures forall c | c in conns ::
                conns[c] == if c in clients.Values && |old(conns)[c].events| < 10
                            then old(conns)[c].(events := old(conns)[c].events + [event]) else old(conns)[c]
    {
      ghost var s := Model();
      var remaining := clients.Keys;
      BroadcastBegins(s, event);
      NobodyOffered(s, event);
      while remaining != {}
        invariant remaining <= clients.Keys && conns == Offered(s.conns, clients, event, remaining)
        invariant Reaches(s, Visiting(s, event, remaining))
        decreases |remaining|
      {
        var session :| session in remaining;
        VisitIsAStep(s, event, remaining, session);
        OneMoreOffered(s, event, remaining, session);
        var c := clients[session];
        if |conns[c].events| < EVENT_CAPACITY {
          conns := conns[c := conns[c].(events := conns[c].events + [event])];
        }
        remaining := remaining - {session};
      }
      BroadcastEnds(s, event);
    }

    /** The loop of Stop.  It `panics` at a session whose Done channel is already closed, with the
        sessions in `remaining` not yet visited and all the others signalled. */
    method StopClients() returns (panics: bool, ghost remaining: set<string>)
      requires ClientsSound(Model())
      modifies this`conns
      ensures if panics then Step(old(Model()), Stop).panicked else Model() == Step(old(Model()), Stop)
      ensures remaining <= clients.Keys && conns.Keys == old(conns).Keys
      ensures forall c | c in conns ::
                conns[c] == if c in clients.Values && conns[c].session !in remaining
                            then old(conns)[c].(done := true) else old(conns)[c]
      ensures if panics then exists k :: k in remaining && Done(old(Model()), clients[k]) else remaining == {}
    {
      ghost var s := Model();
      var toVisit := clients.Keys;
      NobodySignalled(s);
      while toVisit != {}
        invariant toVisit <= clients.Keys && conns == Signalled(s.conns, clients, toVisit)
        invariant forall k | k in clients && k !in toVisit && clients[k] in s.conns :: !s.conns[clients[k]].done
        decreases |toVisit|
      {
        var session :| session in toVisit;
        OneMoreSignalled(s, toVisit, session);
        var c := clients[session];
        if conns[c].done {
          SignalledTwice(s, session);
          return true, toVisit;
        }
        conns := conns[c := conns[c].(done := true)];
        toVisit := toVisit - {session};
      }
      EveryoneSignalled(s);
      return false, {};
    }
  }
}
