/**
  The SSE transport as a labelled step system: any number of `/events` connections, RPC
  handlers and broadcasts interleave at the lock and channel operations of the source.
  Connections and channels are named by numbers, so that a connection that captured a
  channel keeps it whatever the maps later say.
 */
module SseTransport {

  const QUEUE_CAPACITY := 100
  const EVENT_CAPACITY := 10

  /** A JSON-RPC response, with the session whose request it answers. */
  datatype Response = Response(session: string, body: string)

  datatype Event = Event(data: string)

  datatype Phase =
    | Created      // client struct made, not yet in the clients map
    | Registered   // in the map's section, message queue not yet bound
    | Serving      // in the event loop
    | Unmapped     // left the loop and deleted its map entry
    | Closed       // EventChannel closed

  datatype Conn = Conn(session: string, phase: Phase, queue: nat, events: seq<Event>, done: bool)

  /** An RPC handler between the request handler's return and the end of sendSSEResponse. */
  datatype Sender = Answering(response: Response) | Routed(response: Response, queue: nat)

  /** A broadcast holding the read lock, with the sessions it has not visited. */
  datatype Broadcast = Broadcast(event: Event, remaining: set<string>)

  datatype Delivery = Delivery(conn: nat, response: Response)

  /** History, not kept by the program. */
  datatype Log = Log(
    produced: seq<Response>,   // returned by the request handler
    accepted: seq<Response>,   // taken by a message queue
    dropped: seq<Response>,    // found the queue full
    unrouted: seq<Response>,   // found no queue for the session
    taken: seq<Delivery>)      // received by a connection

  datatype State = State(
    clients: map<string, nat>,
    messageQueues: map<string, nat>,
    channels: map<nat, seq<Response>>,
    conns: map<nat, Conn>,
    senders: map<nat, Sender>,
    broadcasts: map<nat, Broadcast>,
    panicked: bool,
    log: Log)

  datatype Label =
    | Connect(c: nat, session: string)
    | Register(c: nat)
    | Bind(c: nat, channel: nat)       // get or create the message queue
    | TakeMessage(c: nat)
    | TakeEvent(c: nat)
    | Leave(c: nat)                  // the deferred delete from the map
    | CloseEvents(c: nat)            // the deferred close of EventChannel
    | Respond(h: nat, response: Response)
    | Lookup(h: nat)
    | Send(h: nat)
    | BeginBroadcast(b: nat, event: Event)
    | BroadcastTo(b: nat, session: string)
    | EndBroadcast(b: nat)
    | Stop

  /** The map's section of a connection's life. */
  predicate Live(s: State, c: nat) {
    c in s.conns && (s.conns[c].phase.Registered? || s.conns[c].phase.Serving?)
  }

  predicate In(s: State, c: nat, phase: Phase) { c in s.conns && s.conns[c].phase == phase }

  predicate Enabled(s: State, l: Label) {
    var possible := match l {
      case Connect(c, _) => c !in s.conns
      case Register(c) => In(s, c, Created) && s.broadcasts == map[]
      case Bind(c, channel) => In(s, c, Registered) && channel !in s.channels
      case TakeMessage(c) => In(s, c, Serving) && s.conns[c].queue in s.channels && s.channels[s.conns[c].queue] != []
      case TakeEvent(c) => In(s, c, Serving) && s.conns[c].events != []
      case Leave(c) => In(s, c, Serving) && s.broadcasts == map[]
      case CloseEvents(c) => In(s, c, Unmapped)
      case Respond(h, _) => h !in s.senders
      case Lookup(h) => h in s.senders && s.senders[h].Answering?
      case Send(h) => h in s.senders && s.senders[h].Routed? && s.senders[h].queue in s.channels
      case BeginBroadcast(b, _) => b !in s.broadcasts
      case BroadcastTo(b, session) =>
        && b in s.broadcasts && session in s.broadcasts[b].remaining
        && session in s.clients && s.clients[session] in s.conns
      case EndBroadcast(b) => b in s.broadcasts && s.broadcasts[b].remaining == {}
      case Stop => s.broadcasts == map[]
    };
    !s.panicked && possible
  }

  function SetConn(s: State, c: nat, conn: Conn): State { s.(conns := s.conns[c := conn]) }

  predicate OfConnection(l: Label) {
    l.Connect? || l.Register? || l.Bind? || l.TakeMessage? || l.TakeEvent? || l.Leave? || l.CloseEvents?
  }

  predicate OfSender(l: Label) { l.Respond? || l.Lookup? || l.Send? }

  predicate OfServer(l: Label) { l.BeginBroadcast? || l.BroadcastTo? || l.EndBroadcast? || l.Stop? }

  /** The actions of handleSSE. */
  function ConnStep(s: State, l: Label): State
    requires Enabled(s, l) && OfConnection(l)
  {
    match l
    case Connect(c, session) => SetConn(s, c, Conn(session, Created, 0, [], false))
    case Register(c) =>
      SetConn(s, c, s.conns[c].(phase := Registered)).(clients := s.clients[s.conns[c].session := c])
    case Bind(c, channel) =>
      var session := s.conns[c].session;
      var t := if session in s.messageQueues then s
               else s.(messageQueues := s.messageQueues[session := channel], channels := s.channels[channel := []]);
      SetConn(t, c, s.conns[c].(phase := Serving, queue := t.messageQueues[session]))
    case TakeMessage(c) =>
      var q := s.conns[c].queue;
      s.(channels := s.channels[q := s.channels[q][1..]],
         log := s.log.(taken := s.log.taken + [Delivery(c, s.channels[q][0])]))
    case TakeEvent(c) => SetConn(s, c, s.conns[c].(events := s.conns[c].events[1..]))
    case Leave(c) =>
      SetConn(s, c, s.conns[c].(phase := Unmapped)).(clients := s.clients - {s.conns[c].session})
    case CloseEvents(c) => SetConn(s, c, s.conns[c].(phase := Closed))
  }

  /** The actions of an RPC handler. */
  function SenderStep(s: State, l: Label): State
    requires Enabled(s, l) && OfSender(l)
  {
    match l
    case Respond(h, r) =>
      s.(senders := s.senders[h := Answering(r)], log := s.log.(produced := s.log.produced + [r]))
    case Lookup(h) =>
      var r := s.senders[h].response;
      if r.session in s.messageQueues then
        s.(senders := s.senders[h := Routed(r, s.messageQueues[r.session])])
      else
        s.(senders := s.senders - {h}, log := s.log.(unrouted := s.log.unrouted + [r]))
    case Send(h) =>
      var r, q := s.senders[h].response, s.senders[h].queue;
      if |s.channels[q]| < QUEUE_CAPACITY then
        s.(senders := s.senders - {h}, channels := s.channels[q := s.channels[q] + [r]],
           log := s.log.(accepted := s.log.accepted + [r]))
      else
        s.(senders := s.senders - {h}, log := s.log.(dropped := s.log.dropped + [r]))
  }

  /** BroadcastEvent and Stop. */
  function ServerStep(s: State, l: Label): State
    requires Enabled(s, l) && OfServer(l)
  {
    match l
    case BeginBroadcast(b, e) => s.(broadcasts := s.broadcasts[b := Broadcast(e, s.clients.Keys)])
    case BroadcastTo(b, session) =>
      var c, bc := s.clients[session], s.broadcasts[b];
      var t := s.(broadcasts := s.broadcasts[b := bc.(remaining := bc.remaining - {session})]);
      if s.conns[c].phase.Closed? then s.(panicked := true)     // send on a closed channel
      else if |s.conns[c].events| < EVENT_CAPACITY then
        SetConn(t, c, s.conns[c].(events := s.conns[c].events + [bc.event]))
      else t
    case EndBroadcast(b) => s.(broadcasts := s.broadcasts - {b})
    case Stop =>
      if MeetsDone(s) then s.(panicked := true)                  // close of a closed channel
      else s.(conns := AllSignalled(s))
  }

  function Step(s: State, l: Label): State
    requires Enabled(s, l)
  {
    if OfConnection(l) then ConnStep(s, l) else if OfSender(l) then SenderStep(s, l) else ServerStep(s, l)
  }

  /** A mapped client has been signalled before. */
  predicate MeetsDone(s: State) {
    exists k :: k in s.clients && s.clients[k] in s.conns && s.conns[s.clients[k]].done
  }

  function AllSignalled(s: State): map<nat, Conn> {
    map c | c in s.conns :: if c in s.clients.Values then s.conns[c].(done := true) else s.conns[c]
  }

  predicate Init(s: State) {
    s == State(map[], map[], map[], map[], map[], map[], false, Log([], [], [], [], []))
  }

  ghost predicate Execution(tr: seq<State>, ls: seq<Label>) {
    && |tr| == |ls| + 1
    && forall i {:trigger ls[i]} | 0 <= i < |ls| :: Enabled(tr[i], ls[i]) && tr[i + 1] == Step(tr[i], ls[i])
  }

  lemma Extend(tr: seq<State>, ls: seq<Label>, l: Label) returns (tr': seq<State>, ls': seq<Label>)
    requires Execution(tr, ls) && Enabled(tr[|ls|], l)
    ensures tr' == tr + [Step(tr[|ls|], l)] && ls' == ls + [l] && Execution(tr', ls')
  {
    tr', ls' := tr + [Step(tr[|ls|], l)], ls + [l];
    assert forall i {:trigger ls'[i]} | 0 <= i < |ls| :: ls'[i] == ls[i];
  }

  // ---------------------------------------------------------------------------
  // Clients and their event channels
  // ---------------------------------------------------------------------------

  /** Every mapped client is a live connection of that session, so its channel is open. */
  predicate MappedLive(s: State) {
    forall k | k in s.clients :: Live(s, s.clients[k]) && s.conns[s.clients[k]].session == k
  }

  /** A broadcast only has sessions left to visit that are still mapped. */
  predicate BroadcastsMapped(s: State) {
    forall b | b in s.broadcasts :: s.broadcasts[b].remaining <= s.clients.Keys
  }

  predicate ClientsSound(s: State) { MappedLive(s) && BroadcastsMapped(s) }

  // ---------------------------------------------------------------------------
  // What each kind of action leaves alone
  // ---------------------------------------------------------------------------

  lemma SenderFrame(s: State, l: Label)
    requires Enabled(s, l) && OfSender(l)
    ensures var s' := Step(s, l);
            && s' == s.(senders := s'.senders, channels := s'.channels, log := s'.log)
            && s'.log.taken == s.log.taken
  {
  }

  predicate SameButContents(before: map<nat, Conn>, after: map<nat, Conn>) {
    && before.Keys == after.Keys
    && forall c | c in before ::
         && after[c].session == before[c].session
         && after[c].phase == before[c].phase
         && after[c].queue == before[c].queue
  }

  lemma StopFrame(s: State)
    requires Enabled(s, Stop)
    ensures var s' := Step(s, Stop);
            && s' == s.(conns := s'.conns, panicked := s'.panicked)
            && SameButContents(s.conns, s'.conns)
  {
  }

  lemma BroadcastFrame(s: State, l: Label)
    requires Enabled(s, l) && OfServer(l) && !l.Stop?
    ensures var s' := Step(s, l);
            && s' == s.(conns := s'.conns, broadcasts := s'.broadcasts, panicked := s'.panicked)
            && SameButContents(s.conns, s'.conns)
  {
  }

  lemma ServerFrame(s: State, l: Label)
    requires Enabled(s, l) && OfServer(l)
    ensures var s' := Step(s, l);
            && s' == s.(conns := s'.conns, broadcasts := s'.broadcasts, panicked := s'.panicked)
            && SameButContents(s.conns, s'.conns)
  {
    if l.Stop? {
      StopFrame(s);
    } else {
      BroadcastFrame(s, l);
    }
  }

  lemma ConnFrame(s: State, l: Label)
    requires Enabled(s, l) && OfConnection(l)
    ensures var s' := Step(s, l);
            && s' == s.(conns := s'.conns, clients := s'.clients, messageQueues := s'.messageQueues,
                        channels := s'.channels, log := s.log.(taken := s'.log.taken))
            && (!ChangesClients(l) ==> s'.clients == s.clients)
            && (!l.Bind? ==> s'.messageQueues == s.messageQueues)
            && (!l.Bind? && !l.TakeMessage? ==> s'.channels == s.channels)
            && (!l.TakeMessage? ==> s'.log.taken == s.log.taken)
  {
  }

  /** A connection's actions concern its own record, and keep its session. */
  lemma ConnRecord(s: State, l: Label)
    requires Enabled(s, l) && OfConnection(l)
    ensures var s' := Step(s, l);
            && s'.conns.Keys == s.conns.Keys + {l.c}
            && (forall d | d in s.conns && d != l.c :: s'.conns[d] == s.conns[d])
            && (l.c in s.conns ==> s'.conns[l.c].session == s.conns[l.c].session)
            && (!ChangesClients(l) && l.c in s.conns ==> s'.conns[l.c].phase == s.conns[l.c].phase)
            && (!l.Bind? && l.c in s.conns ==> s'.conns[l.c].queue == s.conns[l.c].queue)
  {
  }

  /** No action changes the session of a connection, and only its own change its phase. */
  lemma StepFrame(s: State, l: Label, c: nat)
    requires Enabled(s, l) && c in s.conns
    ensures var s' := Step(s, l);
            && c in s'.conns && s'.conns[c].session == s.conns[c].session
            && (s'.conns[c].phase == s.conns[c].phase
                || ((l.Register? || l.Bind? || l.Leave? || l.CloseEvents?) && l.c == c))
  {
    if OfSender(l) {
      SenderFrame(s, l);
    } else if OfServer(l) {
      ServerFrame(s, l);
    } else {
      ConnRecord(s, l);
    }
  }

  predicate ChangesClients(l: Label) { l.Register? || l.Leave? || l.Bind? || l.CloseEvents? }

  lemma ClientsFrame(s: State, l: Label)
    requires Enabled(s, l) && !ChangesClients(l)
    ensures Step(s, l).clients == s.clients
  {
    if OfServer(l) {
      ServerFrame(s, l);
    } else if OfSender(l) {
      SenderFrame(s, l);
    } else {
      ConnFrame(s, l);
    }
  }

  lemma StepKeepsMappedLive(s: State, l: Label)
    requires MappedLive(s) && Enabled(s, l)
    ensures MappedLive(Step(s, l))
  {
    if ChangesClients(l) {
      ClientStepKeepsMappedLive(s, l);
    } else {
      ClientsFrame(s, l);
      forall k | k in s.clients
        ensures Live(Step(s, l), s.clients[k]) && Step(s, l).conns[s.clients[k]].session == k
      {
        StepFrame(s, l, s.clients[k]);
      }
    }
  }

  lemma ClientStepKeepsMappedLive(s: State, l: Label)
    requires MappedLive(s) && Enabled(s, l) && ChangesClients(l)
    ensures MappedLive(Step(s, l))
  {
    var s' := Step(s, l);
    forall k | k in s'.clients
      ensures Live(s', s'.clients[k]) && s'.conns[s'.clients[k]].session == k
    {
      if k in s.clients {
        assert Live(s, s.clients[k]);
      }
    }
  }

  lemma StepKeepsBroadcastsMapped(s: State, l: Label)
    requires BroadcastsMapped(s) && Enabled(s, l)
    ensures BroadcastsMapped(Step(s, l))
  {
    if l.BroadcastTo? {
      assert Step(s, l).clients == s.clients;
    }
  }

  lemma {:induction false} ClientsAlwaysSound(tr: seq<State>, ls: seq<Label>, i: nat)
    requires Execution(tr, ls) && Init(tr[0]) && i < |tr|
    ensures ClientsSound(tr[i])
  {
    if i > 0 {
      ClientsAlwaysSound(tr, ls, i - 1);
      assert Enabled(tr[i - 1], ls[i - 1]);
      StepKeepsMappedLive(tr[i - 1], ls[i - 1]);
      StepKeepsBroadcastsMapped(tr[i - 1], ls[i - 1]);
    }
  }

  /** BroadcastEvent never sends on a closed channel, even when connections share a session. */
  lemma BroadcastNeverPanics(tr: seq<State>, ls: seq<Label>, i: nat)
    requires Execution(tr, ls) && Init(tr[0]) && i < |ls| && !ls[i].Stop?
    ensures !tr[i + 1].panicked
  {
    ClientsAlwaysSound(tr, ls, i);
    assert Enabled(tr[i], ls[i]);
  }

  ghost predicate StoppedBefore(ls: seq<Label>, i: nat) {
    exists j :: 0 <= j < i && j < |ls| && ls[j].Stop?
  }

  lemma {:induction false} SignalledOnlyByStop(tr: seq<State>, ls: seq<Label>, i: nat)
    requires Execution(tr, ls) && i < |tr|
    requires Init(tr[0]) && !StoppedBefore(ls, i)
    ensures forall c | c in tr[i].conns :: !tr[i].conns[c].done
  {
    if i > 0 {
      SignalledOnlyByStop(tr, ls, i - 1);
      assert Enabled(tr[i - 1], ls[i - 1]) && !ls[i - 1].Stop?;
    }
  }

  /** The first Stop never panics and signals exactly the mapped clients. */
  lemma FirstStop(tr: seq<State>, ls: seq<Label>, i: nat)
    requires Execution(tr, ls) && Init(tr[0]) && i < |ls| && ls[i].Stop? && !StoppedBefore(ls, i)
    ensures !tr[i + 1].panicked && tr[i + 1].conns.Keys == tr[i].conns.Keys
    ensures forall c | c in tr[i].conns :: tr[i + 1].conns[c].done <==> c in tr[i].clients.Values
  {
    SignalledOnlyByStop(tr, ls, i);
    assert Enabled(tr[i], ls[i]);
  }

  ghost predicate StoppedTwice(ls: seq<Label>, i: nat) {
    exists j, k :: 0 <= j < k < i && k < |ls| && ls[j].Stop? && ls[k].Stop?
  }

  /** The only thing that can crash the transport is a second Stop. */
  lemma {:induction false} PanicNeedsSecondStop(tr: seq<State>, ls: seq<Label>, i: nat)
    requires Execution(tr, ls) && Init(tr[0]) && i < |tr| && !StoppedTwice(ls, i)
    ensures !tr[i].panicked
  {
    if i > 0 {
      assert Enabled(tr[i - 1], ls[i - 1]);
      if ls[i - 1].Stop? {
        assert !StoppedBefore(ls, i - 1);
        FirstStop(tr, ls, i - 1);
      } else {
        BroadcastNeverPanics(tr, ls, i - 1);
      }
    }
  }

  // ---------------------------------------------------------------------------
  // When Stop panics
  // ---------------------------------------------------------------------------

  /** A Stop before step `i` found the connection mapped. */
  ghost predicate SignalledBefore(tr: seq<State>, ls: seq<Label>, i: nat, c: nat)
    requires |tr| == |ls| + 1
  {
    exists j {:trigger ls[j]} :: 0 <= j < i && j < |ls| && ls[j].Stop? && c in tr[j].clients.Values
  }

  predicate Done(s: State, c: nat) { c in s.conns && s.conns[c].done }

  lemma DoneFrame(s: State, l: Label, c: nat)
    requires Enabled(s, l) && !l.Stop?
    ensures Done(Step(s, l), c) <==> Done(s, c)
  {
  }

  lemma StopDone(s: State, c: nat)
    requires MappedLive(s) && Enabled(s, Stop) && !Step(s, Stop).panicked
    ensures Done(Step(s, Stop), c) <==> Done(s, c) || c in s.clients.Values
  {
    if c in s.clients.Values {
      var k :| k in s.clients && s.clients[k] == c;
      assert Live(s, s.clients[k]);
    }
  }

  /** A connection's Done channel is closed exactly if an earlier Stop found it mapped. */
  lemma {:induction false} DoneIff(tr: seq<State>, ls: seq<Label>, i: nat, c: nat)
    requires Execution(tr, ls) && Init(tr[0]) && i < |tr| && !tr[i].panicked
    ensures Done(tr[i], c) <==> SignalledBefore(tr, ls, i, c)
  {
    if i > 0 {
      assert Enabled(tr[i - 1], ls[i - 1]);
      DoneIff(tr, ls, i - 1, c);
      if ls[i - 1].Stop? {
        ClientsAlwaysSound(tr, ls, i - 1);
        StopDone(tr[i - 1], c);
      } else {
        DoneFrame(tr[i - 1], ls[i - 1], c);
      }
    }
  }

  /** A Stop panics exactly when it finds a connection mapped that an earlier Stop found mapped
      too. */
  lemma StopPanicsIff(tr: seq<State>, ls: seq<Label>, i: nat)
    requires Execution(tr, ls) && Init(tr[0]) && i < |ls| && ls[i].Stop?
    ensures tr[i + 1].panicked <==> exists c :: c in tr[i].clients.Values && SignalledBefore(tr, ls, i, c)
  {
    assert Enabled(tr[i], ls[i]);
    ClientsAlwaysSound(tr, ls, i);
    forall c ensures Done(tr[i], c) <==> SignalledBefore(tr, ls, i, c) {
      DoneIff(tr, ls, i, c);
    }
    PanicsWithDone(tr[i]);
  }

  lemma PanicsWithDone(s: State)
    requires MappedLive(s) && Enabled(s, Stop)
    ensures Step(s, Stop).panicked <==> exists c :: c in s.clients.Values && Done(s, c)
  {
    if c :| c in s.clients.Values && Done(s, c) {
      var k :| k in s.clients && s.clients[k] == c;
    }
    if k :| k in s.clients && s.clients[k] in s.conns && s.conns[s.clients[k]].done {
      assert s.clients[k] in s.clients.Values && Done(s, s.clients[k]);
    }
  }

  /** One connection, registered. */
  lemma OneRegistered(session: string) returns (tr: seq<State>, ls: seq<Label>)
    ensures Execution(tr, ls) && Init(tr[0]) && ls == [Connect(0, session), Register(0)]
    ensures var s := tr[2];
            && s.clients == map[session := 0] && s.conns == map[0 := Conn(session, Registered, 0, [], false)]
            && s.broadcasts == map[] && !s.panicked
  {
    var s0 := State(map[], map[], map[], map[], map[], map[], false, Log([], [], [], [], []));
    tr, ls := Extend([s0], [], Connect(0, session));
    tr, ls := Extend(tr, ls, Register(0));
  }

  /** Two calls of Stop while one client stays connected. */
  lemma TwoStopsPanic(session: string) returns (tr: seq<State>, ls: seq<Label>)
    ensures Execution(tr, ls) && Init(tr[0]) && ls == [Connect(0, session), Register(0), Stop, Stop]
    ensures !tr[3].panicked && tr[4].panicked
  {
    tr, ls := OneRegistered(session);
    var s := tr[2];
    tr, ls := Extend(tr, ls, Stop);
    assert s.clients[session] == 0 && s.clients[session] in s.clients.Values;
    assert session in tr[3].clients && Done(tr[3], 0);
    tr, ls := Extend(tr, ls, Stop);
  }

  // ---------------------------------------------------------------------------
  // The client map
  // ---------------------------------------------------------------------------

  /** The map holds exactly the connections between registration and teardown. */
  predicate MapExact(s: State) {
    forall c | c in s.conns :: Live(s, c) <==> Mapped(s, c)
  }

  /** A registration that overwrites no live connection. */
  predicate Unshared(s: State, l: Label) {
    l.Register? && l.c in s.conns ==>
      forall d :: d in s.conns && Live(s, d) ==> s.conns[d].session != s.conns[l.c].session
  }

  predicate Mapped(s: State, c: nat) {
    c in s.conns && s.conns[c].session in s.clients && s.clients[s.conns[c].session] == c
  }

  lemma StepKeepsExact(s: State, l: Label, c: nat)
    requires MappedLive(s) && MapExact(s) && Enabled(s, l) && Unshared(s, l) && c in Step(s, l).conns
    ensures Live(Step(s, l), c) <==> Mapped(Step(s, l), c)
  {
    if ChangesClients(l) {
      ClientStepKeepsExact(s, l, c);
    } else if c in s.conns {
      StepFrame(s, l, c);
      ClientsFrame(s, l);
      assert Live(s, c) <==> Mapped(s, c);
    } else {
      NewConnUnmapped(s, l, c);
    }
  }

  lemma OnlyConnectAdds(s: State, l: Label, c: nat)
    requires Enabled(s, l) && c !in s.conns && c in Step(s, l).conns
    ensures l.Connect? && l.c == c
  {
    if OfServer(l) {
      ServerFrame(s, l);
    } else if OfSender(l) {
      SenderFrame(s, l);
    } else {
      ConnRecord(s, l);
    }
  }

  lemma NewConnUnmapped(s: State, l: Label, c: nat)
    requires MappedLive(s) && Enabled(s, l) && c !in s.conns && c in Step(s, l).conns
    ensures !Live(Step(s, l), c) && !Mapped(Step(s, l), c)
  {
    OnlyConnectAdds(s, l, c);
    NewConnFresh(s, c, l.session);
  }

  lemma NewConnFresh(s: State, c: nat, session: string)
    requires MappedLive(s) && Enabled(s, Connect(c, session))
    ensures !Live(Step(s, Connect(c, session)), c) && !Mapped(Step(s, Connect(c, session)), c)
  {
    assert session in s.clients ==> Live(s, s.clients[session]);
  }

  lemma ClientStepKeepsExact(s: State, l: Label, c: nat)
    requires MappedLive(s) && MapExact(s) && Enabled(s, l) && Unshared(s, l)
    requires ChangesClients(l) && c in Step(s, l).conns
    ensures Live(Step(s, l), c) <==> Mapped(Step(s, l), c)
  {
    assert Live(s, c) <==> Mapped(s, c);
    assert Live(s, l.c) <==> Mapped(s, l.c);
  }

  lemma {:induction false} ExactWhileUnshared(tr: seq<State>, ls: seq<Label>, i: nat)
    requires Execution(tr, ls) && Init(tr[0]) && i < |tr|
    requires forall j {:trigger ls[j]} | 0 <= j < i :: Unshared(tr[j], ls[j])
    ensures MapExact(tr[i])
  {
    if i > 0 {
      ExactWhileUnshared(tr, ls, i - 1);
      ClientsAlwaysSound(tr, ls, i - 1);
      assert Enabled(tr[i - 1], ls[i - 1]);
      forall c | c in tr[i].conns ensures Live(tr[i], c) <==> Mapped(tr[i], c) {
        StepKeepsExact(tr[i - 1], ls[i - 1], c);
      }
    }
  }

  /** Along a run the map is exactly the set of live connections in every state if and only if
      no connection registers under a session that another live connection is using. */
  lemma ExactIffUnshared(tr: seq<State>, ls: seq<Label>)
    requires Execution(tr, ls) && Init(tr[0])
    ensures (forall i :: 0 <= i < |tr| ==> MapExact(tr[i]))
       <==> (forall j {:trigger ls[j]} :: 0 <= j < |ls| ==> Unshared(tr[j], ls[j]))
  {
    if forall j {:trigger ls[j]} :: 0 <= j < |ls| ==> Unshared(tr[j], ls[j]) {
      forall i | 0 <= i < |tr| ensures MapExact(tr[i]) {
        ExactWhileUnshared(tr, ls, i);
      }
    } else {
      var j :| 0 <= j < |ls| && !Unshared(tr[j], ls[j]);
      assert Enabled(tr[j], ls[j]);
      var d :| d in tr[j].conns && Live(tr[j], d) && tr[j].conns[d].session == tr[j].conns[ls[j].c].session;
      assert d in tr[j + 1].conns && Live(tr[j + 1], d);
      assert !Mapped(tr[j + 1], d);
    }
  }

  /** The first Stop signals every live connection exactly when the map holds all of them; with
      unshared sessions it does. */
  lemma StopSignalsEveryone(tr: seq<State>, ls: seq<Label>, i: nat)
    requires Execution(tr, ls) && Init(tr[0]) && i < |ls| && ls[i].Stop? && !StoppedBefore(ls, i)
    ensures !tr[i + 1].panicked
    ensures (forall c | Live(tr[i], c) :: Done(tr[i + 1], c)) <==> MapExact(tr[i])
    ensures (forall j {:trigger ls[j]} | 0 <= j < i :: Unshared(tr[j], ls[j])) ==> MapExact(tr[i])
  {
    FirstStop(tr, ls, i);
    ClientsAlwaysSound(tr, ls, i);
    MappedIffValue(tr[i]);
    if forall j {:trigger ls[j]} | 0 <= j < i :: Unshared(tr[j], ls[j]) {
      ExactWhileUnshared(tr, ls, i);
    }
  }

  lemma MappedIffValue(s: State)
    requires MappedLive(s)
    ensures forall c | c in s.conns :: Mapped(s, c) <==> c in s.clients.Values
    ensures forall c | Mapped(s, c) :: Live(s, c)
  {
    forall c | c in s.conns
      ensures Mapped(s, c) <==> c in s.clients.Values
    {
      if c in s.clients.Values {
        var k :| k in s.clients && s.clients[k] == c;
        assert Live(s, s.clients[k]);
      }
    }
  }

  /** Two connections under one session: the first stays live, unmapped and unsignalled. */
  lemma SharedSessionMissed(session: string) returns (tr: seq<State>, ls: seq<Label>)
    ensures Execution(tr, ls) && Init(tr[0])
    ensures ls == [Connect(0, session), Register(0), Connect(1, session), Register(1), Stop]
    ensures Live(tr[4], 0) && !Mapped(tr[4], 0) && Live(tr[5], 0) && !Done(tr[5], 0) && Done(tr[5], 1)
  {
    tr, ls := OneRegistered(session);
    tr, ls := Extend(tr, ls, Connect(1, session));
    tr, ls := Extend(tr, ls, Register(1));
    var s := tr[4];
    assert s.clients == map[session := 1];
    assert s.clients[session] == 1 && s.clients[session] in s.clients.Values;
    forall c | c in s.clients.Values ensures c == 1 {
      var k :| k in s.clients && s.clients[k] == c;
    }
    assert 0 in s.conns && 1 in s.conns;
    tr, ls := Extend(tr, ls, Stop);
    StopDone(s, 0);
    StopDone(s, 1);
  }

  // ---------------------------------------------------------------------------
  // Message queues
  // ---------------------------------------------------------------------------

  function OfSession(rs: seq<Response>, session: string): seq<Response> {
    if rs == [] then []
    else OfSession(rs[..|rs| - 1], session)
         + (if rs[|rs| - 1].session == session then [rs[|rs| - 1]] else [])
  }

  function TakenFor(ds: seq<Delivery>, session: string): seq<Response> {
    if ds == [] then []
    else TakenFor(ds[..|ds| - 1], session)
         + (if ds[|ds| - 1].response.session == session then [ds[|ds| - 1].response] else [])
  }

  lemma OfSessionAppend(rs: seq<Response>, r: Response, session: string)
    ensures OfSession(rs + [r], session) == OfSession(rs, session) + (if r.session == session then [r] else [])
  {
    assert (rs + [r])[..|rs|] == rs;
  }

  lemma TakenForAppend(ds: seq<Delivery>, d: Delivery, session: string)
    ensures TakenFor(ds + [d], session)
            == TakenFor(ds, session) + (if d.response.session == session then [d.response] else [])
  {
    assert (ds + [d])[..|ds|] == ds;
  }

  function QueueOf(s: State, session: string): seq<Response> {
    if session in s.messageQueues && s.messageQueues[session] in s.channels
    then s.channels[s.messageQueues[session]] else []
  }

  /** Each session has its own channel ... */
  predicate QueuesDistinct(s: State) {
    && (forall k | k in s.messageQueues :: s.messageQueues[k] in s.channels)
    && (forall k, m | k in s.messageQueues && m in s.messageQueues && k != m ::
          s.messageQueues[k] != s.messageQueues[m])
  }

  predicate Holds(s: State, session: string, queue: nat) {
    session in s.messageQueues && s.messageQueues[session] == queue
  }

  /** ... and whoever captured a channel captured that of its session. */
  predicate ConnsBound(s: State) {
    forall c | c in s.conns && !s.conns[c].phase.Created? && !s.conns[c].phase.Registered? ::
      Holds(s, s.conns[c].session, s.conns[c].queue)
  }

  predicate SendersBound(s: State) {
    forall h | h in s.senders && s.senders[h].Routed? :: Holds(s, s.senders[h].response.session, s.senders[h].queue)
  }

  predicate QueuesSound(s: State) { QueuesDistinct(s) && ConnsBound(s) && SendersBound(s) }

  predicate SessionSound(s: State, session: string) {
    && TakenFor(s.log.taken, session) + QueueOf(s, session) == OfSession(s.log.accepted, session)
    && |QueueOf(s, session)| <= QUEUE_CAPACITY
    && forall i | 0 <= i < |QueueOf(s, session)| :: QueueOf(s, session)[i].session == session
  }

  ghost predicate DeliveriesSound(s: State) {
    forall i | 0 <= i < |s.log.taken| ::
      && s.log.taken[i].conn in s.conns
      && s.conns[s.log.taken[i].conn].session == s.log.taken[i].response.session
  }

  ghost predicate MessagesSound(s: State) {
    && QueuesSound(s) && DeliveriesSound(s)
    && forall session :: SessionSound(s, session)
  }

  lemma QueuesStay(s: State, l: Label, session: string, queue: nat)
    requires Enabled(s, l) && Holds(s, session, queue)
    ensures Holds(Step(s, l), session, queue)
  {
  }

  /** Only these actions touch the queues. */
  predicate TouchesQueues(l: Label) { l.Bind? || l.TakeMessage? || l.Send? }

  lemma QueuesFrame(s: State, l: Label)
    requires Enabled(s, l) && !TouchesQueues(l)
    ensures Step(s, l).messageQueues == s.messageQueues && Step(s, l).channels == s.channels
    ensures Step(s, l).log.taken == s.log.taken && Step(s, l).log.accepted == s.log.accepted
  {
    if OfServer(l) {
      ServerFrame(s, l);
    } else if OfConnection(l) {
      ConnFrame(s, l);
    } else {
      SenderFrame(s, l);
    }
  }

  lemma StepKeepsDistinct(s: State, l: Label)
    requires QueuesDistinct(s) && Enabled(s, l)
    ensures QueuesDistinct(Step(s, l))
  {
    if TouchesQueues(l) {
      assert l.Bind? || Step(s, l).messageQueues == s.messageQueues;
    } else {
      QueuesFrame(s, l);
    }
  }

  lemma BoundConnFrame(s: State, l: Label, c: nat)
    requires Enabled(s, l) && !l.Bind? && c in Step(s, l).conns
    requires !Step(s, l).conns[c].phase.Created? && !Step(s, l).conns[c].phase.Registered?
    ensures c in s.conns && !s.conns[c].phase.Created? && !s.conns[c].phase.Registered?
    ensures Step(s, l).conns[c].session == s.conns[c].session && Step(s, l).conns[c].queue == s.conns[c].queue
  {
    if OfServer(l) {
      ServerFrame(s, l);
    } else if OfSender(l) {
      SenderFrame(s, l);
    } else {
      ConnRecord(s, l);
    }
  }

  lemma StepKeepsConnsBound(s: State, l: Label)
    requires ConnsBound(s) && Enabled(s, l)
    ensures ConnsBound(Step(s, l))
  {
    var s' := Step(s, l);
    forall c | c in s'.conns && !s'.conns[c].phase.Created? && !s'.conns[c].phase.Registered?
      ensures Holds(s', s'.conns[c].session, s'.conns[c].queue)
    {
      if !l.Bind? {
        BoundConnFrame(s, l, c);
        QueuesStay(s, l, s.conns[c].session, s.conns[c].queue);
      } else if c != l.c {
        QueuesStay(s, l, s.conns[c].session, s.conns[c].queue);
      }
    }
  }

  lemma RoutedFrame(s: State, l: Label, h: nat)
    requires Enabled(s, l) && !l.Lookup? && h in Step(s, l).senders && Step(s, l).senders[h].Routed?
    ensures h in s.senders && s.senders[h] == Step(s, l).senders[h]
  {
    if OfServer(l) {
      ServerFrame(s, l);
    } else if OfConnection(l) {
      ConnFrame(s, l);
    }
  }

  lemma LookupKeepsSendersBound(s: State, h: nat)
    requires SendersBound(s) && Enabled(s, Lookup(h))
    ensures SendersBound(Step(s, Lookup(h)))
  {
    SenderFrame(s, Lookup(h));
  }

  lemma StepKeepsSendersBound(s: State, l: Label)
    requires SendersBound(s) && Enabled(s, l)
    ensures SendersBound(Step(s, l))
  {
    if l.Lookup? {
      LookupKeepsSendersBound(s, l.h);
    } else {
      forall h | h in Step(s, l).senders && Step(s, l).senders[h].Routed?
        ensures Holds(Step(s, l), Step(s, l).senders[h].response.session, Step(s, l).senders[h].queue)
      {
        RoutedFrame(s, l, h);
        QueuesStay(s, l, s.senders[h].response.session, s.senders[h].queue);
      }
    }
  }

  lemma TakeFrame(s: State, c: nat)
    requires QueuesSound(s) && Enabled(s, TakeMessage(c))
    ensures Holds(s, s.conns[c].session, s.conns[c].queue)
    ensures var s', session := Step(s, TakeMessage(c)), s.conns[c].session;
            && QueueOf(s, session) != []
            && QueueOf(s', session) == QueueOf(s, session)[1..]
            && s'.log.taken == s.log.taken + [Delivery(c, QueueOf(s, session)[0])]
            && s'.log.accepted == s.log.accepted
            && s'.messageQueues == s.messageQueues
            && s'.channels == s.channels[s.conns[c].queue := QueueOf(s', session)]
  {
  }

  lemma HeadMoves(taken: seq<Response>, queue: seq<Response>)
    requires queue != []
    ensures taken + [queue[0]] + queue[1..] == taken + queue
  {
  }

  lemma TakeFromSession(s: State, c: nat)
    requires QueuesSound(s) && Enabled(s, TakeMessage(c)) && SessionSound(s, s.conns[c].session)
    ensures SessionSound(Step(s, TakeMessage(c)), s.conns[c].session)
  {
    var session := s.conns[c].session;
    var q := QueueOf(s, session);
    TakeFrame(s, c);
    TakenForAppend(s.log.taken, Delivery(c, q[0]), session);
    HeadMoves(TakenFor(s.log.taken, session), q);
  }

  lemma TakeElsewhere(s: State, c: nat, session: string)
    requires QueuesSound(s) && Enabled(s, TakeMessage(c)) && SessionSound(s, s.conns[c].session)
    requires s.conns[c].session != session
    ensures QueueOf(Step(s, TakeMessage(c)), session) == QueueOf(s, session)
    ensures TakenFor(Step(s, TakeMessage(c)).log.taken, session) == TakenFor(s.log.taken, session)
    ensures Step(s, TakeMessage(c)).log.accepted == s.log.accepted
  {
    TakeFrame(s, c);
    TakenForAppend(s.log.taken, Delivery(c, QueueOf(s, s.conns[c].session)[0]), session);
  }

  lemma TakeKeepsSession(s: State, c: nat, session: string)
    requires QueuesSound(s) && SessionSound(s, session) && Enabled(s, TakeMessage(c))
    requires SessionSound(s, s.conns[c].session)
    ensures SessionSound(Step(s, TakeMessage(c)), session)
  {
    if s.conns[c].session == session {
      TakeFromSession(s, c);
    } else {
      TakeElsewhere(s, c, session);
    }
  }

  lemma SendKeepsSession(s: State, h: nat, session: string)
    requires QueuesSound(s) && SessionSound(s, session) && Enabled(s, Send(h))
    ensures SessionSound(Step(s, Send(h)), session)
  {
    if s.senders[h].response.session == session {
      SendToSession(s, h);
    } else {
      SendElsewhere(s, h, session);
    }
  }

  lemma SendToSession(s: State, h: nat)
    requires QueuesSound(s) && Enabled(s, Send(h)) && SessionSound(s, s.senders[h].response.session)
    ensures SessionSound(Step(s, Send(h)), s.senders[h].response.session)
  {
    var r := s.senders[h].response;
    assert Holds(s, r.session, s.senders[h].queue);
    OfSessionAppend(s.log.accepted, r, r.session);
    if |QueueOf(s, r.session)| < QUEUE_CAPACITY {
      assert QueueOf(Step(s, Send(h)), r.session) == QueueOf(s, r.session) + [r];
    }
  }

  lemma SendFrame(s: State, h: nat)
    requires Enabled(s, Send(h))
    ensures var s', r, q := Step(s, Send(h)), s.senders[h].response, s.senders[h].queue;
            && (s'.channels == s.channels || s'.channels == s.channels[q := s.channels[q] + [r]])
            && (s'.log.accepted == s.log.accepted || s'.log.accepted == s.log.accepted + [r])
  {
  }

  lemma SendElsewhere(s: State, h: nat, session: string)
    requires QueuesSound(s) && Enabled(s, Send(h)) && s.senders[h].response.session != session
    ensures QueueOf(Step(s, Send(h)), session) == QueueOf(s, session)
    ensures OfSession(Step(s, Send(h)).log.accepted, session) == OfSession(s.log.accepted, session)
    ensures Step(s, Send(h)).log.taken == s.log.taken
  {
    var r := s.senders[h].response;
    SendFrame(s, h);
    SenderFrame(s, Send(h));
    assert Holds(s, r.session, s.senders[h].queue);
    OfSessionAppend(s.log.accepted, r, session);
  }

  lemma QueueUntouched(s: State, l: Label, session: string)
    requires QueuesDistinct(s) && Enabled(s, l) && !l.TakeMessage? && !l.Send?
    ensures QueueOf(Step(s, l), session) == QueueOf(s, session)
    ensures Step(s, l).log.taken == s.log.taken && Step(s, l).log.accepted == s.log.accepted
  {
    if !l.Bind? {
      QueuesFrame(s, l);
    }
  }

  lemma StepKeepsSession(s: State, l: Label, session: string)
    requires QueuesSound(s) && SessionSound(s, session) && Enabled(s, l)
    requires l.TakeMessage? ==> SessionSound(s, s.conns[l.c].session)
    ensures SessionSound(Step(s, l), session)
  {
    if l.TakeMessage? {
      TakeKeepsSession(s, l.c, session);
    } else if l.Send? {
      SendKeepsSession(s, l.h, session);
    } else {
      QueueUntouched(s, l, session);
    }
  }

  lemma StepKeepsDeliveries(s: State, l: Label)
    requires QueuesSound(s) && DeliveriesSound(s) && Enabled(s, l)
    requires l.TakeMessage? ==> SessionSound(s, s.conns[l.c].session)
    ensures DeliveriesSound(Step(s, l))
  {
    var s' := Step(s, l);
    forall i | 0 <= i < |s'.log.taken|
      ensures s'.log.taken[i].conn in s'.conns
      ensures s'.conns[s'.log.taken[i].conn].session == s'.log.taken[i].response.session
    {
      if i < |s.log.taken| {
        TakenGrows(s, l);
        StepFrame(s, l, s.log.taken[i].conn);
      } else {
        NewDelivery(s, l);
      }
    }
  }

  lemma TakenGrows(s: State, l: Label)
    requires Enabled(s, l)
    ensures s.log.taken <= Step(s, l).log.taken
    ensures !l.TakeMessage? ==> Step(s, l).log.taken == s.log.taken
  {
    if OfServer(l) {
      ServerFrame(s, l);
    } else if OfSender(l) {
      SenderFrame(s, l);
    } else {
      ConnFrame(s, l);
    }
  }

  lemma NewDelivery(s: State, l: Label)
    requires QueuesSound(s) && Enabled(s, l) && |Step(s, l).log.taken| > |s.log.taken|
    requires l.TakeMessage? ==> SessionSound(s, s.conns[l.c].session)
    ensures l.TakeMessage? && |Step(s, l).log.taken| == |s.log.taken| + 1
    ensures var d := Step(s, l).log.taken[|s.log.taken|];
            d.conn == l.c && d.response.session == s.conns[l.c].session && Step(s, l).conns == s.conns
  {
    TakenGrows(s, l);
    assert Holds(s, s.conns[l.c].session, s.conns[l.c].queue);
    assert QueueOf(s, s.conns[l.c].session)[0].session == s.conns[l.c].session;
  }

  /** Per session, in every reachable state: what connections took followed by what is queued
      is what was accepted, in order; at most 100 are queued; and no response has reached a
      connection of another session. */
  lemma {:induction false} MessagesAlwaysSound(tr: seq<State>, ls: seq<Label>, i: nat)
    requires Execution(tr, ls) && Init(tr[0]) && i < |tr|
    ensures MessagesSound(tr[i])
  {
    if i > 0 {
      MessagesAlwaysSound(tr, ls, i - 1);
      var s, l := tr[i - 1], ls[i - 1];
      assert Enabled(s, l);
      StepKeepsDistinct(s, l);
      StepKeepsConnsBound(s, l);
      StepKeepsSendersBound(s, l);
      StepKeepsDeliveries(s, l);
      forall session ensures SessionSound(tr[i], session) {
        StepKeepsSession(s, l, session);
      }
    }
  }

  /** Queues are never replaced: a connection that serves now, however late it came, reads the
      channel holding everything accepted for its session and not yet taken. */
  lemma ReconnectFindsBacklog(tr: seq<State>, ls: seq<Label>, i: nat, c: nat)
    requires Execution(tr, ls) && Init(tr[0]) && i < |tr| && In(tr[i], c, Serving)
    ensures var s, session := tr[i], tr[i].conns[c].session;
            && s.conns[c].queue in s.channels
            && TakenFor(s.log.taken, session) + s.channels[s.conns[c].queue] == OfSession(s.log.accepted, session)
  {
    MessagesAlwaysSound(tr, ls, i);
    assert SessionSound(tr[i], tr[i].conns[c].session);
  }

  // ---------------------------------------------------------------------------
  // Every response is accounted for
  // ---------------------------------------------------------------------------

  function Sending(senders: map<nat, Sender>, r: Response): set<nat> {
    set h | h in senders && senders[h].response == r
  }

  function Times(rs: seq<Response>, r: Response): nat {
    if rs == [] then 0 else Times(rs[..|rs| - 1], r) + (if rs[|rs| - 1] == r then 1 else 0)
  }

  lemma TimesAppend(rs: seq<Response>, q: Response, r: Response)
    ensures Times(rs + [q], r) == Times(rs, r) + (if q == r then 1 else 0)
  {
    assert (rs + [q])[..|rs|] == rs;
  }

  lemma SenderSet(m: map<nat, Sender>, h: nat, v: Sender, r: Response)
    requires h !in m || m[h].response == v.response
    ensures |Sending(m[h := v], r)| == |Sending(m, r)| + (if h !in m && v.response == r then 1 else 0)
  {
    assert Sending(m[h := v], r) == if v.response == r then Sending(m, r) + {h} else Sending(m, r);
  }

  lemma SenderGone(m: map<nat, Sender>, h: nat, r: Response)
    requires h in m
    ensures |Sending(m - {h}, r)| == |Sending(m, r)| - (if m[h].response == r then 1 else 0)
  {
    assert Sending(m - {h}, r) == Sending(m, r) - {h};
  }

  predicate AccountedFor(s: State, r: Response) {
    Times(s.log.produced, r)
    == Times(s.log.accepted, r) + Times(s.log.dropped, r) + Times(s.log.unrouted, r) + |Sending(s.senders, r)|
  }

  lemma LookupAccounts(s: State, h: nat, r: Response)
    requires AccountedFor(s, r) && Enabled(s, Lookup(h))
    ensures AccountedFor(Step(s, Lookup(h)), r)
  {
    var q := s.senders[h].response;
    if q.session in s.messageQueues {
      SenderSet(s.senders, h, Routed(q, s.messageQueues[q.session]), r);
    } else {
      TimesAppend(s.log.unrouted, q, r);
      SenderGone(s.senders, h, r);
    }
  }

  lemma SendAccounts(s: State, h: nat, r: Response)
    requires AccountedFor(s, r) && Enabled(s, Send(h))
    ensures AccountedFor(Step(s, Send(h)), r)
  {
    var q := s.senders[h].response;
    SenderGone(s.senders, h, r);
    if |s.channels[s.senders[h].queue]| < QUEUE_CAPACITY {
      TimesAppend(s.log.accepted, q, r);
    } else {
      TimesAppend(s.log.dropped, q, r);
    }
  }

  lemma RespondAccounts(s: State, h: nat, q: Response, r: Response)
    requires AccountedFor(s, r) && Enabled(s, Respond(h, q))
    ensures AccountedFor(Step(s, Respond(h, q)), r)
  {
    TimesAppend(s.log.produced, q, r);
    SenderSet(s.senders, h, Answering(q), r);
  }

  lemma OthersAccount(s: State, l: Label, r: Response)
    requires AccountedFor(s, r) && Enabled(s, l) && !OfSender(l)
    ensures AccountedFor(Step(s, l), r)
  {
    if OfServer(l) {
      ServerFrame(s, l);
    } else {
      ConnFrame(s, l);
    }
  }

  lemma StepAccounts(s: State, l: Label, r: Response)
    requires AccountedFor(s, r) && Enabled(s, l)
    ensures AccountedFor(Step(s, l), r)
  {
    if l.Lookup? {
      LookupAccounts(s, l.h, r);
    } else if l.Send? {
      SendAccounts(s, l.h, r);
    } else if l.Respond? {
      RespondAccounts(s, l.h, l.response, r);
    } else {
      OthersAccount(s, l, r);
    }
  }

  /** Each response the request handler produced is accepted, dropped at a full queue,
      discarded for want of a queue, or still with its sender: exactly one of them. */
  lemma {:induction false} AlwaysAccounted(tr: seq<State>, ls: seq<Label>, i: nat, r: Response)
    requires Execution(tr, ls) && Init(tr[0]) && i < |tr|
    ensures AccountedFor(tr[i], r)
  {
    if i == 0 {
      assert Sending(tr[0].senders, r) == {};
    } else {
      AlwaysAccounted(tr, ls, i - 1, r);
      assert Enabled(tr[i - 1], ls[i - 1]);
      StepAccounts(tr[i - 1], ls[i - 1], r);
    }
  }
}
