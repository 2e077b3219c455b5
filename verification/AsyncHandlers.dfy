/**
  The async handler and its batching front end as objects.  `AsyncHandler.Model` gives the
  pipeline state of a handler; every method's effect is a function of that state, and each
  such function is proved to be a run of the pipeline's step system, so what holds on all
  interleavings holds of these objects.
 */
module AsyncHandlers {
  import opened AsyncPipeline

  ghost predicate Reaches(s: State, s': State) {
    exists tr: seq<State>, ls: seq<Label> :: Execution(tr, ls) && tr[0] == s && tr[|ls|] == s'
  }

  lemma Stay(s: State)
    ensures Reaches(s, s)
  {
    assert Execution([s], []) && [s][0] == s;
  }

  lemma Advance(s: State, s': State, l: Label)
    requires Reaches(s, s') && Good(s') && Enabled(s', l)
    ensures Reaches(s, Step(s', l)) && Good(Step(s', l))
  {
    var tr: seq<State>, ls: seq<Label> :| Execution(tr, ls) && tr[0] == s && tr[|ls|] == s';
    var tr', ls' := Extend(tr, ls, l);
    assert tr'[0] == s && tr'[|ls'|] == Step(s', l);
    StepConserves(s', l);
  }

  lemma Join(s: State, s': State, s'': State)
    requires Reaches(s, s') && Reaches(s', s'') && Good(s')
    ensures Reaches(s, s'')
  {
    var tr: seq<State>, ls: seq<Label> :| Execution(tr, ls) && tr[0] == s' && tr[|ls|] == s'';
    JoinAlong(s, tr, ls, |ls|);
  }

  lemma {:induction false} JoinAlong(s: State, tr: seq<State>, ls: seq<Label>, i: nat)
    requires Execution(tr, ls) && i < |tr| && Reaches(s, tr[0]) && Good(tr[0])
    ensures Reaches(s, tr[i]) && Good(tr[i])
  {
    if i > 0 {
      JoinAlong(s, tr, ls, i - 1);
      assert Enabled(tr[i - 1], ls[i - 1]);
      Advance(s, tr[i - 1], ls[i - 1]);
    }
  }

  // ---------------------------------------------------------------------------
  // Uninterrupted calls as functions of the pipeline state
  // ---------------------------------------------------------------------------

  /** No goroutine is inside Handle. */
  predicate Calm(s: State) {
    && Good(s) && !s.panicked && s.producers == map[0 := Idle]
    && !s.copies && !s.staleHandlers && s.copyCloser.NoCopyClosed?
  }

  function AfterHandle(s: State, e: LogEntry): State {
    if !s.closer.Open? then s
    else if |s.buffer| < s.capacity then
      s.(buffer := s.buffer + [e],
         stats := s.stats.(bufferedEntries := s.stats.bufferedEntries + 1),
         log := s.log.(accepted := s.log.accepted + [e]))
    else
      s.(stats := s.stats.(droppedEntries := s.stats.droppedEntries + 1),
         log := s.log.(refused := s.log.refused + [e]))
  }

  /** The consumer takes the first entry, calls the inner handler and adds a counter. */
  function AfterEntry(s: State, fails: LogEntry -> bool): State
    requires s.buffer != []
  {
    s.(buffer := s.buffer[1..],
       stats := if fails(s.buffer[0]) then s.stats.(errorCount := s.stats.errorCount + 1)
                else s.stats.(processedEntries := s.stats.processedEntries + 1),
       log := s.log.(delivered := s.log.delivered + [s.buffer[0]]))
  }

  function Drained(s: State, fails: LogEntry -> bool): State
    decreases |s.buffer|
  {
    if s.buffer == [] then s.(consumer := Exited) else Drained(AfterEntry(s, fails), fails)
  }

  /** Each entry the inner handler was given is counted by its outcome: as an error if the handler
      `fails` on it, as processed if not. */
  predicate Tallied(s: State, fails: LogEntry -> bool) {
    && s.stats.processedEntries == |set k: nat | k < |s.log.delivered| && !fails(s.log.delivered[k])|
    && s.stats.errorCount == |set k: nat | k < |s.log.delivered| && fails(s.log.delivered[k])|
  }

  lemma OneMoreSuccess(delivered: seq<LogEntry>, e: LogEntry, fails: LogEntry -> bool)
    ensures var now := delivered + [e];
            |set k: nat | k < |now| && !fails(now[k])|
            == |set k: nat | k < |delivered| && !fails(delivered[k])| + (if fails(e) then 0 else 1)
  {
    var now, good := delivered + [e], set k: nat | k < |delivered| && !fails(delivered[k]);
    assert (set k: nat | k < |now| && !fails(now[k])) == if fails(e) then good else good + {|delivered|};
  }

  lemma OneMoreFailure(delivered: seq<LogEntry>, e: LogEntry, fails: LogEntry -> bool)
    ensures var now := delivered + [e];
            |set k: nat | k < |now| && fails(now[k])|
            == |set k: nat | k < |delivered| && fails(delivered[k])| + (if fails(e) then 1 else 0)
  {
    var now, bad := delivered + [e], set k: nat | k < |delivered| && fails(delivered[k]);
    assert (set k: nat | k < |now| && fails(now[k])) == if fails(e) then bad + {|delivered|} else bad;
  }

  lemma EntryTallied(s: State, fails: LogEntry -> bool)
    requires Tallied(s, fails) && s.buffer != []
    ensures Tallied(AfterEntry(s, fails), fails)
  {
    OneMoreSuccess(s.log.delivered, s.buffer[0], fails);
    OneMoreFailure(s.log.delivered, s.buffer[0], fails);
  }

  lemma {:induction false} DrainTallied(s: State, fails: LogEntry -> bool)
    requires Tallied(s, fails)
    ensures Tallied(Drained(s, fails), fails)
    decreases |s.buffer|
  {
    if s.buffer != [] {
      EntryTallied(s, fails);
      DrainTallied(AfterEntry(s, fails), fails);
    }
  }

  lemma HandleIsARun(s: State, e: LogEntry)
    requires Calm(s)
    ensures Reaches(s, AfterHandle(s, e)) && Calm(AfterHandle(s, e))
  {
    Stay(s);
    if s.closer.Open? {
      Advance(s, s, Check(0, e));
      var s1 := Step(s, Check(0, e));
      Advance(s, s1, Offer(0));
      var s2 := Step(s1, Offer(0));
      var l := if |s.buffer| < s.capacity then CountBuffered(0) else CountDropped(0);
      Advance(s, s2, l);
      assert Step(s2, l).producers == map[0 := Idle];
      assert Step(s2, l) == AfterHandle(s, e);
    }
  }

  lemma EntryIsARun(s: State, fails: LogEntry -> bool)
    requires Calm(s) && s.buffer != [] && (s.consumer.Receiving? || s.consumer.Draining?)
    ensures Reaches(s, AfterEntry(s, fails)) && Calm(AfterEntry(s, fails))
  {
    var take := if s.consumer.Draining? then DrainReceive else Receive;
    var give := Deliver(!fails(s.buffer[0]));
    Stay(s);
    Advance(s, s, take);
    var s1 := Step(s, take);
    Advance(s, s1, give);
    var s2 := Step(s1, give);
    Advance(s, s2, CountDelivered);
    assert Step(s2, CountDelivered) == AfterEntry(s, fails);
  }

  lemma {:induction false} DrainDelivers(s: State, fails: LogEntry -> bool)
    ensures var d := Drained(s, fails);
            && d.log == s.log.(delivered := s.log.delivered + s.buffer)
            && d.stats.processedEntries + d.stats.errorCount
               == s.stats.processedEntries + s.stats.errorCount + |s.buffer|
            && d == s.(buffer := [], consumer := Exited, log := d.log, stats := d.stats)
    decreases |s.buffer|
  {
    if s.buffer != [] {
      DrainDelivers(AfterEntry(s, fails), fails);
    }
  }

  /** drainBuffer delivers exactly the buffered entries, in order, and counts each once. */
  lemma {:induction false} DrainIsARun(s: State, fails: LogEntry -> bool)
    requires Calm(s) && s.consumer.Draining?
    ensures Reaches(s, Drained(s, fails)) && Calm(Drained(s, fails))
    decreases |s.buffer|
  {
    if s.buffer == [] {
      Stay(s);
      Advance(s, s, DrainDone);
    } else {
      var s1 := AfterEntry(s, fails);
      EntryIsARun(s, fails);
      DrainIsARun(s1, fails);
      Join(s, s1, Drained(s, fails));
    }
  }

  /** Wherever the select of processLoop chooses to stop receiving, the outcome is the same:
      taking one more entry first and then draining ends in the same state. */
  lemma ExitsAgree(s: State, fails: LogEntry -> bool)
    requires s.buffer != []
    ensures Drained(AfterEntry(s, fails).(consumer := Draining), fails) == Drained(s.(consumer := Draining), fails)
  {
    assert AfterEntry(s.(consumer := Draining), fails) == AfterEntry(s, fails).(consumer := Draining);
  }

  function AfterClose(s: State, fails: LogEntry -> bool): State {
    if !s.closer.Open? then s
    else Drained(s.(closer := ChannelClosed, consumer := Draining), fails).(closer := Returned)
  }

  lemma CloseSignals(s: State)
    requires Calm(s) && s.closer.Open? && s.consumer.Receiving?
    ensures var s' := s.(closer := ChannelClosed, consumer := Draining);
            Reaches(s, s') && Calm(s')
  {
    Stay(s);
    Advance(s, s, SetFlag);
    Advance(s, s.(closer := FlagSet), Signal);
    Advance(s, s.(closer := Signalled), ObserveClose);
    Advance(s, s.(closer := Signalled, consumer := Draining), CloseChannel);
  }

  /** A Close that no Handle overlaps delivers everything accepted and returns on doneCh. */
  lemma CloseIsARun(s: State, fails: LogEntry -> bool)
    requires Calm(s) && s.closer.Open? && s.consumer.Receiving?
    ensures var c := AfterClose(s, fails);
            && Reaches(s, c) && Calm(c) && c.consumer.Exited? && c.closer.Returned? && c.buffer == []
            && c.log == s.log.(delivered := s.log.accepted)
            && c.stats.processedEntries + c.stats.errorCount == |s.log.accepted|
  {
    CloseSignals(s);
    var s4 := s.(closer := ChannelClosed, consumer := Draining);
    DrainIsARun(s4, fails);
    DrainDelivers(s4, fails);
    Join(s, s4, Drained(s4, fails));
    Advance(s, Drained(s4, fails), AwaitDone);
  }

  function AfterTimeout(s: State): State {
    if !s.closer.Open? then s else s.(closer := Returned)
  }

  /** A Close that gives up leaves the buffer to the consumer and loses nothing. */
  lemma TimeoutIsARun(s: State)
    requires Calm(s) && s.closer.Open?
    ensures Reaches(s, AfterTimeout(s)) && Calm(AfterTimeout(s))
  {
    Stay(s);
    Advance(s, s, SetFlag);
    Advance(s, s.(closer := FlagSet), Signal);
    Advance(s, s.(closer := Signalled), CloseChannel);
    Advance(s, s.(closer := ChannelClosed), GiveUp);
  }

  // ---------------------------------------------------------------------------
  // AsyncHandler
  // ---------------------------------------------------------------------------

  lemma OfferedOnce(offered: seq<LogEntry>, log: History, e: LogEntry)
    requires multiset(offered) == multiset(log.accepted) + multiset(log.refused)
    ensures multiset(offered + [e]) == multiset(log.accepted + [e]) + multiset(log.refused)
    ensures multiset(offered + [e]) == multiset(log.accepted) + multiset(log.refused + [e])
  {
  }

  class AsyncHandler {
    const bufferSize: nat
    const fails: LogEntry -> bool    // whether the inner handler returns an error
    var buffer: seq<LogEntry>
    var closed: bool
    var closer: Closer               // closed, closeCh and the channel, in the order Close changes them
    var stats: AsyncStats
    ghost var consumer: Consumer     // where the consumer goroutine stands
    ghost var log: History
    ghost var offered: seq<LogEntry> // every entry for which Handle returned nil

    ghost function Model(): State
      reads this
    {
      State(bufferSize, map[0 := Idle], false, false, buffer, consumer, closer, NoCopyClosed, stats, false, log)
    }

    ghost predicate Valid()
      reads this
    {
      var calm, tallied := Calm(Model()), Tallied(Model(), fails);
      && calm
      && closed == !closer.Open?
      && (closer.Open? ==> consumer.Receiving?)
      && bufferSize > 0
      && tallied
      && multiset(offered) == multiset(log.accepted) + multiset(log.refused)
    }

    constructor (size: int, fails: LogEntry -> bool)
      ensures Valid() && Init(Model()) && offered == []
      ensures bufferSize == if size <= 0 then 1000 else size
      ensures this.fails == fails
    {
      this.fails := fails;
      bufferSize := if size <= 0 then 1000 else size;
      buffer, closed, closer, consumer := [], false, Open, Receiving;
      stats, log, offered := AsyncStats(0, 0, 0, 0, 0), History([], [], []), [];
      new;
      assert SentSet(Model().producers) == {} && RefusedSet(Model().producers) == {};
    }

    /** One uninterrupted call; `err` stands for ErrLoggerClosed. */
    method Handle(entry: LogEntry) returns (err: bool)
      requires Valid()
      modifies this
      ensures Valid() && Model() == AfterHandle(old(Model()), entry)
      ensures err == old(closed) == closed
      ensures offered == if err then old(offered) else old(offered) + [entry]
    {
      HandleIsARun(Model(), entry);
      OfferedOnce(offered, log, entry);
      if closed {
        return true;
      }
      offered := offered + [entry];
      if |buffer| < bufferSize {
        buffer := buffer + [entry];
        log := log.(accepted := log.accepted + [entry]);
        stats := stats.(bufferedEntries := stats.bufferedEntries + 1);
      } else {
        log := log.(refused := log.refused + [entry]);
        stats := stats.(droppedEntries := stats.droppedEntries + 1);
      }
      assert Model() == AfterHandle(old(Model()), entry);
      return false;
    }

    /** The body shared by the receiving cases of processLoop and drainBuffer. */
    method ProcessEntry()
      requires buffer != []
      modifies this`buffer, this`stats, this`log
      ensures Model() == AfterEntry(old(Model()), fails)
      ensures var failed := fails(old(buffer[0]));
              && stats.errorCount == old(stats.errorCount) + (if failed then 1 else 0)
              && stats.processedEntries == old(stats.processedEntries) + (if failed then 0 else 1)
    {
      var entry := buffer[0];
      buffer := buffer[1..];
      log := log.(delivered := log.delivered + [entry]);
      if fails(entry) {
        stats := stats.(errorCount := stats.errorCount + 1);
      } else {
        stats := stats.(processedEntries := stats.processedEntries + 1);
      }
    }

    method DrainBuffer()
      requires consumer.Draining?
      modifies this`buffer, this`stats, this`log, this`consumer
      ensures Model() == Drained(old(Model()), fails)
    {
      while buffer != []
        invariant consumer.Draining? && Drained(Model(), fails) == Drained(old(Model()), fails)
        decreases |buffer|
      {
        ProcessEntry();
      }
      consumer := Exited;
    }

    /** processLoop once closeCh and the channel are closed.  The select may keep taking
        entries or take either exit; the choice is arbitrary and does not show. */
    method ProcessLoop()
      requires consumer.Receiving?
      modifies this`buffer, this`stats, this`log, this`consumer
      ensures Model() == Drained(old(Model()).(consumer := Draining), fails)
    {
      var seesCloseCh := *;
      while buffer != [] && !seesCloseCh
        invariant consumer.Receiving?
        invariant Drained(Model().(consumer := Draining), fails)
               == Drained(old(Model()).(consumer := Draining), fails)
        decreases |buffer|
      {
        ExitsAgree(Model(), fails);
        ProcessEntry();
        seesCloseCh := *;
      }
      consumer := Draining;
      DrainBuffer();
    }

    /** Close with no call of Handle in progress: up to the point where doneCh is seen closed,
        or until the time limit passes before the consumer has moved. */
    method Close(timesOut: bool)
      requires Valid()
      modifies this
      ensures Valid() && closed && offered == old(offered)
      ensures Model() == if timesOut then AfterTimeout(old(Model())) else AfterClose(old(Model()), fails)
    {
      if closed {     // closeOnce has run
        return;
      }
      closed := true;
      if timesOut {
        TimeoutIsARun(Model());
        closer := Returned;
        return;
      }
      CloseIsARun(Model(), fails);
      DrainTallied(Model().(closer := ChannelClosed, consumer := Draining), fails);
      closer := ChannelClosed;
      ProcessLoop();
      closer := Returned;
    }
  }

  // ---------------------------------------------------------------------------
  // BatchingAsyncHandler
  // ---------------------------------------------------------------------------

  lemma TakeOneMore(done: seq<LogEntry>, batch: seq<LogEntry>, i: nat)
    requires i < |batch|
    ensures done + batch[..i] + [batch[i]] == done + batch[..i + 1]
  {
  }

  /** `batchMu` makes every method atomic; only the closed check at the top of Handle is
      outside it, so `LockedHandle` may also run on a handler closed in between. */
  class BatchingAsyncHandler {
    const inner: AsyncHandler
    const batchSize: nat
    var currentBatch: seq<LogEntry>
    ghost var handled: seq<LogEntry>   // every entry that reached the locked section

    /** Forwarded entries followed by the batch are exactly the handled entries, in order:
        each entry is forwarded at most once and none is skipped. */
    ghost predicate Valid()
      reads this, inner
    {
      var innerValid := inner.Valid();   // by name, so that the verifier takes it as a whole
      && innerValid
      && batchSize > 0
      && inner.offered + currentBatch == handled
      && (!inner.closed ==> |currentBatch| < batchSize)
    }

    constructor (batchSize: int, fails: LogEntry -> bool)
      ensures Valid() && fresh(inner) && !inner.closed && currentBatch == [] && handled == []
      ensures this.batchSize == if batchSize <= 0 then 100 else batchSize
      ensures inner.bufferSize == 1000
    {
      inner := new AsyncHandler(1000, fails);
      this.batchSize := if batchSize <= 0 then 100 else batchSize;
      currentBatch, handled := [], [];
    }

    /** The loop of processBatch: it stops at the first entry the inner handler rejects. */
    method ForwardBatch() returns (err: bool)
      requires inner.Valid()
      modifies inner
      ensures inner.Valid() && inner.closed == old(inner.closed)
      ensures err == (inner.closed && currentBatch != [])
      ensures inner.offered == if inner.closed then old(inner.offered) else old(inner.offered) + currentBatch
    {
      var batch, i := currentBatch, 0;
      ghost var before := inner.offered;
      err := false;
      while i < |batch| && !err
        invariant 0 <= i <= |batch| && inner.closed == old(inner.closed)
        invariant inner.Valid()
        invariant inner.offered == if inner.closed then before else before + batch[..i]
        invariant err == (inner.closed && i > 0)
        decreases |batch| - i
      {
        TakeOneMore(before, batch, i);
        err := HandOver(batch[i]);
        i := i + 1;
      }
      assert !inner.closed ==> batch[..i] == batch;
    }

    /** One entry to the embedded handler, as far as the loop cares. */
    method HandOver(entry: LogEntry) returns (err: bool)
      requires inner.Valid()
      modifies inner
      ensures inner.Valid() && err == inner.closed == old(inner.closed)
      ensures inner.offered == if err then old(inner.offered) else old(inner.offered) + [entry]
    {
      err := inner.Handle(entry);
    }

    method ProcessBatch() returns (err: bool)
      requires inner.Valid()
      modifies this`currentBatch, inner
      ensures inner.Valid() && inner.closed == old(inner.closed)
      ensures err == (inner.closed && old(currentBatch) != [])
      ensures if inner.closed then currentBatch == old(currentBatch) && inner.offered == old(inner.offered)
              else currentBatch == [] && inner.offered == old(inner.offered) + old(currentBatch)
    {
      err := ForwardBatch();
      if !err {
        currentBatch := [];
      }
    }

    /** The part of Handle under batchMu.  Run on a handler that was closed after the check,
        it leaves the entry in a batch that is never forwarded again. */
    method LockedHandle(entry: LogEntry) returns (err: bool)
      requires Valid()
      modifies this, inner
      ensures Valid() && handled == old(handled) + [entry]
      ensures inner.closed == old(inner.closed)
      ensures inner.closed ==> inner.offered == old(inner.offered)
      ensures err == (inner.closed && |old(currentBatch)| + 1 >= batchSize)
    {
      currentBatch := currentBatch + [entry];
      handled := handled + [entry];
      if |currentBatch| >= batchSize {
        err := ProcessBatch();
        return;
      }
      return false;
    }

    method Handle(entry: LogEntry) returns (err: bool)
      requires Valid()
      modifies this, inner
      ensures Valid() && err == old(inner.closed) == inner.closed
      ensures handled == if err then old(handled) else old(handled) + [entry]
      ensures !err ==> |currentBatch| < batchSize
    {
      if inner.closed {
        return true;
      }
      err := LockedHandle(entry);
    }

    /** What the timer callback does. */
    method BatchTimeout()
      requires Valid()
      modifies this, inner
      ensures Valid() && handled == old(handled) && inner.closed == old(inner.closed)
      ensures !inner.closed ==> currentBatch == [] && inner.offered == handled
    {
      var _ := ProcessBatch();
    }

    /** Everything handled before Close has been offered to the pipeline once and in order.  If
        Close does not time out, everything the pipeline accepted has been delivered, and the
        rest was dropped. */
    method Close(timesOut: bool)
      requires Valid()
      modifies this, inner
      ensures Valid() && inner.closed && handled == old(handled)
      ensures !old(inner.closed) ==> currentBatch == [] && inner.offered == handled
      ensures !old(inner.closed) && !timesOut ==>
                && inner.log.delivered == inner.log.accepted && inner.buffer == []
                && multiset(handled) == multiset(inner.log.delivered) + multiset(inner.log.refused)
    {
      var _ := ProcessBatch();
      CloseInner(timesOut);
    }

    method CloseInner(timesOut: bool)
      requires inner.Valid()
      modifies inner
      ensures inner.Valid() && inner.closed && inner.offered == old(inner.offered)
      ensures !old(inner.closed) && !timesOut ==> inner.log.delivered == inner.log.accepted && inner.buffer == []
    {
      if !inner.closed {
        CloseIsARun(inner.Model(), inner.fails);
      }
      inner.Close(timesOut);
    }
  }
}
