/**
  The asynchronous log pipeline as a labelled step system: any number of producer
  goroutines inside `Handle`, one consumer goroutine inside `processLoop` or
  `drainBuffer`, and the calls of `Close`.  Each label is one atomic action of the source: one
  atomic load, store or add, one channel operation, or one call of the inner handler.
 */
module AsyncPipeline {
  import opened Counting

  datatype LogEntry = LogEntry(record: string)

  // Where a goroutine stands inside Handle.
  datatype Producer =
    | Idle                       // not inside Handle
    | Checked(entry: LogEntry)   // has read closed == 0, has not reached the select
    | Sent                       // entry is in the channel, BufferedEntries not yet added
    | Refused                    // channel was full, DroppedEntries not yet added

  datatype Consumer =
    | Receiving                                   // at the select of processLoop
    | Handling(current: LogEntry, draining: bool) // inside the inner handler
    | Counting(ok: bool, draining: bool)          // inner handler returned, counter not yet added
    | Draining                                    // at the select of drainBuffer
    | Exited                                      // doneCh is closed

  datatype Closer =
    | Open
    | FlagSet         // closed == 1
    | Signalled       // closeCh is closed
    | ChannelClosed   // buffer is closed
    | Returned        // Close has returned

  // The first Close of a WithAttrs/WithGroup copy: a copy shares the channels, but has its own
  // closed flag and its own closeOnce.
  datatype CopyCloser =
    | NoCopyClosed
    | CopySignalled   // it has closed closeCh
    | CopyClosed      // it has closed buffer

  datatype AsyncStats = AsyncStats(
    bufferedEntries: nat, processedEntries: nat, droppedEntries: nat, flushCount: nat, errorCount: nat)

  /** What the channel took, what the inner handler was given, and what was dropped, each in
      order: not kept by the program. */
  datatype History = History(accepted: seq<LogEntry>, delivered: seq<LogEntry>, refused: seq<LogEntry>)

  datatype State = State(
    capacity: nat,
    producers: map<nat, Producer>,
    copies: bool,                // a WithAttrs/WithGroup copy exists
    staleHandlers: bool,         // one made while closed == 0 exists
    buffer: seq<LogEntry>,
    consumer: Consumer,
    closer: Closer,
    copyCloser: CopyCloser,
    stats: AsyncStats,
    panicked: bool,
    log: History)

  datatype Label =
    | Derive                            // WithAttrs or WithGroup
    | Check(t: nat, entry: LogEntry)    // Handle on the root handler loads closed
    | CheckStale(t: nat, entry: LogEntry) // Handle on a derived handler loads its own copy
    | Offer(t: nat)                     // the select of Handle
    | CountBuffered(t: nat)
    | CountDropped(t: nat)
    | Receive                           // processLoop takes an entry
    | ReceiveClosed                     // processLoop sees the closed, empty channel
    | ObserveClose                      // processLoop sees closeCh
    | DrainReceive
    | DrainDone
    | Deliver(ok: bool)                 // the inner handler returns
    | CountDelivered
    | SetFlag
    | Signal
    | CloseChannel
    | AwaitDone                         // Close sees doneCh
    | GiveUp                            // Close times out
    | SignalByCopy                      // Close on a copy closes closeCh
    | CloseChannelByCopy                // and then buffer
    | Flush                             // Flush loads closed and adds FlushCount

  predicate CloseSignalled(s: State) {
    s.closer.Signalled? || s.closer.ChannelClosed? || s.closer.Returned? || !s.copyCloser.NoCopyClosed?
  }

  predicate BufferClosed(s: State) { s.closer.ChannelClosed? || s.closer.Returned? || s.copyCloser.CopyClosed? }

  predicate Enabled(s: State, l: Label) {
    var possible := match l {
      case Derive | Flush => true
      case Check(t, _) => t in s.producers && s.producers[t].Idle?
      case CheckStale(t, _) => s.staleHandlers && t in s.producers && s.producers[t].Idle?
      case Offer(t) => t in s.producers && s.producers[t].Checked?
      case CountBuffered(t) => t in s.producers && s.producers[t].Sent?
      case CountDropped(t) => t in s.producers && s.producers[t].Refused?
      case Receive => s.consumer.Receiving? && s.buffer != []
      case ReceiveClosed => s.consumer.Receiving? && s.buffer == [] && BufferClosed(s)
      case ObserveClose => s.consumer.Receiving? && CloseSignalled(s)
      case DrainReceive => s.consumer.Draining? && s.buffer != []
      case DrainDone => s.consumer.Draining? && s.buffer == []
      case Deliver(_) => s.consumer.Handling?
      case CountDelivered => s.consumer.Counting?
      case SetFlag => s.closer.Open?
      case Signal => s.closer.FlagSet?
      case CloseChannel => s.closer.Signalled?
      case AwaitDone => s.closer.ChannelClosed? && s.consumer.Exited?
      case GiveUp => s.closer.ChannelClosed?
      case SignalByCopy => s.copies
      case CloseChannelByCopy => s.copyCloser.CopySignalled?
    };
    !s.panicked && possible
  }

  function Step(s: State, l: Label): State
    requires Enabled(s, l)
  {
    match l
    case Derive => s.(copies := true, staleHandlers := s.staleHandlers || s.closer.Open?)
    case Check(t, e) => if s.closer.Open? then s.(producers := s.producers[t := Checked(e)]) else s
    case CheckStale(t, e) => s.(producers := s.producers[t := Checked(e)])
    case Offer(t) =>
      var e := s.producers[t].entry;
      if BufferClosed(s) then
        s.(panicked := true)     // send on a closed channel
      else if |s.buffer| < s.capacity then
        s.(producers := s.producers[t := Sent], buffer := s.buffer + [e],
           log := s.log.(accepted := s.log.accepted + [e]))
      else
        s.(producers := s.producers[t := Refused], log := s.log.(refused := s.log.refused + [e]))
    case CountBuffered(t) =>
      s.(producers := s.producers[t := Idle],
         stats := s.stats.(bufferedEntries := s.stats.bufferedEntries + 1))
    case CountDropped(t) =>
      s.(producers := s.producers[t := Idle],
         stats := s.stats.(droppedEntries := s.stats.droppedEntries + 1))
    case Receive => s.(buffer := s.buffer[1..], consumer := Handling(s.buffer[0], false))
    case ReceiveClosed => s.(consumer := Draining)
    case ObserveClose => s.(consumer := Draining)
    case DrainReceive => s.(buffer := s.buffer[1..], consumer := Handling(s.buffer[0], true))
    case DrainDone => s.(consumer := Exited)
    case Deliver(ok) =>
      s.(consumer := Counting(ok, s.consumer.draining),
         log := s.log.(delivered := s.log.delivered + [s.consumer.current]))
    case CountDelivered =>
      var next := if s.consumer.draining then Draining else Receiving;
      s.(consumer := next,
         stats := if s.consumer.ok then s.stats.(processedEntries := s.stats.processedEntries + 1)
                  else s.stats.(errorCount := s.stats.errorCount + 1))
    case SetFlag => s.(closer := FlagSet)
    case Signal =>
      if CloseSignalled(s) then s.(panicked := true)     // close of a closed channel
      else s.(closer := Signalled)
    case CloseChannel => s.(closer := ChannelClosed)
    case AwaitDone => s.(closer := Returned)
    case GiveUp => s.(closer := Returned)
    case SignalByCopy =>
      if CloseSignalled(s) then s.(panicked := true)     // close of a closed channel
      else s.(copyCloser := CopySignalled)
    case CloseChannelByCopy => s.(copyCloser := CopyClosed)
    case Flush => if s.closer.Open? then s.(stats := s.stats.(flushCount := s.stats.flushCount + 1)) else s
  }

  predicate Init(s: State) {
    && s == State(s.capacity, s.producers, false, false, [], Receiving, Open, NoCopyClosed,
                  AsyncStats(0, 0, 0, 0, 0), false, History([], [], []))
    && forall t | t in s.producers :: s.producers[t].Idle?
  }

  /** `tr` is a run of the system, `ls[i]` being the action between `tr[i]` and `tr[i+1]`. */
  ghost predicate Execution(tr: seq<State>, ls: seq<Label>) {
    && |tr| == |ls| + 1
    && forall i {:trigger ls[i]} | 0 <= i < |ls| :: Enabled(tr[i], ls[i]) && tr[i + 1] == Step(tr[i], ls[i])
  }

  lemma Extend(tr: seq<State>, ls: seq<Label>, l: Label) returns (tr': seq<State>, ls': seq<Label>)
    requires Execution(tr, ls) && Enabled(tr[|ls|], l)
    ensures tr' == tr + [Step(tr[|ls|], l)] && ls' == ls + [l] && Execution(tr', ls')
  {
    tr', ls' := tr + [Step(tr[|ls|], l)], ls + [l];
    assert forall i {:trigger ls'[i]} | 0 <= i < |ls| :: ls'[i] == ls[i];
  }

  // ---------------------------------------------------------------------------
  // Conservation
  // ---------------------------------------------------------------------------

  function SentSet(p: map<nat, Producer>): set<nat> { set t | t in p && p[t].Sent? }

  function RefusedSet(p: map<nat, Producer>): set<nat> { set t | t in p && p[t].Refused? }

  function InFlight(s: State): seq<LogEntry> {
    if s.consumer.Handling? then [s.consumer.current] else []
  }

  function Uncounted(s: State): nat { if s.consumer.Counting? then 1 else 0 }

  /** Nothing lost, nothing duplicated, nothing reordered. */
  predicate Ordered(s: State) {
    && s.log.accepted == s.log.delivered + InFlight(s) + s.buffer
    && |s.buffer| <= s.capacity
  }

  predicate ProducersCounted(s: State) {
    && s.stats.bufferedEntries + |SentSet(s.producers)| == |s.log.accepted|
    && s.stats.droppedEntries + |RefusedSet(s.producers)| == |s.log.refused|
  }

  predicate ConsumerCounted(s: State) {
    s.stats.processedEntries + s.stats.errorCount + Uncounted(s) == |s.log.delivered|
  }

  predicate Conserved(s: State) { Ordered(s) && ProducersCounted(s) && ConsumerCounted(s) }

  /** The consumer leaves processLoop only once Close has signalled it. */
  predicate DrainsAfterSignal(s: State) {
    (s.consumer.Draining? || s.consumer.Exited? || (s.consumer.Handling? && s.consumer.draining)
     || (s.consumer.Counting? && s.consumer.draining)) ==> CloseSignalled(s)
  }

  predicate Good(s: State) { Conserved(s) && DrainsAfterSignal(s) }

  lemma SetSent(p: map<nat, Producer>, t: nat, v: Producer)
    requires t in p
    ensures |SentSet(p[t := v])| ==
            |SentSet(p)| - (if p[t].Sent? then 1 else 0) + (if v.Sent? then 1 else 0)
  {
    var others := SentSet(p) - {t};
    assert SentSet(p) == if p[t].Sent? then others + {t} else others;
    assert SentSet(p[t := v]) == if v.Sent? then others + {t} else others;
  }

  lemma SetRefused(p: map<nat, Producer>, t: nat, v: Producer)
    requires t in p
    ensures |RefusedSet(p[t := v])| ==
            |RefusedSet(p)| - (if p[t].Refused? then 1 else 0) + (if v.Refused? then 1 else 0)
  {
    var others := RefusedSet(p) - {t};
    assert RefusedSet(p) == if p[t].Refused? then others + {t} else others;
    assert RefusedSet(p[t := v]) == if v.Refused? then others + {t} else others;
  }

  lemma SetProducer(p: map<nat, Producer>, t: nat, v: Producer)
    requires t in p
    ensures |SentSet(p[t := v])| ==
            |SentSet(p)| - (if p[t].Sent? then 1 else 0) + (if v.Sent? then 1 else 0)
    ensures |RefusedSet(p[t := v])| ==
            |RefusedSet(p)| - (if p[t].Refused? then 1 else 0) + (if v.Refused? then 1 else 0)
  {
    SetSent(p, t, v);
    SetRefused(p, t, v);
  }

  /** The actions of the consumer goroutine. */
  predicate ConsumerLabel(l: Label) {
    l.Receive? || l.ReceiveClosed? || l.ObserveClose? || l.DrainReceive? || l.DrainDone?
    || l.Deliver? || l.CountDelivered?
  }

  /** The consumer touches neither producers nor closers, nor what they count. */
  lemma ConsumerFrame(s: State, l: Label)
    requires Enabled(s, l) && ConsumerLabel(l)
    ensures var s' := Step(s, l);
            s' == s.(buffer := s'.buffer, consumer := s'.consumer,
                     stats := s.stats.(processedEntries := s'.stats.processedEntries,
                                       errorCount := s'.stats.errorCount),
                     log := s.log.(delivered := s'.log.delivered))
  {
  }

  /** And nobody else touches the consumer or what it counts. */
  lemma OthersFrame(s: State, l: Label)
    requires Enabled(s, l) && !ConsumerLabel(l)
    ensures var s' := Step(s, l);
            && s'.consumer == s.consumer && s'.log.delivered == s.log.delivered && s'.capacity == s.capacity
            && s'.stats.processedEntries == s.stats.processedEntries && s'.stats.errorCount == s.stats.errorCount
            && (CloseSignalled(s) ==> CloseSignalled(s'))
  {
  }

  lemma FirstTaken(delivered: seq<LogEntry>, buffer: seq<LogEntry>)
    requires buffer != []
    ensures delivered + [] + buffer == delivered + [buffer[0]] + buffer[1..]
  {
  }

  lemma NoneInFlight(delivered: seq<LogEntry>, buffer: seq<LogEntry>)
    ensures delivered + [] + buffer == delivered + buffer
  {
  }

  lemma ConsumerKeepsOrder(s: State, l: Label)
    requires Ordered(s) && Enabled(s, l) && ConsumerLabel(l)
    ensures Ordered(Step(s, l))
  {
    if l.Receive? || l.DrainReceive? {
      FirstTaken(s.log.delivered, s.buffer);
    } else if l.Deliver? {
      NoneInFlight(s.log.delivered + [s.consumer.current], s.buffer);
    }
  }

  lemma OthersKeepOrder(s: State, l: Label)
    requires Ordered(s) && Enabled(s, l) && !ConsumerLabel(l)
    ensures Ordered(Step(s, l))
  {
    OthersFrame(s, l);
    assert !l.Offer? ==> Step(s, l).buffer == s.buffer && Step(s, l).log.accepted == s.log.accepted;
  }

  predicate ProducerLabel(l: Label) {
    l.Check? || l.CheckStale? || l.Offer? || l.CountBuffered? || l.CountDropped?
  }

  /** Copying, closing and flushing leave the producers and what they count alone. */
  lemma CallsFrame(s: State, l: Label)
    requires Enabled(s, l) && !ConsumerLabel(l) && !ProducerLabel(l)
    ensures var s' := Step(s, l);
            s' == s.(copies := s'.copies, staleHandlers := s'.staleHandlers, closer := s'.closer,
                     copyCloser := s'.copyCloser, panicked := s'.panicked,
                     stats := s.stats.(flushCount := s'.stats.flushCount))
  {
  }

  lemma OfferCounts(s: State, t: nat)
    requires ProducersCounted(s) && Enabled(s, Offer(t))
    ensures ProducersCounted(Step(s, Offer(t)))
  {
    SetProducer(s.producers, t, Sent);
    SetProducer(s.producers, t, Refused);
  }

  lemma ProducerStepCounts(s: State, l: Label)
    requires ProducersCounted(s) && Enabled(s, l) && ProducerLabel(l)
    ensures ProducersCounted(Step(s, l))
  {
    match l
    case Check(t, e) => SetProducer(s.producers, t, Checked(e));
    case CheckStale(t, e) => SetProducer(s.producers, t, Checked(e));
    case Offer(t) => OfferCounts(s, t);
    case CountBuffered(t) => SetProducer(s.producers, t, Idle);
    case CountDropped(t) => SetProducer(s.producers, t, Idle);
    case _ =>
  }

  lemma ConsumerStepCounts(s: State, l: Label)
    requires ConsumerCounted(s) && DrainsAfterSignal(s) && Enabled(s, l) && ConsumerLabel(l)
    ensures ConsumerCounted(Step(s, l)) && DrainsAfterSignal(Step(s, l))
  {
    ConsumerFrame(s, l);
  }

  lemma StepKeepsOrder(s: State, l: Label)
    requires Ordered(s) && Enabled(s, l)
    ensures Ordered(Step(s, l))
  {
    if ConsumerLabel(l) {
      ConsumerKeepsOrder(s, l);
    } else {
      OthersKeepOrder(s, l);
    }
  }

  lemma StepCountsProducers(s: State, l: Label)
    requires ProducersCounted(s) && Enabled(s, l)
    ensures ProducersCounted(Step(s, l))
  {
    if ConsumerLabel(l) {
      ConsumerFrame(s, l);
    } else if ProducerLabel(l) {
      ProducerStepCounts(s, l);
    } else {
      CallsFrame(s, l);
    }
  }

  lemma StepCountsConsumer(s: State, l: Label)
    requires ConsumerCounted(s) && DrainsAfterSignal(s) && Enabled(s, l)
    ensures ConsumerCounted(Step(s, l)) && DrainsAfterSignal(Step(s, l))
  {
    if ConsumerLabel(l) {
      ConsumerStepCounts(s, l);
    } else {
      OthersFrame(s, l);
    }
  }

  lemma StepConserves(s: State, l: Label)
    requires Conserved(s) && DrainsAfterSignal(s) && Enabled(s, l)
    ensures Conserved(Step(s, l)) && DrainsAfterSignal(Step(s, l))
  {
    StepKeepsOrder(s, l);
    StepCountsProducers(s, l);
    StepCountsConsumer(s, l);
  }

  /** In every reachable state of every interleaving the pipeline is FIFO and lossless. */
  lemma {:induction false} AlwaysConserved(tr: seq<State>, ls: seq<Label>, i: nat)
    requires Execution(tr, ls) && Init(tr[0]) && i < |tr|
    ensures Conserved(tr[i]) && DrainsAfterSignal(tr[i])
  {
    if i == 0 {
      assert SentSet(tr[0].producers) == {} && RefusedSet(tr[0].producers) == {};
    } else {
      AlwaysConserved(tr, ls, i - 1);
      assert Enabled(tr[i - 1], ls[i - 1]);
      StepConserves(tr[i - 1], ls[i - 1]);
    }
  }

  /** An entry is dropped exactly when the channel holds `capacity` entries, and a dropped
      entry never reaches the inner handler's queue. */
  lemma DropsOnlyWhenFull(tr: seq<State>, ls: seq<Label>, i: nat)
    requires Execution(tr, ls) && Init(tr[0]) && i < |ls|
    ensures tr[i + 1].log.refused != tr[i].log.refused <==>
            ls[i].Offer? && !BufferClosed(tr[i]) && |tr[i].buffer| == tr[i].capacity
    ensures tr[i + 1].log.refused != tr[i].log.refused ==> tr[i + 1].log.accepted == tr[i].log.accepted
  {
    AlwaysConserved(tr, ls, i);
    assert Enabled(tr[i], ls[i]);
    if ls[i].Offer? {
      assert |tr[i].log.refused + [tr[i].producers[ls[i].t].entry]| == |tr[i].log.refused| + 1;
    }
  }

  /** With no counter update pending the published statistics balance exactly. */
  lemma StatisticsBalance(tr: seq<State>, ls: seq<Label>, i: nat)
    requires Execution(tr, ls) && Init(tr[0]) && i < |tr|
    ensures var s := tr[i];
            s.stats.bufferedEntries + |SentSet(s.producers)|
            == s.stats.processedEntries + s.stats.errorCount + Uncounted(s) + |InFlight(s)| + |s.buffer|
    ensures var s := tr[i];
            (forall t | t in s.producers :: s.producers[t].Idle?) && s.buffer == [] && s.consumer.Receiving?
            ==> && s.stats.bufferedEntries == s.stats.processedEntries + s.stats.errorCount == |s.log.delivered|
                && s.stats.droppedEntries == |s.log.refused|
                && s.log.delivered == s.log.accepted
  {
    AlwaysConserved(tr, ls, i);
    var s := tr[i];
    if forall t | t in s.producers :: s.producers[t].Idle? {
      assert SentSet(s.producers) == {} && RefusedSet(s.producers) == {};
    }
  }

  /** ProcessedEntries, or ErrorCount, with an update the consumer has still to make. */
  function Counted(s: State, ok: bool): nat {
    (if ok then s.stats.processedEntries else s.stats.errorCount)
    + (if s.consumer.Counting? && s.consumer.ok == ok then 1 else 0)
  }

  lemma StepCounts(s: State, l: Label, ok: bool)
    requires Enabled(s, l)
    ensures Counted(Step(s, l), ok) == Counted(s, ok) + if l == Deliver(ok) then 1 else 0
  {
    if !ConsumerLabel(l) {
      OthersFrame(s, l);
    }
  }

  lemma CountedReturns(tr: seq<State>, ls: seq<Label>, i: nat, ok: bool)
    requires Execution(tr, ls) && Init(tr[0]) && i < |tr|
    ensures Counted(tr[i], ok) == |set k: nat | k < i && ls[k] == Deliver(ok)|
  {
    var counter := seq(|tr|, k requires 0 <= k < |tr| => Counted(tr[k], ok));
    var hit := seq(|ls|, k requires 0 <= k < |ls| => ls[k] == Deliver(ok));
    forall k {:trigger hit[k]} | 0 <= k < |ls| ensures counter[k + 1] == counter[k] + if hit[k] then 1 else 0 {
      assert Enabled(tr[k], ls[k]);
      StepCounts(tr[k], ls[k], ok);
    }
    CountsHits(counter, hit, i);
    assert Hits(hit, i) == set k: nat | k < i && ls[k] == Deliver(ok);
  }

  /** Each counter counts what it says, but for an update still to be made: ProcessedEntries the
      returns of the inner handler without an error, and ErrorCount those with one. */
  lemma CountersExact(tr: seq<State>, ls: seq<Label>, i: nat)
    requires Execution(tr, ls) && Init(tr[0]) && i < |tr|
    ensures tr[i].stats.processedEntries + (if tr[i].consumer.Counting? && tr[i].consumer.ok then 1 else 0)
         == |set k: nat | k < i && ls[k] == Deliver(true)|
    ensures tr[i].stats.errorCount + (if tr[i].consumer.Counting? && !tr[i].consumer.ok then 1 else 0)
         == |set k: nat | k < i && ls[k] == Deliver(false)|
  {
    CountedReturns(tr, ls, i, true);
    CountedReturns(tr, ls, i, false);
  }

  predicate FlushCounts(s: State, l: Label) { l.Flush? && s.closer.Open? }

  lemma FlushStep(s: State, l: Label)
    requires Enabled(s, l)
    ensures Step(s, l).stats.flushCount == s.stats.flushCount + if FlushCounts(s, l) then 1 else 0
  {
  }

  /** FlushCount counts the calls of Flush that find the handler open. */
  lemma FlushesExact(tr: seq<State>, ls: seq<Label>, i: nat)
    requires Execution(tr, ls) && Init(tr[0]) && i < |tr|
    ensures tr[i].stats.flushCount == |set k: nat | k < i && FlushCounts(tr[k], ls[k])|
  {
    var counter := seq(|tr|, k requires 0 <= k < |tr| => tr[k].stats.flushCount);
    var hit := seq(|ls|, k requires 0 <= k < |ls| => FlushCounts(tr[k], ls[k]));
    forall k {:trigger hit[k]} | 0 <= k < |ls| ensures counter[k + 1] == counter[k] + if hit[k] then 1 else 0 {
      assert Enabled(tr[k], ls[k]);
      FlushStep(tr[k], ls[k]);
    }
    CountsHits(counter, hit, i);
    assert Hits(hit, i) == set k: nat | k < i && FlushCounts(tr[k], ls[k]);
  }

  // ---------------------------------------------------------------------------
  // Flush
  // ---------------------------------------------------------------------------

  lemma {:induction false} AcceptedGrows(tr: seq<State>, ls: seq<Label>, i: nat, j: nat)
    requires Execution(tr, ls) && i <= j < |tr|
    ensures tr[i].log.accepted <= tr[j].log.accepted
  {
    if i < j {
      AcceptedGrows(tr, ls, i, j - 1);
      assert Enabled(tr[j - 1], ls[j - 1]);
    }
  }

  /** Flush starts at `i` and returns at `j` on seeing the buffer empty: of the entries
      accepted before it started all but at most the last one taken have been delivered. */
  lemma FlushLeavesAtMostOne(tr: seq<State>, ls: seq<Label>, i: nat, j: nat)
    requires Execution(tr, ls) && Init(tr[0]) && i <= j < |tr|
    requires tr[j].buffer == []
    ensures |tr[i].log.accepted| <= |tr[j].log.delivered| + 1
    ensures tr[i].log.accepted <= tr[j].log.delivered + InFlight(tr[j])
    ensures tr[i].log.accepted <= tr[j].log.delivered <==>
            !(tr[j].consumer.Handling? && |tr[i].log.accepted| == |tr[j].log.accepted|)
  {
    AlwaysConserved(tr, ls, j);
    AcceptedGrows(tr, ls, i, j);
    var a, b := tr[i].log.accepted, tr[j].log.accepted;
    assert b == tr[j].log.delivered + InFlight(tr[j]);
    if |a| <= |tr[j].log.delivered| {
      assert a == b[..|a|] == tr[j].log.delivered[..|a|];
    }
  }

  lemma OneAccepted(e: LogEntry) returns (tr: seq<State>, ls: seq<Label>)
    ensures Execution(tr, ls) && |ls| == 2 && Init(tr[0])
    ensures tr[2] == State(1, map[0 := Sent], false, false, [e], Receiving, Open, NoCopyClosed,
                             AsyncStats(0, 0, 0, 0, 0), false, History([e], [], []))
  {
    var s0 := State(1, map[0 := Idle], false, false, [], Receiving, Open, NoCopyClosed,
                    AsyncStats(0, 0, 0, 0, 0), false, History([], [], []));
    tr, ls := Extend([s0], [], Check(0, e));
    assert tr[1] == s0.(producers := map[0 := Checked(e)]);
    tr, ls := Extend(tr, ls, Offer(0));
    assert tr[2].producers == map[0 := Sent];
  }

  /** Flush does not wait for the entry in flight: a run in which it starts at state 2, with
      `e` accepted, and returns at state 4 on an empty buffer, with nothing delivered. */
  lemma FlushCanReturnEarly(e: LogEntry) returns (tr: seq<State>, ls: seq<Label>)
    ensures Execution(tr, ls) && |tr| == 5 && Init(tr[0])
    ensures tr[2].log.accepted == [e] && ls[2] == Flush
    ensures tr[4].buffer == [] && tr[4].log.delivered == []
  {
    tr, ls := OneAccepted(e);
    tr, ls := Extend(tr, ls, Flush);
    tr, ls := Extend(tr, ls, Receive);
  }

  // ---------------------------------------------------------------------------
  // Shutdown
  // ---------------------------------------------------------------------------

  /** Some goroutine can still reach the send after `closed` was set: it sits between its
      closed check and its send, or it holds a derived handler whose copied flag is stale. */
  predicate AtRisk(s: State) {
    exists t :: t in s.producers && (s.producers[t].Checked? || s.staleHandlers)
  }

  /** What Close promises: no crash, and everything accepted is delivered before doneCh closes. */
  predicate SafeShutdown(s: State) {
    && !s.panicked
    && (s.consumer.Exited? ==> s.buffer == [] && s.log.delivered == s.log.accepted)
  }

  predicate Quiet(s: State) {
    && Conserved(s) && DrainsAfterSignal(s)
    && !s.closer.Open? && s.copyCloser.NoCopyClosed? && !AtRisk(s) && SafeShutdown(s)
  }

  /** Nobody calls Close on a copy. */
  ghost predicate NoCopyCloses(ls: seq<Label>) { forall i | 0 <= i < |ls| :: !ls[i].SignalByCopy? }

  lemma QuietStep(s: State, l: Label)
    requires Quiet(s) && Enabled(s, l) && !l.SignalByCopy?
    ensures Quiet(Step(s, l)) && Step(s, l).log.accepted == s.log.accepted
  {
    StepConserves(s, l);
    var s' := Step(s, l);
    forall t | t in s'.producers
      ensures !s'.producers[t].Checked? && !s'.staleHandlers
    {
      assert t in s.producers;
    }
  }

  lemma {:induction false} QuietForever(tr: seq<State>, ls: seq<Label>, k: nat, i: nat)
    requires Execution(tr, ls) && NoCopyCloses(ls) && k <= i < |tr| && Quiet(tr[k])
    ensures Quiet(tr[i]) && tr[i].log.accepted == tr[k].log.accepted
  {
    if k < i {
      QuietForever(tr, ls, k, i - 1);
      assert Enabled(tr[i - 1], ls[i - 1]);
      QuietStep(tr[i - 1], ls[i - 1]);
    }
  }

  lemma {:induction false} CopiesOpen(tr: seq<State>, ls: seq<Label>, i: nat)
    requires Execution(tr, ls) && NoCopyCloses(ls) && Init(tr[0]) && i < |tr|
    ensures tr[i].copyCloser.NoCopyClosed?
  {
    if i > 0 {
      CopiesOpen(tr, ls, i - 1);
      assert Enabled(tr[i - 1], ls[i - 1]);
    }
  }

  /** If nobody is at risk when Close sets the flag (step `k`), and nobody closes a copy, then on
      both exit paths of processLoop the channel is empty and every accepted entry has been delivered once, in
      order, with its counter added; nothing panics and nothing is accepted afterwards. */
  lemma ShutdownComplete(tr: seq<State>, ls: seq<Label>, k: nat, i: nat)
    requires Execution(tr, ls) && NoCopyCloses(ls) && Init(tr[0])
    requires k < |ls| && ls[k].SetFlag? && !AtRisk(tr[k]) && k < i < |tr|
    ensures SafeShutdown(tr[i]) && tr[i].log.accepted == tr[k].log.accepted
    ensures tr[i].consumer.Exited? ==>
              tr[i].stats.processedEntries + tr[i].stats.errorCount == |tr[k].log.accepted|
  {
    AlwaysConserved(tr, ls, k);
    assert Enabled(tr[k], ls[k]);
    StepConserves(tr[k], ls[k]);
    CopiesOpen(tr, ls, k);
    assert !AtRisk(tr[k + 1]) by {
      assert tr[k + 1] == tr[k].(closer := FlagSet);
    }
    QuietForever(tr, ls, k + 1, i);
  }

  /** A Close that returns because it saw doneCh closed returns after the last delivery. */
  lemma AwaitedCloseDelivered(tr: seq<State>, ls: seq<Label>, k: nat, i: nat)
    requires Execution(tr, ls) && NoCopyCloses(ls) && Init(tr[0])
    requires k < i < |ls| && ls[k].SetFlag? && !AtRisk(tr[k]) && ls[i].AwaitDone?
    ensures tr[i].buffer == [] && tr[i].log.delivered == tr[k].log.accepted
  {
    ShutdownComplete(tr, ls, k, i);
    assert Enabled(tr[i], ls[i]);
  }

  /** Whatever happens next, short of closing a copy, is safe. */
  ghost predicate AllContinuationsSafe(s: State) {
    forall tr: seq<State>, ls: seq<Label>, i: nat ::
      Execution(tr, ls) && NoCopyCloses(ls) && tr[0] == s && i < |tr| ==> SafeShutdown(tr[i])
  }

  /** Closing a copy makes a Close under way panic, whichever of the two comes first. */
  lemma CopyCloseCrashes(s: State)
    requires s.closer.FlagSet? && s.copyCloser.NoCopyClosed? && s.copies && !s.panicked
    ensures Enabled(s, SignalByCopy) && Enabled(s, Signal)
    ensures Enabled(Step(s, SignalByCopy), Signal) && Step(Step(s, SignalByCopy), Signal).panicked
    ensures Enabled(Step(s, Signal), SignalByCopy) && Step(Step(s, Signal), SignalByCopy).panicked
  {
  }

  /** And it leaves an open root behind: Handle on it still finds closed == 0, and its send panics
      exactly when a copy has closed the buffer. */
  lemma HandleCrashesIffCopyClosed(s: State, t: nat, e: LogEntry)
    requires s.closer.Open? && !s.panicked && t in s.producers && s.producers[t].Idle?
    ensures Enabled(s, Check(t, e)) && Enabled(Step(s, Check(t, e)), Offer(t))
    ensures Step(Step(s, Check(t, e)), Offer(t)).panicked <==> s.copyCloser.CopyClosed?
  {
    assert BufferClosed(s) <==> s.copyCloser.CopyClosed?;
  }

  lemma CrashAfterCopyClose(s: State)
    requires s.closer.FlagSet? && !s.copyCloser.NoCopyClosed? && !s.panicked
    ensures !AllContinuationsSafe(s)
  {
    var tr, ls := [s, Step(s, Signal)], [Signal];
    assert Execution(tr, ls) && NoCopyCloses(ls) && tr[0] == s && !SafeShutdown(tr[1]);
  }

  lemma CrashAfterCheck(s: State, t: nat)
    requires s.closer.FlagSet? && s.copyCloser.NoCopyClosed? && !s.panicked
    requires t in s.producers && s.producers[t].Checked?
    ensures !AllContinuationsSafe(s)
  {
    var ls := [Signal, CloseChannel, Offer(t)];
    var s1 := Step(s, ls[0]);
    var s2 := Step(s1, ls[1]);
    var s3 := Step(s2, ls[2]);
    var tr := [s, s1, s2, s3];
    assert Execution(tr, ls) && NoCopyCloses(ls) && tr[0] == s && !SafeShutdown(tr[3]);
  }

  lemma UnsafeBefore(s: State, l: Label)
    requires Enabled(s, l) && !l.SignalByCopy? && !AllContinuationsSafe(Step(s, l))
    ensures !AllContinuationsSafe(s)
  {
    var tr: seq<State>, ls: seq<Label>, i: nat :|
      Execution(tr, ls) && NoCopyCloses(ls) && tr[0] == Step(s, l) && i < |tr| && !SafeShutdown(tr[i]);
    var tr', ls' := [s] + tr, [l] + ls;
    forall j {:trigger ls'[j]} | 0 <= j < |ls'|
      ensures Enabled(tr'[j], ls'[j]) && tr'[j + 1] == Step(tr'[j], ls'[j])
    {
      if j > 0 {
        assert ls'[j] == ls[j - 1];
      }
    }
    assert Execution(tr', ls') && NoCopyCloses(ls') && tr'[0] == s && !SafeShutdown(tr'[i + 1]);
  }

  /** The hypothesis of ShutdownComplete is exact.  Once the flag is set, Close is safe on
      every continuation that closes no copy if and only if no goroutine is at risk and no copy
      has been closed before. */
  lemma ShutdownSafeIffNobodyAtRisk(tr: seq<State>, ls: seq<Label>, k: nat)
    requires Execution(tr, ls) && Init(tr[0]) && k < |tr| && !tr[k].panicked && tr[k].closer.FlagSet?
    ensures AllContinuationsSafe(tr[k]) <==> !AtRisk(tr[k]) && tr[k].copyCloser.NoCopyClosed?
  {
    AlwaysConserved(tr, ls, k);
    var s := tr[k];
    if !s.copyCloser.NoCopyClosed? {
      CrashAfterCopyClose(s);
    } else if AtRisk(s) {
      var t :| t in s.producers && (s.producers[t].Checked? || s.staleHandlers);
      var e := LogEntry("");
      match s.producers[t] {
        case Checked(_) => CrashAfterCheck(s, t);
        case Idle => CrashAfterCheck(Step(s, CheckStale(t, e)), t); UnsafeBefore(s, CheckStale(t, e));
        case Sent =>
          var s1 := Step(s, CountBuffered(t));
          CrashAfterCheck(Step(s1, CheckStale(t, e)), t);
          UnsafeBefore(s1, CheckStale(t, e));
          UnsafeBefore(s, CountBuffered(t));
        case Refused =>
          var s1 := Step(s, CountDropped(t));
          CrashAfterCheck(Step(s1, CheckStale(t, e)), t);
          UnsafeBefore(s1, CheckStale(t, e));
          UnsafeBefore(s, CountDropped(t));
      }
    } else {
      forall tr': seq<State>, ls': seq<Label>, i: nat |
        Execution(tr', ls') && NoCopyCloses(ls') && tr'[0] == s && i < |tr'|
        ensures SafeShutdown(tr'[i])
      {
        QuietForever(tr', ls', 0, i);
      }
    }
  }

  // ---------------------------------------------------------------------------
  // The consumer finishes
  // ---------------------------------------------------------------------------

  /** An upper bound on the consumer actions still needed to close doneCh. */
  function Remaining(s: State): nat {
    3 * |s.buffer| +
    match s.consumer
    case Receiving => 2
    case Handling(_, d) => if d then 3 else 4
    case Counting(_, d) => if d then 2 else 3
    case Draining => 1
    case Exited => 0
  }

  function ConsumerSteps(ls: seq<Label>): nat {
    if ls == [] then 0
    else ConsumerSteps(ls[..|ls| - 1]) + (if ConsumerLabel(ls[|ls| - 1]) then 1 else 0)
  }

  lemma RemainingDecreases(s: State, l: Label)
    requires Quiet(s) && Enabled(s, l) && !l.SignalByCopy?
    ensures ConsumerLabel(l) ==> Remaining(Step(s, l)) < Remaining(s)
    ensures !ConsumerLabel(l) ==> Remaining(Step(s, l)) == Remaining(s)
  {
    assert forall t | t in s.producers :: !s.producers[t].Checked?;
  }

  /** Once closeCh is closed the consumer always has an action to take until it has exited. */
  lemma ConsumerCanMove(s: State) returns (l: Label)
    requires CloseSignalled(s) && !s.consumer.Exited? && !s.panicked
    ensures ConsumerLabel(l) && Enabled(s, l)
  {
    l := match s.consumer
      case Receiving => ObserveClose
      case Handling(_, _) => Deliver(true)
      case Counting(_, _) => CountDelivered
      case _ => if s.buffer == [] then DrainDone else DrainReceive;
  }

  lemma QuietStepCounts(s: State, l: Label)
    requires Quiet(s) && Enabled(s, l) && !l.SignalByCopy?
    ensures (if ConsumerLabel(l) then 1 else 0) + Remaining(Step(s, l)) <= Remaining(s)
  {
    RemainingDecreases(s, l);
  }

  /** From the closing state `tr[0]` the consumer takes at most `Remaining` actions in the first
      `n` steps of any interleaving: with ConsumerCanMove, doneCh closes under every schedule
      that keeps running the consumer. */
  lemma {:induction false} ConsumerFinishes(tr: seq<State>, ls: seq<Label>, n: nat)
    requires Execution(tr, ls) && NoCopyCloses(ls) && n <= |ls|
    requires Quiet(tr[0])
    ensures ConsumerSteps(ls[..n]) + Remaining(tr[n]) <= Remaining(tr[0])
  {
    if n > 0 {
      ConsumerFinishes(tr, ls, n - 1);
      QuietForever(tr, ls, 0, n - 1);
      assert Enabled(tr[n - 1], ls[n - 1]);
      QuietStepCounts(tr[n - 1], ls[n - 1]);
      assert ls[..n][..n - 1] == ls[..n - 1];
    }
  }
}
