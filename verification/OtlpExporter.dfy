/**
  The OTLP export handler: `Handle` calls enqueue on a bounded channel while one export
  goroutine collects records into batches.  The handler is an object whose every atomic
  action is proved to be one step of the labelled system below.
 */
module OtlpExporter {

  datatype Record = Record(message: string)

  /** Where the goroutine of exportLoop stands. */
  datatype Loop = Starting | Running | Stopped

  datatype State = State(
    queueSize: nat,
    batchSize: int,
    timeout: int,
    queue: seq<Record>,
    batch: seq<Record>,
    exported: seq<seq<Record>>,    // the argument of every exportBatch call, in order
    loop: Loop,
    done: bool,                    // the done channel is closed
    panicked: bool,
    attempts: nat,
    failures: nat,
    accepted: seq<Record>,         // history: what the queue took
    dropped: seq<Record>)          // history: what found the queue full

  datatype Label =
    | Enqueue(r: Record)   // the select of Handle, after the next handler has succeeded
    | Handoff(r: Record)   // the same on an unbuffered queue, with exportLoop at its select
    | Start                // exportLoop makes its batch and its ticker
    | Take                 // exportLoop receives a record
    | Tick                 // exportLoop sees the ticker
    | Finish               // exportLoop sees done
    | CloseDone            // Close closes done

  predicate Enabled(s: State, l: Label) {
    var possible := match l {
      case Enqueue(_) | CloseDone => true
      case Handoff(_) => s.loop.Running? && s.queueSize == 0
      case Start => s.loop.Starting?
      case Take => s.loop.Running? && s.queue != []
      case Tick => s.loop.Running?
      case Finish => s.loop.Running? && s.done
    };
    !s.panicked && possible
  }

  /** Neither the capacity of the batch nor the period of the ticker makes Go panic. */
  predicate CanStart(s: State) { s.batchSize >= 0 && s.timeout > 0 }

  function ExportBatch(s: State): State {
    s.(exported := s.exported + [s.batch], attempts := s.attempts + 1, batch := [])
  }

  /** exportLoop appends a record and exports a full batch. */
  function Received(s: State, r: Record): State {
    var t := s.(batch := s.batch + [r]);
    if |t.batch| >= s.batchSize then ExportBatch(t) else t
  }

  function Step(s: State, l: Label): State
    requires Enabled(s, l)
  {
    match l
    case Enqueue(r) =>
      if |s.queue| < s.queueSize then s.(queue := s.queue + [r], accepted := s.accepted + [r])
      else s.(failures := s.failures + 1, dropped := s.dropped + [r])
    case Handoff(r) => Received(s.(accepted := s.accepted + [r]), r)
    case Start => if CanStart(s) then s.(loop := Running) else s.(panicked := true)
    case Take => Received(s.(queue := s.queue[1..]), s.queue[0])
    case Tick => if |s.batch| > 0 then ExportBatch(s) else s
    case Finish => (if |s.batch| > 0 then ExportBatch(s) else s).(loop := Stopped)
    case CloseDone => if s.done then s.(panicked := true) else s.(done := true)   // close of a closed channel
  }

  predicate Init(s: State) {
    s == State(s.queueSize, s.batchSize, s.timeout, [], [], [], Starting, false, false, 0, 0, [], [])
  }

  ghost predicate Execution(tr: seq<State>, ls: seq<Label>) {
    && |tr| == |ls| + 1
    && forall i {:trigger ls[i]} | 0 <= i < |ls| :: Enabled(tr[i], ls[i]) && tr[i + 1] == Step(tr[i], ls[i])
  }

  function Flatten(bs: seq<seq<Record>>): seq<Record> {
    if bs == [] then [] else Flatten(bs[..|bs| - 1]) + bs[|bs| - 1]
  }

  lemma FlattenAppend(bs: seq<seq<Record>>, b: seq<Record>)
    ensures Flatten(bs + [b]) == Flatten(bs) + b
  {
    assert (bs + [b])[..|bs|] == bs;
  }

  /** The size at which a batch is exported: 0 acts as 1, and a negative
      BatchSize does not get past Start. */
  function Limit(s: State): nat { if s.batchSize < 1 then 1 else s.batchSize }

  /** What has left the queue: exported, or in the batch that is exported at the end. */
  function LeftQueue(s: State): seq<Record> { Flatten(s.exported) + s.batch }

  predicate Accounted(s: State) { LeftQueue(s) + s.queue == s.accepted && |s.queue| <= s.queueSize }

  /** Batches are non-empty and within the limit, attempts count them, failures count drops. */
  predicate Sized(s: State) {
    && (forall i | 0 <= i < |s.exported| :: 0 < |s.exported[i]| <= Limit(s))
    && s.attempts == |s.exported|
    && s.failures == |s.dropped|
    && |s.batch| < Limit(s)
  }

  predicate Conserved(s: State) {
    && Accounted(s) && Sized(s)
    && (s.loop.Stopped? ==> s.batch == [] && s.done)
  }

  lemma Regroup(a: seq<Record>, b: seq<Record>, c: seq<Record>)
    ensures a + (b + c) == a + b + c
  {
  }

  lemma ReceivedLeaves(s: State, r: Record)
    ensures LeftQueue(Received(s, r)) == LeftQueue(s) + [r]
  {
    var f := Flatten(s.exported);
    FlattenAppend(s.exported, s.batch + [r]);
    Regroup(f, s.batch, [r]);
    assert f + (s.batch + [r]) + [] == f + (s.batch + [r]);
  }

  lemma ExportLeaves(s: State)
    ensures LeftQueue(ExportBatch(s)) == LeftQueue(s)
  {
    FlattenAppend(s.exported, s.batch);
  }

  lemma TakeAccounts(s: State)
    requires Accounted(s) && Enabled(s, Take)
    ensures Accounted(Step(s, Take))
  {
    ReceivedLeaves(s.(queue := s.queue[1..]), s.queue[0]);
    Regroup(LeftQueue(s), [s.queue[0]], s.queue[1..]);
    assert s.queue == [s.queue[0]] + s.queue[1..];
  }

  lemma HandoffAccounts(s: State, r: Record)
    requires Accounted(s) && Enabled(s, Handoff(r))
    ensures Accounted(Step(s, Handoff(r)))
  {
    ReceivedLeaves(s.(accepted := s.accepted + [r]), r);
    assert s.accepted == LeftQueue(s);
  }

  lemma EnqueueAccounts(s: State, r: Record)
    requires Accounted(s) && Enabled(s, Enqueue(r))
    ensures Accounted(Step(s, Enqueue(r)))
  {
    Regroup(LeftQueue(s), s.queue, [r]);
  }

  lemma StepAccounts(s: State, l: Label)
    requires Accounted(s) && Enabled(s, l)
    ensures Accounted(Step(s, l))
  {
    match l
    case Take => TakeAccounts(s);
    case Handoff(r) => HandoffAccounts(s, r);
    case Enqueue(r) => EnqueueAccounts(s, r);
    case _ => ExportLeaves(s);
  }

  lemma StepKeepsSizes(s: State, l: Label)
    requires Sized(s) && Enabled(s, l)
    ensures Sized(Step(s, l))
  {
  }

  lemma StepConserves(s: State, l: Label)
    requires Conserved(s) && Enabled(s, l)
    ensures Conserved(Step(s, l))
  {
    StepAccounts(s, l);
    StepKeepsSizes(s, l);
  }

  /** Every record the queue took is exported, batched or queued, once and in order; batches
      are non-empty and never exceed the limit; every drop is counted as a failure. */
  lemma {:induction false} AlwaysConserved(tr: seq<State>, ls: seq<Label>, i: nat)
    requires Execution(tr, ls) && Init(tr[0]) && i < |tr|
    ensures Conserved(tr[i])
  {
    if i > 0 {
      AlwaysConserved(tr, ls, i - 1);
      assert Enabled(tr[i - 1], ls[i - 1]);
      StepConserves(tr[i - 1], ls[i - 1]);
    }
  }

  /** A record is dropped exactly when it finds a full queue, and accepted otherwise. */
  lemma DropsOnlyWhenFull(tr: seq<State>, ls: seq<Label>, i: nat)
    requires Execution(tr, ls) && Init(tr[0]) && i < |ls| && (ls[i].Enqueue? || ls[i].Handoff?)
    ensures var full := ls[i].Enqueue? && |tr[i].queue| == tr[i].queueSize;
            if full then tr[i + 1].dropped == tr[i].dropped + [ls[i].r] && tr[i + 1].accepted == tr[i].accepted
            else tr[i + 1].accepted == tr[i].accepted + [ls[i].r] && tr[i + 1].dropped == tr[i].dropped
  {
    AlwaysConserved(tr, ls, i);
    assert Enabled(tr[i], ls[i]);
  }

  /** The ticker exports whatever has been taken, and so does the loop when it returns. */
  lemma TickExports(tr: seq<State>, ls: seq<Label>, i: nat)
    requires Execution(tr, ls) && Init(tr[0]) && i < |ls| && (ls[i].Tick? || ls[i].Finish?)
    ensures tr[i + 1].batch == [] && Flatten(tr[i + 1].exported) + tr[i + 1].queue == tr[i + 1].accepted
    ensures |tr[i + 1].exported| == |tr[i].exported| + (if tr[i].batch == [] then 0 else 1)
  {
    AlwaysConserved(tr, ls, i + 1);
    assert Enabled(tr[i], ls[i]);
    assert LeftQueue(tr[i + 1]) == Flatten(tr[i + 1].exported);
  }

  /** An export triggered by a record has exactly the limit; one triggered by the ticker or by
      shutdown is smaller. */
  lemma ExportSizes(tr: seq<State>, ls: seq<Label>, i: nat)
    requires Execution(tr, ls) && Init(tr[0]) && i < |ls|
    requires |tr[i + 1].exported| > |tr[i].exported|
    ensures var last := tr[i + 1].exported[|tr[i].exported|];
            && tr[i + 1].exported == tr[i].exported + [last]
            && (ls[i].Take? || ls[i].Handoff? <==> |last| == Limit(tr[0]))
  {
    AlwaysConserved(tr, ls, i);
    ConfigurationFixed(tr, ls, i);
    assert Enabled(tr[i], ls[i]);
  }

  lemma {:induction false} ConfigurationFixed(tr: seq<State>, ls: seq<Label>, i: nat)
    requires Execution(tr, ls) && i < |tr|
    ensures tr[i].batchSize == tr[0].batchSize && tr[i].timeout == tr[0].timeout
  {
    if i > 0 {
      ConfigurationFixed(tr, ls, i - 1);
      assert Enabled(tr[i - 1], ls[i - 1]);
    }
  }

  lemma {:induction false} StoppedForever(tr: seq<State>, ls: seq<Label>, k: nat, i: nat)
    requires Execution(tr, ls) && k <= i < |tr| && tr[k].loop.Stopped?
    ensures tr[i].loop.Stopped? && tr[i].exported == tr[k].exported && tr[k].queue <= tr[i].queue
  {
    if k < i {
      StoppedForever(tr, ls, k, i - 1);
      assert Enabled(tr[i - 1], ls[i - 1]);
    }
  }

  // ---------------------------------------------------------------------------
  // Shutdown
  // ---------------------------------------------------------------------------

  /** Once the loop has returned, the records not exported are exactly those left in the queue,
      where they stay. */
  lemma ShutdownExports(tr: seq<State>, ls: seq<Label>, k: nat, i: nat)
    requires Execution(tr, ls) && Init(tr[0]) && k < |ls| && ls[k].Finish? && k < i < |tr|
    ensures Flatten(tr[i].exported) + tr[i].queue == tr[i].accepted
    ensures Flatten(tr[i].exported) + tr[k].queue == tr[k].accepted && tr[k].queue <= tr[i].queue
  {
    assert Enabled(tr[k], ls[k]);
    StoppedForever(tr, ls, k + 1, i);
    AlwaysConserved(tr, ls, i);
    AlwaysConserved(tr, ls, k + 1);
  }

  lemma LeftQueueGrows(s: State, l: Label)
    requires Enabled(s, l)
    ensures LeftQueue(s) <= LeftQueue(Step(s, l))
  {
    ExportLeaves(s);
    match l
    case Take => ReceivedLeaves(s.(queue := s.queue[1..]), s.queue[0]);
    case Handoff(r) => ReceivedLeaves(s.(accepted := s.accepted + [r]), r);
    case _ =>
  }

  lemma GrowsAndConserves(s: State, l: Label, left: seq<Record>)
    requires Enabled(s, l) && Conserved(s) && left <= LeftQueue(s)
    ensures left <= LeftQueue(Step(s, l)) && Conserved(Step(s, l))
  {
    LeftQueueGrows(s, l);
    StepConserves(s, l);
  }

  lemma {:induction false} LeftQueueGrowsAlong(tr: seq<State>, ls: seq<Label>, i: nat)
    requires Execution(tr, ls) && i < |tr| && Conserved(tr[0])
    ensures LeftQueue(tr[0]) <= LeftQueue(tr[i])
    ensures Conserved(tr[i])
  {
    if i > 0 {
      LeftQueueGrowsAlong(tr, ls, i - 1);
      assert Enabled(tr[i - 1], ls[i - 1]);
      GrowsAndConserves(tr[i - 1], ls[i - 1], LeftQueue(tr[0]));
    }
  }

  /** Whenever the loop has returned, everything accepted up to state `s` has been exported. */
  ghost predicate ExportsAllAccepted(s: State) {
    forall tr: seq<State>, ls: seq<Label>, i: nat ::
      Execution(tr, ls) && tr[0] == s && i < |tr| && tr[i].loop.Stopped? ==> s.accepted <= Flatten(tr[i].exported)
  }

  lemma FinishLeavesQueue(s: State)
    requires Conserved(s) && s.loop.Running? && s.done && !s.panicked && s.queue != []
    ensures !(s.accepted <= Flatten(Step(s, Finish).exported))
  {
    StepConserves(s, Finish);
    assert |Flatten(Step(s, Finish).exported)| + |s.queue| == |s.accepted|;
  }

  /** The losing run: the select picks done although the queue holds a record. */
  lemma FinishLosesQueue(s: State)
    requires Conserved(s) && s.done && !s.panicked && s.queue != []
    requires s.loop.Running? || (s.loop.Starting? && CanStart(s))
    ensures !ExportsAllAccepted(s)
  {
    if s.loop.Running? {
      var tr, ls := [s, Step(s, Finish)], [Finish];
      FinishLeavesQueue(s);
      assert Execution(tr, ls) && tr[0] == s && tr[1].loop.Stopped?;
    } else {
      var s1 := Step(s, Start);
      var tr, ls := [s, s1, Step(s1, Finish)], [Start, Finish];
      FinishLeavesQueue(s1);
      assert Execution(tr, ls) && tr[0] == s && tr[2].loop.Stopped?;
    }
  }

  lemma {:induction false} NeverStarts(tr: seq<State>, ls: seq<Label>, i: nat)
    requires Execution(tr, ls) && i < |tr| && tr[0].loop.Starting? && !CanStart(tr[0])
    ensures tr[i].loop.Starting? && !CanStart(tr[i])
  {
    if i > 0 {
      NeverStarts(tr, ls, i - 1);
      assert Enabled(tr[i - 1], ls[i - 1]);
    }
  }

  /** At the call of Close: every continuation in which the loop returns exports all that was
      accepted by then, if and only if the queue is empty at that moment, or the loop has yet to
      start and cannot. */
  lemma ShutdownExportsIff(tr: seq<State>, ls: seq<Label>, k: nat)
    requires Execution(tr, ls) && Init(tr[0]) && k < |ls| && ls[k].CloseDone? && !tr[k].done
    ensures ExportsAllAccepted(tr[k + 1]) <==> tr[k].queue == [] || (tr[k].loop.Starting? && !CanStart(tr[k]))
  {
    AlwaysConserved(tr, ls, k);
    AlwaysConserved(tr, ls, k + 1);
    assert Enabled(tr[k], ls[k]);
    var s := tr[k + 1];
    if s.queue != [] && !(s.loop.Starting? && !CanStart(s)) {
      FinishLosesQueue(s);
    } else {
      forall tr': seq<State>, ls': seq<Label>, i: nat |
        Execution(tr', ls') && tr'[0] == s && i < |tr'| && tr'[i].loop.Stopped?
        ensures s.accepted <= Flatten(tr'[i].exported)
      {
        if s.queue == [] {
          LeftQueueGrowsAlong(tr', ls', i);
        } else {
          NeverStarts(tr', ls', i);
        }
      }
    }
  }

  /** A run that starts empty and ends with an accepted record that is never exported. */
  lemma RecordLost(r: Record) returns (tr: seq<State>, ls: seq<Label>)
    ensures Execution(tr, ls) && |tr| == 5 && Init(tr[0]) && ls == [Start, Enqueue(r), CloseDone, Finish]
    ensures tr[4].accepted == [r] && tr[4].loop.Stopped? && Flatten(tr[4].exported) == []
  {
    var s0 := State(1, 1, 1, [], [], [], Starting, false, false, 0, 0, [], []);
    ls := [Start, Enqueue(r), CloseDone, Finish];
    var s1 := Step(s0, ls[0]);
    var s2 := Step(s1, ls[1]);
    var s3 := Step(s2, ls[2]);
    tr := [s0, s1, s2, s3, Step(s3, ls[3])];
  }

  /** A handler crashes exactly when Close is called a second time on it or on a copy, or when its
      loop starts with a negative BatchSize or without a positive Timeout. */
  lemma {:induction false} OneCloseIsSafe(tr: seq<State>, ls: seq<Label>, i: nat)
    requires Execution(tr, ls) && Init(tr[0]) && i < |tr|
    ensures tr[i].panicked <==> || (exists a, b :: 0 <= a < b < i && ls[a].CloseDone? && ls[b].CloseDone?)
                                || ((tr[0].batchSize < 0 || tr[0].timeout <= 0)
                                    && exists a :: 0 <= a < i && ls[a].Start?)
  {
    if i > 0 {
      OneCloseIsSafe(tr, ls, i - 1);
      ConfigurationFixed(tr, ls, i - 1);
      DoneIffClosed(tr, ls, i - 1);
      assert Enabled(tr[i - 1], ls[i - 1]);
      PanicStep(tr[i - 1], ls[i - 1]);
    }
  }

  lemma PanicStep(s: State, l: Label)
    requires Enabled(s, l)
    ensures Step(s, l).panicked <==> (l.CloseDone? && s.done) || (l.Start? && (s.batchSize < 0 || s.timeout <= 0))
    ensures Step(s, l).done <==> s.done || l.CloseDone?
  {
  }

  lemma {:induction false} DoneIffClosed(tr: seq<State>, ls: seq<Label>, i: nat)
    requires Execution(tr, ls) && Init(tr[0]) && i < |tr|
    ensures tr[i].done <==> exists a :: 0 <= a < i && ls[a].CloseDone?
  {
    if i > 0 {
      DoneIffClosed(tr, ls, i - 1);
      assert Enabled(tr[i - 1], ls[i - 1]);
      PanicStep(tr[i - 1], ls[i - 1]);
    }
  }

  /** The steps of the export goroutine. */
  predicate OfLoop(l: Label) { l.Start? || l.Take? || l.Tick? || l.Finish? }

  /** Of what was accepted before a Close that nobody disturbs, the records exported when it
      returns and those still queued are all there is. */
  lemma {:induction false} ClosedAlone(tr: seq<State>, ls: seq<Label>, n: nat)
    requires Execution(tr, ls) && Conserved(tr[0]) && 0 < n < |tr|
    requires ls[0].CloseDone? && forall i | 0 < i < |ls| :: OfLoop(ls[i])
    ensures tr[n].accepted == tr[0].accepted && tr[n].dropped == tr[0].dropped
    ensures Conserved(tr[n])
    ensures tr[n].loop.Stopped? ==> Flatten(tr[n].exported) + tr[n].queue == tr[0].accepted
  {
    assert Enabled(tr[n - 1], ls[n - 1]);
    if n > 1 {
      ClosedAlone(tr, ls, n - 1);
    }
    StepConserves(tr[n - 1], ls[n - 1]);
    assert tr[n].loop.Stopped? ==> LeftQueue(tr[n]) == Flatten(tr[n].exported);
  }

  lemma ExtendRun(tr: seq<State>, ls: seq<Label>, l: Label) returns (tr': seq<State>, ls': seq<Label>)
    requires Execution(tr, ls) && Enabled(tr[|ls|], l)
    ensures tr' == tr + [Step(tr[|ls|], l)] && ls' == ls + [l] && Execution(tr', ls')
  {
    tr', ls' := tr + [Step(tr[|ls|], l)], ls + [l];
    assert forall i {:trigger ls'[i]} | 0 <= i < |ls| :: ls'[i] == ls[i];
  }

  class OTLPHandler {
    const enabled: bool
    const queueSize: nat
    const batchSize: int
    const timeout: int
    var queue: seq<Record>
    var batch: seq<Record>
    var loop: Loop
    var done: bool
    var exportAttempts: nat
    var exportSuccesses: nat
    var exportFailures: nat
    ghost var exported: seq<seq<Record>>
    ghost var accepted: seq<Record>
    ghost var dropped: seq<Record>
    ghost var panicked: bool

    ghost function Model(): State
      reads this
    {
      State(queueSize, batchSize, timeout, queue, batch, exported, loop, done, panicked,
            exportAttempts, exportFailures, accepted, dropped)
    }

    constructor (enabled: bool, queueSize: nat, batchSize: int, timeout: int)
      ensures Init(Model()) && this.queueSize == queueSize && this.batchSize == batchSize && this.timeout == timeout
      ensures exportSuccesses == 0 && this.enabled == enabled
    {
      this.enabled, this.queueSize, this.batchSize, this.timeout := enabled, queueSize, batchSize, timeout;
      queue, batch, loop, done := [], [], Starting, false;
      exportAttempts, exportSuccesses, exportFailures := 0, 0, 0;
      exported, accepted, dropped, panicked := [], [], [], false;
    }

    /** `nextFails`: the next handler returns an error, which Handle passes on.  `waiting`: the
        export loop is at its select, which matters to an unbuffered queue. */
    method Handle(r: Record, nextFails: bool, waiting: bool) returns (err: bool)
      requires !panicked && (waiting ==> loop.Running?)
      modifies this
      ensures err == nextFails && exportSuccesses - exportAttempts == old(exportSuccesses - exportAttempts)
      ensures Model() == if err || !enabled then old(Model())
                         else Step(old(Model()), if queueSize == 0 && waiting then Handoff(r) else Enqueue(r))
    {
      if nextFails {
        return true;
      }
      if !enabled {
        return false;
      }
      if queueSize == 0 && waiting {
        accepted := accepted + [r];
        Receive(r);
      } else if |queue| < queueSize {
        queue, accepted := queue + [r], accepted + [r];
      } else {
        exportFailures, dropped := exportFailures + 1, dropped + [r];
      }
      return false;
    }

    /** The receiving case of exportLoop. */
    method Receive(r: Record)
      modifies this
      ensures Model() == Received(old(Model()), r)
      ensures exportSuccesses - exportAttempts == old(exportSuccesses - exportAttempts)
    {
      batch := batch + [r];
      if |batch| >= batchSize {
        ExportCurrent();
      }
    }

    method ExportCurrent()
      modifies this
      ensures Model() == ExportBatch(old(Model()))
      ensures exportSuccesses == old(exportSuccesses) + 1
    {
      exportAttempts := exportAttempts + 1;
      exported := exported + [batch];
      exportSuccesses := exportSuccesses + 1;
      batch := [];
    }

    /** What exportLoop does before its loop. */
    method Begin() returns (panics: bool)
      requires Enabled(Model(), Start)
      modifies this`loop, this`panicked
      ensures Model() == Step(old(Model()), Start) && panics == panicked
    {
      panics := batchSize < 0 || timeout <= 0;
      panicked := panics;
      if !panics {
        loop := Running;
      }
    }

    /** One iteration of exportLoop, `chosen` being the select case that fires. */
    method Iterate(chosen: Label)
      requires Enabled(Model(), chosen) && (chosen.Take? || chosen.Tick? || chosen.Finish?)
      modifies this
      ensures Model() == Step(old(Model()), chosen)
      ensures exportSuccesses - exportAttempts == old(exportSuccesses - exportAttempts)
    {
      match chosen {
        case Take =>
          var record := queue[0];
          queue := queue[1..];
          Receive(record);
        case Tick =>
          if |batch| > 0 {
            ExportCurrent();
          }
        case Finish =>
          if |batch| > 0 {
            ExportCurrent();
          }
          loop := Stopped;
      }
    }

    /** The rest of exportLoop once done is closed, with nobody else acting: the select takes
        any ready case. */
    method RunToEnd(ghost tr0: seq<State>, ghost ls0: seq<Label>) returns (ghost tr: seq<State>, ghost ls: seq<Label>)
      requires Execution(tr0, ls0) && tr0[|ls0|] == Model() && done && !panicked && loop.Running?
      modifies this
      ensures Execution(tr, ls) && tr0 <= tr && ls0 <= ls && tr[|ls|] == Model()
      ensures forall i | |ls0| <= i < |ls| :: OfLoop(ls[i])
      ensures loop.Stopped? && !panicked
    {
      tr, ls := tr0, ls0;
      while loop.Running?
        invariant Execution(tr, ls) && tr0 <= tr && ls0 <= ls && tr[|ls|] == Model()
        invariant forall i | |ls0| <= i < |ls| :: OfLoop(ls[i])
        invariant done && !panicked && !loop.Starting?
        decreases loop.Running?, |queue|, |batch|
      {
        var chosen: Label := *;
        if !(chosen.Take? && queue != []) && !(chosen.Tick? && batch != []) {
          chosen := Finish;
        }
        Iterate(chosen);
        tr, ls := ExtendRun(tr, ls, chosen);
      }
    }

    /** Nothing to close when disabled, and a second call closes a closed channel.  The handler
        itself waits for exportLoop; a copy has a WaitGroup of its own and does not. */
    method Close(isCopy: bool) returns (panics: bool, ghost tr: seq<State>, ghost ls: seq<Label>)
      requires !panicked
      modifies this
      ensures panics == panicked == (enabled && (old(done) || (!isCopy && old(loop).Starting? && !CanStart(Model()))))
      ensures Execution(tr, ls) && tr[0] == old(Model()) && tr[|ls|] == Model()
      ensures if !enabled then ls == [] else ls != [] && ls[0].CloseDone? && (isCopy ==> |ls| == 1)
      ensures forall i | 0 < i < |ls| :: OfLoop(ls[i])
      ensures enabled && !isCopy && !panics ==> loop.Stopped?
    {
      tr, ls := [Model()], [];
      if !enabled {
        return false, tr, ls;
      }
      tr, ls := ExtendRun(tr, ls, CloseDone);
      panics, panicked := done, done;
      done := true;
      if panics || isCopy {
        return;
      }
      if loop.Starting? {
        tr, ls := ExtendRun(tr, ls, Start);
        panics := Begin();
      }
      if loop.Running? {
        tr, ls := RunToEnd(tr, ls);
      }
    }
  }
}
