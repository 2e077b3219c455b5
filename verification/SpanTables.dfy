/**
  The table of active spans: a bounded map with two competing exits, FinishSpan and the
  timeout goroutine started for every created span.  Every method holds the manager's lock,
  so each call is one atomic step, and any interleaving of calls is a sequence of steps.
 */
module SpanTables {
  import opened Counting

  datatype StatusCode = OK | Error | Timeout

  datatype Span = Span(spanID: string, operation: string, status: StatusCode)

  /** `refusals`, `createdIDs` and `exits` are history. */
  datatype State = State(
    enabled: bool,
    maxSpansPerTrace: int,
    spans: map<string, Span>,
    created: int,
    finished: int,
    dropped: int,
    refusals: nat,              // calls of CreateSpan turned away at the limit
    createdIDs: seq<string>,    // in order
    exits: seq<Exit>)           // in order

  datatype Label =
    | Create(operation: string, spanID: string)
    | Finish(spanID: string)
    | Expire(spanID: string)    // the timeout goroutine of the span wakes up

  datatype Health = Health(
    healthy: bool, activeSpans: int, totalSpansCreated: int, totalSpansFinished: int, spansDropped: int)

  /** How a span left the table. */
  datatype Exit = Finished(spanID: string) | TimedOut(spanID: string)

  function Finishes(es: seq<Exit>): nat {
    if es == [] then 0 else Finishes(es[..|es| - 1]) + (if es[|es| - 1].Finished? then 1 else 0)
  }

  lemma FinishesAppend(es: seq<Exit>, e: Exit)
    ensures Finishes(es + [e]) == Finishes(es) + (if e.Finished? then 1 else 0)
  {
    assert (es + [e])[..|es|] == es;
  }

  ghost predicate Left(exits: seq<Exit>, id: string) {
    exists i :: 0 <= i < |exits| && exits[i].spanID == id
  }

  /** No id is created twice or leaves twice; an id that left was created and is not active. */
  ghost predicate ExitsOnce(spans: map<string, Span>, created: seq<string>, exits: seq<Exit>) {
    && (forall i, j | 0 <= i < j < |created| :: created[i] != created[j])
    && (forall i, j | 0 <= i < j < |exits| :: exits[i].spanID != exits[j].spanID)
    && (forall i | 0 <= i < |exits| :: exits[i].spanID in created && exits[i].spanID !in spans)
  }

  /** Every created id is active or has left. */
  ghost predicate AllPlaced(spans: map<string, Span>, created: seq<string>, exits: seq<Exit>) {
    && (forall i | 0 <= i < |created| :: created[i] in spans || Left(exits, created[i]))
    && (forall id | id in spans :: id in created && spans[id].spanID == id)
  }

  lemma Leave(spans: map<string, Span>, created: seq<string>, exits: seq<Exit>, e: Exit)
    requires ExitsOnce(spans, created, exits) && AllPlaced(spans, created, exits) && e.spanID in spans
    ensures ExitsOnce(spans - {e.spanID}, created, exits + [e])
    ensures AllPlaced(spans - {e.spanID}, created, exits + [e])
    ensures |spans - {e.spanID}| == |spans| - 1
    ensures Finishes(exits + [e]) == Finishes(exits) + (if e.Finished? then 1 else 0)
  {
    FinishesAppend(exits, e);
    var after := exits + [e];
    assert (spans - {e.spanID}).Keys == spans.Keys - {e.spanID};
    forall i | 0 <= i < |created|
      ensures created[i] in spans - {e.spanID} || Left(after, created[i])
    {
      if created[i] == e.spanID {
        assert after[|exits|].spanID == created[i];
      } else if created[i] !in spans {
        var k :| 0 <= k < |exits| && exits[k].spanID == created[i];
        assert after[k].spanID == created[i];
      }
    }
  }

  lemma Enter(spans: map<string, Span>, created: seq<string>, exits: seq<Exit>, span: Span)
    requires ExitsOnce(spans, created, exits) && AllPlaced(spans, created, exits) && span.spanID !in created
    ensures ExitsOnce(spans[span.spanID := span], created + [span.spanID], exits)
    ensures AllPlaced(spans[span.spanID := span], created + [span.spanID], exits)
    ensures |spans[span.spanID := span]| == |spans| + 1
  {
  }

  /** A new span gets an id that no span has had before. */
  predicate Enabled(s: State, l: Label) { l.Create? ==> l.spanID !in s.createdIDs }

  function Step(s: State, l: Label): State {
    match l
    case Create(operation, id) =>
      if !s.enabled then s
      else if |s.spans| >= s.maxSpansPerTrace then s.(dropped := s.dropped + 1, refusals := s.refusals + 1)
      else s.(spans := s.spans[id := Span(id, operation, OK)], created := s.created + 1,
              createdIDs := s.createdIDs + [id])
    case Finish(id) =>
      if !s.enabled || id !in s.spans then s
      else s.(spans := s.spans - {id}, finished := s.finished + 1, exits := s.exits + [Finished(id)])
    case Expire(id) =>
      if id !in s.spans then s
      else s.(spans := s.spans - {id}, dropped := s.dropped + 1, exits := s.exits + [TimedOut(id)])
  }

  predicate Init(s: State) {
    s == State(s.enabled, s.maxSpansPerTrace, map[], 0, 0, 0, 0, [], [])
  }

  ghost predicate Execution(tr: seq<State>, ls: seq<Label>) {
    && |tr| == |ls| + 1
    && forall i {:trigger ls[i]} | 0 <= i < |ls| :: Enabled(tr[i], ls[i]) && tr[i + 1] == Step(tr[i], ls[i])
  }

  predicate Counted(s: State) {
    && s.created == |s.createdIDs| == |s.exits| + |s.spans|
    && s.finished == Finishes(s.exits)
    && s.dropped == s.refusals + |s.exits| - Finishes(s.exits)
    && (|s.spans| == 0 || |s.spans| <= s.maxSpansPerTrace)
  }

  ghost predicate Sound(s: State) {
    var once := ExitsOnce(s.spans, s.createdIDs, s.exits);
    var placed := AllPlaced(s.spans, s.createdIDs, s.exits);
    once && placed && Counted(s)
  }

  /** A state that differs by one exit. */
  lemma LeftSound(s: State, s': State, e: Exit)
    requires Sound(s) && e.spanID in s.spans
    requires s'.spans == s.spans - {e.spanID} && s'.exits == s.exits + [e] && s'.createdIDs == s.createdIDs
    requires s'.created == s.created && s'.refusals == s.refusals && s'.maxSpansPerTrace == s.maxSpansPerTrace
    requires s'.finished == s.finished + (if e.Finished? then 1 else 0)
    requires s'.dropped == s.dropped + (if e.Finished? then 0 else 1)
    ensures Sound(s')
  {
    Leave(s.spans, s.createdIDs, s.exits, e);
  }

  lemma ExitKeepsSound(s: State, l: Label, s': State)
    requires Sound(s) && (l.Finish? || l.Expire?) && s' == Step(s, l)
    ensures Sound(s')
  {
    if l.spanID in s.spans && (l.Expire? || s.enabled) {
      LeftSound(s, s', if l.Finish? then Finished(l.spanID) else TimedOut(l.spanID));
    } else {
      assert s' == s;
    }
  }

  lemma StepKeepsSound(s: State, l: Label)
    requires Sound(s) && Enabled(s, l)
    ensures Sound(Step(s, l))
  {
    if l.Create? {
      Enter(s.spans, s.createdIDs, s.exits, Span(l.spanID, l.operation, OK));
    } else {
      ExitKeepsSound(s, l, Step(s, l));
    }
  }

  lemma InitIsSound(s: State)
    requires Init(s)
    ensures Sound(s)
  {
  }

  /** Over any interleaving, however often FinishSpan is called: each created span is active or
      has left exactly once, by finish or by timeout, and the counters say how many did which. */
  lemma {:induction false} AlwaysSound(tr: seq<State>, ls: seq<Label>, i: nat)
    requires Execution(tr, ls) && Init(tr[0]) && i < |tr|
    ensures Sound(tr[i])
    ensures tr[i].maxSpansPerTrace == tr[0].maxSpansPerTrace
  {
    if i == 0 {
      InitIsSound(tr[0]);
    } else {
      AlwaysSound(tr, ls, i - 1);
      assert Enabled(tr[i - 1], ls[i - 1]);
      StepKeepsSound(tr[i - 1], ls[i - 1]);
    }
  }

  // ---------------------------------------------------------------------------
  // What the counters count, told from the calls
  // ---------------------------------------------------------------------------

  predicate Creates(s: State, l: Label) { l.Create? && s.enabled && |s.spans| < s.maxSpansPerTrace }

  predicate Refuses(s: State, l: Label) { l.Create? && s.enabled && |s.spans| >= s.maxSpansPerTrace }

  predicate FinishesActive(s: State, l: Label) { l.Finish? && s.enabled && l.spanID in s.spans }

  predicate ExpiresActive(s: State, l: Label) { l.Expire? && l.spanID in s.spans }

  lemma StepCounts(s: State, l: Label)
    ensures var t := Step(s, l);
            && t.created == s.created + (if Creates(s, l) then 1 else 0)
            && t.finished == s.finished + (if FinishesActive(s, l) then 1 else 0)
            && t.refusals == s.refusals + (if Refuses(s, l) then 1 else 0)
            && t.dropped - t.refusals == s.dropped - s.refusals + (if ExpiresActive(s, l) then 1 else 0)
  {
  }

  lemma StepAt(tr: seq<State>, ls: seq<Label>, k: nat)
    requires Execution(tr, ls) && k < |ls|
    ensures tr[k + 1].created == tr[k].created + (if Creates(tr[k], ls[k]) then 1 else 0)
    ensures tr[k + 1].finished == tr[k].finished + (if FinishesActive(tr[k], ls[k]) then 1 else 0)
    ensures tr[k + 1].refusals == tr[k].refusals + (if Refuses(tr[k], ls[k]) then 1 else 0)
    ensures tr[k + 1].dropped - tr[k + 1].refusals
         == tr[k].dropped - tr[k].refusals + (if ExpiresActive(tr[k], ls[k]) then 1 else 0)
  {
    assert Enabled(tr[k], ls[k]);
    StepCounts(tr[k], ls[k]);
  }

  lemma CreatedExact(tr: seq<State>, ls: seq<Label>, i: nat)
    requires i < |tr| == |ls| + 1 && tr[0].created == 0
    requires forall k {:trigger ls[k]} | 0 <= k < |ls| ::
               tr[k + 1].created == tr[k].created + if Creates(tr[k], ls[k]) then 1 else 0
    ensures tr[i].created == |set k: nat | k < i && Creates(tr[k], ls[k])|
  {
    var counter := seq(|tr|, k requires 0 <= k < |tr| => tr[k].created);
    var hit := seq(|ls|, k requires 0 <= k < |ls| => Creates(tr[k], ls[k]));
    forall k {:trigger hit[k]} | 0 <= k < |ls|
      ensures counter[k + 1] == counter[k] + if hit[k] then 1 else 0
    {
      assert hit[k] == Creates(tr[k], ls[k]);
    }
    CountsHits(counter, hit, i);
    SameHits(hit, i, set k: nat | k < i && Creates(tr[k], ls[k]));
  }

  lemma FinishedExact(tr: seq<State>, ls: seq<Label>, i: nat)
    requires i < |tr| == |ls| + 1 && tr[0].finished == 0
    requires forall k {:trigger ls[k]} | 0 <= k < |ls| ::
               tr[k + 1].finished == tr[k].finished + if FinishesActive(tr[k], ls[k]) then 1 else 0
    ensures tr[i].finished == |set k: nat | k < i && FinishesActive(tr[k], ls[k])|
  {
    var counter := seq(|tr|, k requires 0 <= k < |tr| => tr[k].finished);
    var hit := seq(|ls|, k requires 0 <= k < |ls| => FinishesActive(tr[k], ls[k]));
    forall k {:trigger hit[k]} | 0 <= k < |ls|
      ensures counter[k + 1] == counter[k] + if hit[k] then 1 else 0
    {
      assert hit[k] == FinishesActive(tr[k], ls[k]);
    }
    CountsHits(counter, hit, i);
    SameHits(hit, i, set k: nat | k < i && FinishesActive(tr[k], ls[k]));
  }

  lemma RefusedExact(tr: seq<State>, ls: seq<Label>, i: nat)
    requires i < |tr| == |ls| + 1 && tr[0].refusals == 0
    requires forall k {:trigger ls[k]} | 0 <= k < |ls| ::
               tr[k + 1].refusals == tr[k].refusals + if Refuses(tr[k], ls[k]) then 1 else 0
    ensures tr[i].refusals == |set k: nat | k < i && Refuses(tr[k], ls[k])|
  {
    var counter := seq(|tr|, k requires 0 <= k < |tr| => tr[k].refusals);
    var hit := seq(|ls|, k requires 0 <= k < |ls| => Refuses(tr[k], ls[k]));
    forall k {:trigger hit[k]} | 0 <= k < |ls|
      ensures counter[k + 1] == counter[k] + if hit[k] then 1 else 0
    {
      assert hit[k] == Refuses(tr[k], ls[k]);
    }
    CountsHits(counter, hit, i);
    SameHits(hit, i, set k: nat | k < i && Refuses(tr[k], ls[k]));
  }

  lemma TimedOutExact(tr: seq<State>, ls: seq<Label>, i: nat)
    requires i < |tr| == |ls| + 1 && tr[0].dropped - tr[0].refusals == 0
    requires forall k {:trigger ls[k]} | 0 <= k < |ls| ::
               tr[k + 1].dropped - tr[k + 1].refusals
               == tr[k].dropped - tr[k].refusals + if ExpiresActive(tr[k], ls[k]) then 1 else 0
    ensures tr[i].dropped - tr[i].refusals == |set k: nat | k < i && ExpiresActive(tr[k], ls[k])|
  {
    var counter := seq(|tr|, k requires 0 <= k < |tr| => tr[k].dropped - tr[k].refusals);
    var hit := seq(|ls|, k requires 0 <= k < |ls| => ExpiresActive(tr[k], ls[k]));
    forall k {:trigger hit[k]} | 0 <= k < |ls|
      ensures counter[k + 1] == counter[k] + if hit[k] then 1 else 0
    {
      assert hit[k] == ExpiresActive(tr[k], ls[k]);
    }
    CountsHits(counter, hit, i);
    SameHits(hit, i, set k: nat | k < i && ExpiresActive(tr[k], ls[k]));
  }

  /** TotalSpansCreated counts the calls of CreateSpan that found room, TotalSpansFinished the
      calls of FinishSpan on an active span, and SpansDropped the timeouts of active spans and
      the calls of CreateSpan that found none. */
  lemma CountersExact(tr: seq<State>, ls: seq<Label>, i: nat)
    requires Execution(tr, ls) && Init(tr[0]) && i < |tr|
    ensures tr[i].created == |set k: nat | k < i && Creates(tr[k], ls[k])|
    ensures tr[i].finished == |set k: nat | k < i && FinishesActive(tr[k], ls[k])|
    ensures tr[i].dropped == |set k: nat | k < i && ExpiresActive(tr[k], ls[k])|
                             + |set k: nat | k < i && Refuses(tr[k], ls[k])|
  {
    forall k | 0 <= k < |ls|
      ensures tr[k + 1].created == tr[k].created + (if Creates(tr[k], ls[k]) then 1 else 0)
      ensures tr[k + 1].finished == tr[k].finished + (if FinishesActive(tr[k], ls[k]) then 1 else 0)
      ensures tr[k + 1].refusals == tr[k].refusals + (if Refuses(tr[k], ls[k]) then 1 else 0)
      ensures tr[k + 1].dropped - tr[k + 1].refusals
           == tr[k].dropped - tr[k].refusals + (if ExpiresActive(tr[k], ls[k]) then 1 else 0)
    {
      StepAt(tr, ls, k);
    }
    CreatedExact(tr, ls, i);
    FinishedExact(tr, ls, i);
    RefusedExact(tr, ls, i);
    TimedOutExact(tr, ls, i);
  }

  /** The action put the span into the table. */
  predicate Enters(l: Label, span: Span) { l == Create(span.operation, span.spanID) && span.status == OK }

  /** The action takes the span out of it. */
  predicate Leaves(enabled: bool, l: Label, id: string) { l == Expire(id) || (enabled && l == Finish(id)) }

  lemma SpanStep(s: State, l: Label, id: string)
    requires id in Step(s, l).spans
    ensures (id in s.spans && Step(s, l).spans[id] == s.spans[id] && !Leaves(s.enabled, l, id))
            || (Enters(l, Step(s, l).spans[id]) && l.spanID == id)
  {
  }

  /** A span in the table is there as it was created, and has neither been finished nor timed out
      since. */
  lemma {:induction false} SpansAsCreated(tr: seq<State>, ls: seq<Label>, i: nat, id: string) returns (k: nat)
    requires Execution(tr, ls) && Init(tr[0]) && i < |tr| && id in tr[i].spans
    ensures k < i && Enters(ls[k], tr[i].spans[id]) && ls[k].spanID == id
    ensures forall m | k < m < i :: !Leaves(tr[m].enabled, ls[m], id)
  {
    k := i - 1;
    assert Enabled(tr[k], ls[k]);
    SpanStep(tr[k], ls[k], id);
    if !(Enters(ls[k], tr[i].spans[id]) && ls[k].spanID == id) {
      k := SpansAsCreated(tr, ls, i - 1, id);
    }
  }

  /** GetTracingHealth. */
  function HealthOf(s: State): Health {
    Health(|s.spans| <= s.maxSpansPerTrace * 2, |s.spans|, s.created, s.finished, s.dropped)
  }

  /** The reported counters balance, and the table is reported unhealthy in some reachable
      state, and then in all, exactly when the configured limit is negative. */
  lemma HealthBalances(tr: seq<State>, ls: seq<Label>, i: nat)
    requires Execution(tr, ls) && Init(tr[0]) && i < |tr|
    ensures var h := HealthOf(tr[i]);
            && h.totalSpansCreated + tr[i].refusals == h.totalSpansFinished + h.spansDropped + h.activeSpans
            && h.activeSpans == |tr[i].spans|
            && h.totalSpansFinished == |set k: nat | k < i && FinishesActive(tr[k], ls[k])|
            && h.spansDropped == |set k: nat | k < i && ExpiresActive(tr[k], ls[k])|
                                 + |set k: nat | k < i && Refuses(tr[k], ls[k])|
            && (h.healthy <==> tr[0].maxSpansPerTrace >= 0)
  {
    AlwaysSound(tr, ls, i);
    CountersExact(tr, ls, i);
  }

  class TraceManager {
    const enabled: bool
    const maxSpansPerTrace: int
    var spans: map<string, Span>
    var totalSpansCreated: int
    var totalSpansFinished: int
    var spansDropped: int
    ghost var refusals: nat
    ghost var createdIDs: seq<string>
    ghost var exits: seq<Exit>

    ghost function Model(): State
      reads this
    {
      State(enabled, maxSpansPerTrace, spans, totalSpansCreated, totalSpansFinished, spansDropped,
            refusals, createdIDs, exits)
    }

    constructor (enabled: bool, maxSpansPerTrace: int)
      ensures Init(Model()) && this.enabled == enabled && this.maxSpansPerTrace == maxSpansPerTrace
    {
      this.enabled, this.maxSpansPerTrace := enabled, maxSpansPerTrace;
      spans, totalSpansCreated, totalSpansFinished, spansDropped := map[], 0, 0, 0;
      refusals, createdIDs, exits := 0, [], [];
    }

    method CreateSpan(operation: string, spanID: string) returns (ok: bool)
      requires spanID !in createdIDs
      modifies this
      ensures Model() == Step(old(Model()), Create(operation, spanID))
      ensures ok == (enabled && old(|spans|) < maxSpansPerTrace)
    {
      if !enabled {
        return false;
      }
      if |spans| >= maxSpansPerTrace {
        spansDropped, refusals := spansDropped + 1, refusals + 1;
        return false;
      }
      spans := spans[spanID := Span(spanID, operation, OK)];
      totalSpansCreated, createdIDs := totalSpansCreated + 1, createdIDs + [spanID];
      return true;
    }

    method FinishSpan(spanID: string)
      modifies this
      ensures Model() == Step(old(Model()), Finish(spanID))
    {
      if !enabled || spanID !in spans {
        return;
      }
      spans := spans - {spanID};
      totalSpansFinished, exits := totalSpansFinished + 1, exits + [Finished(spanID)];
    }

    method CleanupSpanAfterTimeout(spanID: string)
      modifies this
      ensures Model() == Step(old(Model()), Expire(spanID))
    {
      if spanID in spans {
        spans := spans - {spanID};
        spansDropped, exits := spansDropped + 1, exits + [TimedOut(spanID)];
      }
    }

    method GetTracingHealth() returns (h: Health)
      ensures h == HealthOf(Model()) && (h.healthy <==> |spans| <= 2 * maxSpansPerTrace)
    {
      h := Health(true, |spans|, totalSpansCreated, totalSpansFinished, spansDropped);
      if h.activeSpans > maxSpansPerTrace * 2 {
        h := h.(healthy := false);
      }
    }
  }
}
