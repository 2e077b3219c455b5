/**
  The error metrics collector: totals by code, by operation and by component, fed by
  RecordError and emptied by Reset.  The tables are proved to be exact tallies of the events
  recorded since the last Reset, and the totals to agree with one another.
 */
module ErrorMetricsModel {
  import opened MapSums
  import opened TimeWindowCounters
  import TW = TimeWindow

  datatype ErrorEvent = ErrorEvent(code: string, operation: string, component: string)

  datatype Dimension = ByOperation | ByComponent

  function Group(e: ErrorEvent, d: Dimension): string {
    if d.ByOperation? then e.operation else e.component
  }

  type Counts = map<string, int>

  type Table = map<string, Counts>

  /** A missing key reads as zero, as in the source's maps. */
  function At(m: Counts, k: string): int { if k in m then m[k] else 0 }

  function Cell(t: Table, group: string, code: string): int {
    if group in t then At(t[group], code) else 0
  }

  function Increment(m: Counts, k: string): Counts { m[k := At(m, k) + 1] }

  function Recorded(t: Table, group: string, code: string): Table {
    if group == "" then t
    else t[group := Increment(if group in t then t[group] else map[], code)]
  }

  function CodeCounts(es: seq<ErrorEvent>): Counts {
    if es == [] then map[] else Increment(CodeCounts(es[..|es| - 1]), es[|es| - 1].code)
  }

  function GroupTable(es: seq<ErrorEvent>, d: Dimension): Table {
    if es == [] then map[]
    else var e := es[|es| - 1]; Recorded(GroupTable(es[..|es| - 1], d), Group(e, d), e.code)
  }

  lemma TallyOneMore(es: seq<ErrorEvent>, e: ErrorEvent)
    ensures CodeCounts(es + [e]) == Increment(CodeCounts(es), e.code)
    ensures forall d :: GroupTable(es + [e], d) == Recorded(GroupTable(es, d), Group(e, d), e.code)
  {
    assert (es + [e])[..|es|] == es;
  }

  // ---------------------------------------------------------------------------
  // What the tables mean: how many events satisfy a property
  // ---------------------------------------------------------------------------

  function HowMany(es: seq<ErrorEvent>, p: ErrorEvent -> bool): nat {
    if es == [] then 0 else HowMany(es[..|es| - 1], p) + (if p(es[|es| - 1]) then 1 else 0)
  }

  lemma {:induction false} HowManyCounts(es: seq<ErrorEvent>, p: ErrorEvent -> bool)
    ensures HowMany(es, p) == |set k: nat | k < |es| && p(es[k])|
  {
    if es != [] {
      var n := |es| - 1;
      HowManyCounts(es[..n], p);
      var before := set k: nat | k < n && p(es[..n][k]);
      assert (set k: nat | k < |es| && p(es[k])) == before + if p(es[n]) then {n} else {};
    }
  }

  lemma {:induction false} CodeCountsExact(es: seq<ErrorEvent>, code: string)
    ensures At(CodeCounts(es), code) == HowMany(es, (e: ErrorEvent) => e.code == code)
    ensures code in CodeCounts(es) <==> At(CodeCounts(es), code) > 0
  {
    if es != [] {
      CodeCountsExact(es[..|es| - 1], code);
    }
  }

  lemma {:induction false} TableExact(es: seq<ErrorEvent>, d: Dimension, group: string, code: string)
    ensures Cell(GroupTable(es, d), group, code)
            == if group == "" then 0
               else HowMany(es, (e: ErrorEvent) => e.code == code && Group(e, d) == group)
    ensures "" !in GroupTable(es, d)
  {
    if es != [] {
      TableExact(es[..|es| - 1], d, group, code);
    }
  }

  /** The table by operation counts operations, the one by component components. */
  lemma TablesExact(es: seq<ErrorEvent>, group: string, code: string)
    requires group != ""
    ensures Cell(GroupTable(es, ByOperation), group, code)
         == HowMany(es, (e: ErrorEvent) => e.code == code && e.operation == group)
    ensures Cell(GroupTable(es, ByComponent), group, code)
         == HowMany(es, (e: ErrorEvent) => e.code == code && e.component == group)
  {
    TableExact(es, ByOperation, group, code);
    TableExact(es, ByComponent, group, code);
    SameCount(es, (e: ErrorEvent) => e.code == code && Group(e, ByOperation) == group,
              (e: ErrorEvent) => e.code == code && e.operation == group);
    SameCount(es, (e: ErrorEvent) => e.code == code && Group(e, ByComponent) == group,
              (e: ErrorEvent) => e.code == code && e.component == group);
  }

  lemma {:induction false} SameCount(es: seq<ErrorEvent>, p: ErrorEvent -> bool, q: ErrorEvent -> bool)
    requires forall e :: p(e) == q(e)
    ensures HowMany(es, p) == HowMany(es, q)
  {
    if es != [] {
      SameCount(es[..|es| - 1], p, q);
    }
  }

  ghost function TotalOfCodes(m: Counts): int { Sum(m.Keys, (k: string) => At(m, k)) }

  /** What one code sums to over all the groups of a table. */
  ghost function TotalOfCode(t: Table, code: string): int { Sum(t.Keys, (g: string) => Cell(t, g, code)) }

  /** The per-code counts add up to the total number of errors. */
  lemma {:induction false} CodesSumToTotal(es: seq<ErrorEvent>)
    ensures TotalOfCodes(CodeCounts(es)) == |es|
  {
    if es != [] {
      var before, code := es[..|es| - 1], es[|es| - 1].code;
      CodesSumToTotal(before);
      var m, m' := CodeCounts(before), CodeCounts(es);
      SumChange(m.Keys, m'.Keys, (k: string) => At(m, k), (k: string) => At(m', k), code);
    }
  }

  /** For each code the groups add up to the events that name a group, so never to more than
      the count of the code, and to exactly that count when every event names one. */
  lemma {:induction false} GroupsSumPerCode(es: seq<ErrorEvent>, d: Dimension, code: string)
    ensures TotalOfCode(GroupTable(es, d), code)
            == HowMany(es, (e: ErrorEvent) => e.code == code && Group(e, d) != "")
            <= At(CodeCounts(es), code)
  {
    if es != [] {
      var before, e := es[..|es| - 1], es[|es| - 1];
      GroupsSumPerCode(before, d, code);
      if Group(e, d) != "" {
        var t, t' := GroupTable(before, d), GroupTable(es, d);
        SumChange(t.Keys, t'.Keys, (g: string) => Cell(t, g, code), (g: string) => Cell(t', g, code), Group(e, d));
      }
    }
  }

  class ErrorMetrics {
    var errorCounts: Counts
    var errorsByOperation: Table
    var errorsByComponent: Table
    const errorRates: TimeWindowCounter
    var totalErrors: int
    var enabled: bool
    ghost var events: seq<ErrorEvent>   // recorded since the last Reset

    /** The tables are the tallies of the recorded events. */
    ghost predicate Tallied()
      reads this
    {
      && totalErrors == |events|
      && errorCounts == CodeCounts(events)
      && errorsByOperation == GroupTable(events, ByOperation)
      && errorsByComponent == GroupTable(events, ByComponent)
    }

    ghost predicate Valid()
      reads this, errorRates, errorRates.windows
    {
      var tallied, ratesValid := Tallied(), errorRates.Valid();
      && tallied && ratesValid && errorRates.size > 0
      && |events| == |errorRates.history|
      && forall i | 0 <= i < |errorRates.history| :: errorRates.history[i].amount == 1
    }

    constructor ()
      ensures Valid() && fresh(errorRates) && fresh(errorRates.windows) && enabled && events == []
      ensures errorRates.size == 60 && errorRates.interval == 60 * NANOSECONDS_PER_SECOND
    {
      errorRates := new TimeWindowCounter(60, 60 * NANOSECONDS_PER_SECOND);
      errorCounts, errorsByOperation, errorsByComponent := map[], map[], map[];
      totalErrors, enabled, events := 0, true, [];
    }

    method Tally(e: ErrorEvent)
      requires Tallied()
      modifies this
      ensures Tallied() && events == old(events) + [e] && enabled == old(enabled)
    {
      TallyOneMore(events, e);
      totalErrors := totalErrors + 1;
      errorCounts := Increment(errorCounts, e.code);
      errorsByOperation := Recorded(errorsByOperation, e.operation, e.code);
      errorsByComponent := Recorded(errorsByComponent, e.component, e.code);
      events := events + [e];
    }

    method RecordError(now: int, e: ErrorEvent)
      requires Valid()
      modifies this, errorRates, errorRates.windows
      ensures Valid() && enabled == old(enabled)
      ensures events == if enabled then old(events) + [e] else old(events)
      ensures enabled ==> errorRates.history == old(errorRates.history) + [TW.Event(now, 1)]
    {
      if !enabled {
        return;
      }
      Tally(e);
      var _ := errorRates.IncrementBy(now, 1);
    }

    method ClearTables()
      modifies this
      ensures Tallied() && events == [] && enabled == old(enabled)
    {
      errorCounts, errorsByOperation, errorsByComponent := map[], map[], map[];
      totalErrors, events := 0, [];
    }

    method Reset()
      requires Valid()
      modifies this, errorRates
      ensures Valid() && events == [] && totalErrors == 0 && enabled == old(enabled)
    {
      ClearTables();
      errorRates.Reset();
    }

    method SetEnabled(on: bool)
      requires Valid()
      modifies this`enabled
      ensures Valid() && enabled == on
    {
      enabled := on;
    }
  }
}
