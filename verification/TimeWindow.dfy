/**
  The sliding-window error counter.  `TimeWindowCounter` keeps at most `size` windows in a
  fixed buffer that it compacts in place; the main result is that on a non-decreasing clock
  it answers every rate query of up to `size * interval` exactly as the complete history of
  events would.  Times and durations are integers in nanoseconds.
 */
module TimeWindow {

  datatype Window = Window(timestamp: int, count: int)

  /** One call of IncrementBy: the clock reading and the amount. */
  datatype Event = Event(time: int, amount: int)

  /** The remainder `t % d`, by repeated subtraction so that the proofs stay linear. */
  function Rem(t: int, d: int): (r: int)
    requires d > 0
    ensures 0 <= r < d
    decreases if t < 0 then d - t else t
  {
    if t < 0 then Rem(t + d, d) else if t < d then t else Rem(t - d, d)
  }

  lemma {:induction false} RemIsMod(t: int, d: int)
    requires d > 0
    ensures Rem(t, d) == t % d
    decreases if t < 0 then d - t else t
  {
    if t < 0 {
      RemIsMod(t + d, d);
      ModShift(t, d);
    } else if t < d {
      ModUnique(t, d, 0, t);
    } else {
      RemIsMod(t - d, d);
      ModShift(t - d, d);
    }
  }

  lemma ModShift(t: int, d: int)
    requires d > 0
    ensures (t + d) % d == t % d
  {
    assert d * (t / d + 1) == d * (t / d) + d;
    ModUnique(t + d, d, t / d + 1, t % d);
  }

  lemma ModUnique(t: int, d: int, q: int, r: int)
    requires d > 0 && t == d * q + r && 0 <= r < d
    ensures t % d == r
  {
    var k := t / d;
    assert d * (q - k) == d * q - d * k == t % d - r;
    if q - k >= 1 {
      MulMonotone(d, 1, q - k);
    } else if q - k <= -1 {
      MulMonotone(d, q - k, -1);
    }
  }

  lemma MulMonotone(d: int, a: int, b: int)
    requires d > 0 && a <= b
    ensures d * a <= d * b
  {
  }

  /** time.Time.Truncate: a non-positive duration leaves the time unchanged. */
  function Truncate(t: int, d: int): int {
    if d <= 0 then t else t - Rem(t, d)
  }

  /** The span the counter covers, `size` intervals; as a sum, so that the proofs stay linear. */
  function Horizon(size: nat, interval: int): int {
    if size == 0 then 0 else Horizon(size - 1, interval) + interval
  }

  /** The limit of cleanOldWindows at time `now`. */
  function Limit(now: int, size: nat, interval: int): int { now - Horizon(size, interval) }

  lemma {:induction false} HorizonIsProduct(size: nat, interval: int)
    ensures Horizon(size, interval) == size * interval
  {
    if size > 0 {
      HorizonIsProduct(size - 1, interval);
      assert size * interval == (size - 1) * interval + interval;
    }
  }

  lemma {:induction false} HorizonSign(size: nat, interval: int)
    ensures interval > 0 && size > 0 ==> Horizon(size, interval) > 0
    ensures interval <= 0 ==> Horizon(size, interval) <= 0
  {
    if size > 0 {
      HorizonSign(size - 1, interval);
    }
  }

  // ---------------------------------------------------------------------------
  // The operations as functions on the window list
  // ---------------------------------------------------------------------------

  /** The first window after the cutoff, or the length if every window is stale. */
  function FirstFresh(ws: seq<Window>, cutoff: int): (i: nat)
    ensures i <= |ws|
    ensures forall k | 0 <= k < i :: ws[k].timestamp <= cutoff
    ensures i < |ws| ==> ws[i].timestamp > cutoff
  {
    if ws == [] || ws[0].timestamp > cutoff then 0 else 1 + FirstFresh(ws[1..], cutoff)
  }

  /** cleanOldWindows: nothing is removed when every window is stale. */
  function Clean(ws: seq<Window>, cutoff: int): seq<Window> {
    var i := FirstFresh(ws, cutoff);
    if i == |ws| then ws else ws[i..]
  }

  /** The part of IncrementBy after the cleaning. */
  function Add(ws: seq<Window>, size: nat, current: int, amount: int): seq<Window>
    requires size > 0
  {
    if ws == [] || ws[|ws| - 1].timestamp < current then
      (if |ws| >= size then ws[1..] else ws) + [Window(current, amount)]
    else
      ws[|ws| - 1 := ws[|ws| - 1].(count := ws[|ws| - 1].count + amount)]
  }

  function Incremented(ws: seq<Window>, size: nat, interval: int, e: Event): seq<Window>
    requires size > 0
  {
    Add(Clean(ws, Limit(e.time, size, interval)), size, Truncate(e.time, interval), e.amount)
  }

  /** The sum that GetRate divides: the windows strictly after the cutoff. */
  function Total(ws: seq<Window>, cutoff: int): int {
    if ws == [] then 0
    else Total(ws[..|ws| - 1], cutoff)
         + (if ws[|ws| - 1].timestamp > cutoff then ws[|ws| - 1].count else 0)
  }

  function Visible(ws: seq<Window>, cutoff: int): nat {
    if ws == [] then 0
    else Visible(ws[..|ws| - 1], cutoff) + (if ws[|ws| - 1].timestamp > cutoff then 1 else 0)
  }

  // ---------------------------------------------------------------------------
  // The reference: the complete history
  // ---------------------------------------------------------------------------

  /** Events whose truncated time is after the cutoff. */
  function HistoryTotal(es: seq<Event>, interval: int, cutoff: int): int {
    if es == [] then 0
    else HistoryTotal(es[..|es| - 1], interval, cutoff)
         + (if Truncate(es[|es| - 1].time, interval) > cutoff then es[|es| - 1].amount else 0)
  }

  /** Events at or after a point in time. */
  function AmountSince(es: seq<Event>, start: int): int {
    if es == [] then 0
    else AmountSince(es[..|es| - 1], start) + (if es[|es| - 1].time >= start then es[|es| - 1].amount else 0)
  }

  function Replay(es: seq<Event>, size: nat, interval: int): seq<Window>
    requires size > 0
  {
    if es == [] then [] else Incremented(Replay(es[..|es| - 1], size, interval), size, interval, es[|es| - 1])
  }

  lemma ReplayAppend(es: seq<Event>, size: nat, interval: int, e: Event)
    requires size > 0
    ensures Replay(es + [e], size, interval) == Incremented(Replay(es, size, interval), size, interval, e)
  {
    assert (es + [e])[..|es|] == es;
  }

  predicate NonDecreasing(es: seq<Event>) {
    forall i, j | 0 <= i < j < |es| :: es[i].time <= es[j].time
  }

  // ---------------------------------------------------------------------------
  // Shape of the window list, on any clock
  // ---------------------------------------------------------------------------

  predicate Increasing(ws: seq<Window>) {
    forall i, j | 0 <= i < j < |ws| :: ws[i].timestamp < ws[j].timestamp
  }

  predicate Aligned(ws: seq<Window>, interval: int) {
    interval > 0 ==> forall i | 0 <= i < |ws| :: Rem(ws[i].timestamp, interval) == 0
  }

  lemma RemShift(t: int, d: int)
    requires d > 0
    ensures Rem(t + d, d) == Rem(t, d)
  {
  }

  lemma {:induction false} TruncateAligned(t: int, d: int)
    requires d > 0
    ensures Rem(Truncate(t, d), d) == 0 && Truncate(t, d) <= t < Truncate(t, d) + d
    decreases if t < 0 then d - t else t
  {
    if t < 0 {
      TruncateAligned(t + d, d);
      RemShift(Truncate(t, d), d);
    } else if t >= d {
      TruncateAligned(t - d, d);
      RemShift(Truncate(t, d) - d, d);
    }
  }

  lemma TruncateMonotone(t: int, u: int, d: int)
    requires t <= u
    ensures Truncate(t, d) <= Truncate(u, d)
  {
    if d > 0 {
      TruncateAligned(t, d);
      TruncateAligned(u, d);
      if Truncate(t, d) > Truncate(u, d) {
        MultiplesApart(Truncate(u, d), Truncate(t, d), d);
      }
    }
  }

  lemma {:induction false} MultiplesApart(a: int, b: int, d: int)
    requires d > 0 && Rem(a, d) == 0 && Rem(b, d) == 0 && a < b
    ensures a + d <= b
    decreases if a < 0 then d - a else a
  {
    if a < 0 {
      RemShift(b, d);
      MultiplesApart(a + d, b + d, d);
    } else if a >= d {
      MultiplesApart(a - d, b - d, d);
    }
  }

  predicate WellFormed(ws: seq<Window>, size: nat, interval: int) {
    |ws| <= size && Increasing(ws) && Aligned(ws, interval)
  }

  lemma AddKeepsShape(ws: seq<Window>, size: nat, interval: int, current: int, amount: int)
    requires size > 0 && WellFormed(ws, size, interval) && (interval > 0 ==> Rem(current, interval) == 0)
    ensures WellFormed(Add(ws, size, current, amount), size, interval)
  {
  }

  lemma CleanKeepsShape(ws: seq<Window>, size: nat, interval: int, limit: int)
    requires WellFormed(ws, size, interval)
    ensures WellFormed(Clean(ws, limit), size, interval)
  {
  }

  lemma CleanThenAddShape(ws: seq<Window>, after: seq<Window>, size: nat, interval: int, limit: int, current: int,
                          amount: int)
    requires size > 0 && WellFormed(ws, size, interval) && (interval > 0 ==> Rem(current, interval) == 0)
    requires after == Add(Clean(ws, limit), size, current, amount)
    ensures WellFormed(after, size, interval) && after != []
  {
    CleanKeepsShape(ws, size, interval, limit);
    AddKeepsShape(Clean(ws, limit), size, interval, current, amount);
  }

  lemma IncrementKeepsShape(ws: seq<Window>, size: nat, interval: int, e: Event)
    requires size > 0 && WellFormed(ws, size, interval)
    ensures WellFormed(Incremented(ws, size, interval, e), size, interval)
    ensures Incremented(ws, size, interval, e) != []
  {
    if interval > 0 {
      TruncateAligned(e.time, interval);
    }
    CleanThenAddShape(ws, Incremented(ws, size, interval, e), size, interval, Limit(e.time, size, interval),
                      Truncate(e.time, interval), e.amount);
  }

  /** For every call sequence, even on a clock that goes backwards, the list holds at most
      `size` windows with strictly increasing, aligned timestamps. */
  lemma {:induction false} WindowsWellFormed(es: seq<Event>, size: nat, interval: int)
    requires size > 0
    ensures WellFormed(Replay(es, size, interval), size, interval)
    ensures es != [] ==> Replay(es, size, interval) != []
  {
    if es != [] {
      var before, e := es[..|es| - 1], es[|es| - 1];
      WindowsWellFormed(before, size, interval);
      IncrementKeepsShape(Replay(before, size, interval), size, interval, e);
    }
  }

  // ---------------------------------------------------------------------------
  // Nothing visible is ever discarded
  // ---------------------------------------------------------------------------

  lemma {:induction false} TotalSuffix(ws: seq<Window>, i: nat, cutoff: int)
    requires i <= |ws| && forall k | 0 <= k < i :: ws[k].timestamp <= cutoff
    ensures Total(ws[i..], cutoff) == Total(ws, cutoff)
    decreases |ws|
  {
    if |ws| == i {
      if i > 0 {
        TotalSuffix(ws[..i - 1], i - 1, cutoff);
        assert ws[..i - 1][i - 1..] == [];
      }
    } else {
      var n := |ws| - 1;
      TotalSuffix(ws[..n], i, cutoff);
      assert ws[i..][..n - i] == ws[..n][i..];
    }
  }

  lemma TotalAppend(ws: seq<Window>, w: Window, cutoff: int)
    ensures Total(ws + [w], cutoff) == Total(ws, cutoff) + (if w.timestamp > cutoff then w.count else 0)
  {
    assert (ws + [w])[..|ws|] == ws;
  }

  /** The pigeonhole step: distinct multiples of the interval are an interval apart, so a full
      list that ends before the current window begins at least `size` intervals before it. */
  lemma {:induction false} Spread(ws: seq<Window>, interval: int, k: nat)
    requires interval > 0 && Increasing(ws) && Aligned(ws, interval) && k < |ws|
    ensures ws[0].timestamp + Horizon(k, interval) <= ws[k].timestamp
  {
    if k > 0 {
      Spread(ws, interval, k - 1);
      MultiplesApart(ws[k - 1].timestamp, ws[k].timestamp, interval);
    }
  }

  lemma EvictedIsStale(ws: seq<Window>, size: nat, interval: int, now: int)
    requires size > 0 && |ws| == size && Increasing(ws) && Aligned(ws, interval)
    requires ws[size - 1].timestamp < Truncate(now, interval)
    ensures ws[0].timestamp <= now - Horizon(size, interval)
  {
    if interval > 0 {
      TruncateAligned(now, interval);
      Spread(ws, interval, size - 1);
      MultiplesApart(ws[size - 1].timestamp, Truncate(now, interval), interval);
    } else {
      assert ws[0].timestamp <= ws[size - 1].timestamp;
      HorizonSign(size, interval);
    }
  }

  function Seen(e: Event, interval: int, cutoff: int): int {
    if Truncate(e.time, interval) > cutoff then e.amount else 0
  }

  /** Making room for a window at `current` loses nothing after the cutoff. */
  predicate MayEvict(ws: seq<Window>, size: nat, current: int, cutoff: int) {
    ws != [] && ws[|ws| - 1].timestamp < current && |ws| >= size ==> ws[0].timestamp <= cutoff
  }

  lemma AddKeepsVisible(ws: seq<Window>, size: nat, current: int, amount: int, cutoff: int)
    requires size > 0 && MayEvict(ws, size, current, cutoff)
    requires ws != [] ==> ws[|ws| - 1].timestamp <= current
    ensures Total(Add(ws, size, current, amount), cutoff)
            == Total(ws, cutoff) + (if current > cutoff then amount else 0)
  {
    var n := |ws| - 1;
    if ws == [] || ws[n].timestamp < current {
      if |ws| >= size {
        TotalSuffix(ws, 1, cutoff);
      }
      TotalAppend(if |ws| >= size then ws[1..] else ws, Window(current, amount), cutoff);
    } else {
      assert Add(ws, size, current, amount)[..n] == ws[..n];
    }
  }

  lemma CleanKeepsVisible(ws: seq<Window>, limit: int, cutoff: int)
    requires limit <= cutoff
    ensures Total(Clean(ws, limit), cutoff) == Total(ws, cutoff)
    ensures ws != [] ==> Clean(ws, limit) != [] && Clean(ws, limit)[|Clean(ws, limit)| - 1] == ws[|ws| - 1]
  {
    TotalSuffix(ws, FirstFresh(ws, limit), cutoff);
  }

  lemma CleanThenAdd(ws: seq<Window>, after: seq<Window>, size: nat, limit: int, current: int, amount: int, cutoff: int)
    requires size > 0 && limit <= cutoff && MayEvict(Clean(ws, limit), size, current, cutoff)
    requires ws != [] ==> ws[|ws| - 1].timestamp <= current
    requires after == Add(Clean(ws, limit), size, current, amount)
    ensures Total(after, cutoff) == Total(ws, cutoff) + (if current > cutoff then amount else 0)
  {
    CleanKeepsVisible(ws, limit, cutoff);
    AddKeepsVisible(Clean(ws, limit), size, current, amount, cutoff);
  }

  lemma CleanedMayEvict(ws: seq<Window>, size: nat, interval: int, limit: int, now: int, cutoff: int)
    requires size > 0 && WellFormed(ws, size, interval) && cutoff >= Limit(now, size, interval)
    ensures MayEvict(Clean(ws, limit), size, Truncate(now, interval), cutoff)
  {
    var cleaned := Clean(ws, limit);
    CleanKeepsShape(ws, size, interval, limit);
    if cleaned != [] && cleaned[|cleaned| - 1].timestamp < Truncate(now, interval) && |cleaned| >= size {
      EvictedIsStale(cleaned, size, interval, now);
    }
  }

  lemma IncrementKeepsVisible(ws: seq<Window>, size: nat, interval: int, e: Event, cutoff: int)
    requires size > 0 && cutoff >= Limit(e.time, size, interval)
    requires MayEvict(Clean(ws, Limit(e.time, size, interval)), size, Truncate(e.time, interval), cutoff)
    requires ws != [] ==> ws[|ws| - 1].timestamp <= Truncate(e.time, interval)
    ensures Total(Incremented(ws, size, interval, e), cutoff) == Total(ws, cutoff) + Seen(e, interval, cutoff)
  {
    CleanThenAdd(ws, Incremented(ws, size, interval, e), size, Limit(e.time, size, interval),
                 Truncate(e.time, interval), e.amount, cutoff);
  }

  lemma IncrementEndsNow(ws: seq<Window>, size: nat, interval: int, e: Event)
    requires size > 0 && (ws != [] ==> ws[|ws| - 1].timestamp <= Truncate(e.time, interval))
    ensures EndsAt(Incremented(ws, size, interval, e), Truncate(e.time, interval))
  {
    var limit := Limit(e.time, size, interval);
    CleanKeepsVisible(ws, limit, limit);
  }

  predicate EndsAt(ws: seq<Window>, time: int) {
    ws != [] && ws[|ws| - 1].timestamp == time
  }

  lemma {:induction false} EndsAtLastEvent(es: seq<Event>, size: nat, interval: int)
    requires size > 0 && NonDecreasing(es) && es != []
    ensures EndsAt(Replay(es, size, interval), Truncate(es[|es| - 1].time, interval))
  {
    var before, e := es[..|es| - 1], es[|es| - 1];
    WindowsWellFormed(before, size, interval);
    if before != [] {
      EndsAtLastEvent(before, size, interval);
      TruncateMonotone(before[|before| - 1].time, e.time, interval);
    }
    IncrementEndsNow(Replay(before, size, interval), size, interval, e);
  }

  /** Neither the compaction nor the eviction of a full list removes a window that any query
      of at most `size * interval` can still see, now or later. */
  lemma {:induction false} AgreesFrom(es: seq<Event>, size: nat, interval: int, horizon: int, cutoff: int)
    requires size > 0 && NonDecreasing(es) && horizon == Horizon(size, interval)
    requires es != [] ==> cutoff >= es[|es| - 1].time - horizon
    ensures Total(Replay(es, size, interval), cutoff) == HistoryTotal(es, interval, cutoff)
  {
    if es != [] {
      var before, e := es[..|es| - 1], es[|es| - 1];
      AgreesFrom(before, size, interval, horizon, cutoff);
      WindowsWellFormed(before, size, interval);
      if before != [] {
        EndsAtLastEvent(before, size, interval);
        TruncateMonotone(before[|before| - 1].time, e.time, interval);
      }
      CleanedMayEvict(Replay(before, size, interval), size, interval, Limit(e.time, size, interval), e.time, cutoff);
      IncrementKeepsVisible(Replay(before, size, interval), size, interval, e, cutoff);
    }
  }

  /** The main result: on a non-decreasing clock a query over any duration of at most
      `size * interval` sums exactly what the complete history would. */
  lemma WindowedEqualsHistory(es: seq<Event>, size: nat, interval: int, now: int, duration: int)
    requires size > 0 && NonDecreasing(es) && (es != [] ==> es[|es| - 1].time <= now)
    requires duration <= Horizon(size, interval)
    ensures Total(Replay(es, size, interval), now - duration) == HistoryTotal(es, interval, now - duration)
  {
    AgreesFrom(es, size, interval, Horizon(size, interval), now - duration);
  }

  // ---------------------------------------------------------------------------
  // Whether a query sees anything
  // ---------------------------------------------------------------------------

  lemma {:induction false} VisibleCounts(ws: seq<Window>, cutoff: int)
    ensures Visible(ws, cutoff) == |set i: nat | i < |ws| && ws[i].timestamp > cutoff|
    ensures Visible(ws, cutoff) == 0 ==> Total(ws, cutoff) == 0
  {
    if ws != [] {
      var n := |ws| - 1;
      VisibleCounts(ws[..n], cutoff);
      var before := set i: nat | i < n && ws[..n][i].timestamp > cutoff;
      assert (set i: nat | i < |ws| && ws[i].timestamp > cutoff)
          == before + if ws[n].timestamp > cutoff then {n} else {};
    }
  }

  /** Some event of the history lies after the cutoff, truncated as its window is. */
  predicate EventVisible(es: seq<Event>, interval: int, cutoff: int) {
    exists i :: 0 <= i < |es| && Truncate(es[i].time, interval) > cutoff
  }

  lemma LastDecides(ws: seq<Window>, cutoff: int)
    requires ws != [] && Increasing(ws)
    ensures Visible(ws, cutoff) > 0 <==> ws[|ws| - 1].timestamp > cutoff
  {
    VisibleCounts(ws, cutoff);
    var visible := set i: nat | i < |ws| && ws[i].timestamp > cutoff;
    if visible != {} {
      var i :| i in visible;
      assert i < |ws| - 1 ==> ws[i].timestamp < ws[|ws| - 1].timestamp;
    } else {
      assert |ws| - 1 !in visible;
    }
  }

  lemma LastEventDecides(es: seq<Event>, interval: int, cutoff: int)
    requires es != [] && NonDecreasing(es)
    ensures EventVisible(es, interval, cutoff) <==> Truncate(es[|es| - 1].time, interval) > cutoff
  {
    if i :| 0 <= i < |es| && Truncate(es[i].time, interval) > cutoff {
      assert es[i].time <= es[|es| - 1].time by { assert i < |es| - 1 ==> es[i].time <= es[|es| - 1].time; }
      TruncateMonotone(es[i].time, es[|es| - 1].time, interval);
    }
  }

  /** On a non-decreasing clock a query of any duration sees a window exactly when the history
      has an event in it. */
  lemma SeesIff(es: seq<Event>, size: nat, interval: int, cutoff: int)
    requires size > 0 && NonDecreasing(es)
    ensures Visible(Replay(es, size, interval), cutoff) > 0 <==> EventVisible(es, interval, cutoff)
  {
    if es != [] {
      WindowsWellFormed(es, size, interval);
      EndsAtLastEvent(es, size, interval);
      LastDecides(Replay(es, size, interval), cutoff);
      LastEventDecides(es, interval, cutoff);
    }
  }

  lemma {:induction false} HistoryBetween(es: seq<Event>, interval: int, cutoff: int)
    requires interval > 0 && forall i | 0 <= i < |es| :: es[i].amount >= 0
    ensures AmountSince(es, cutoff + interval) <= HistoryTotal(es, interval, cutoff) <= AmountSince(es, cutoff + 1)
  {
    if es != [] {
      HistoryBetween(es[..|es| - 1], interval, cutoff);
      TruncateAligned(es[|es| - 1].time, interval);
    }
  }

  /** What a caller of GetRate can rely on, its cutoff being `now - duration`: the total lies
      between the true amounts of the last `duration - interval` and of the last `duration`. */
  lemma RateIsBracketed(es: seq<Event>, size: nat, interval: int, cutoff: int)
    requires size > 0 && interval > 0 && NonDecreasing(es)
    requires es != [] ==> cutoff >= es[|es| - 1].time - Horizon(size, interval)
    requires forall i | 0 <= i < |es| :: es[i].amount >= 0
    ensures AmountSince(es, cutoff + interval) <= Total(Replay(es, size, interval), cutoff)
    ensures Total(Replay(es, size, interval), cutoff) <= AmountSince(es, cutoff + 1)
  {
    AgreesFrom(es, size, interval, Horizon(size, interval), cutoff);
    HistoryBetween(es, interval, cutoff);
  }

  ghost predicate Exact(es: seq<Event>, size: nat, interval: int, now: int, duration: int)
    requires size > 0
  {
    NonDecreasing(es) && (es != [] ==> es[|es| - 1].time <= now) ==>
      Total(Replay(es, size, interval), now - duration) == HistoryTotal(es, interval, now - duration)
  }

  lemma {:induction false} HorizonAligned(size: nat, interval: int)
    requires interval > 0
    ensures Rem(Horizon(size, interval), interval) == 0
  {
    if size > 0 {
      HorizonAligned(size - 1, interval);
      RemShift(Horizon(size - 1, interval), interval);
    }
  }

  function ThreeEvents(last: int): seq<Event> { [Event(0, 1), Event(last, 1), Event(last, 1)] }

  lemma ReplayOfTwo(size: nat, interval: int, last: int)
    requires size > 0 && interval > 0 && last == Horizon(size, interval)
    ensures Truncate(last, interval) == last > 0
    ensures Replay(ThreeEvents(last)[..2], size, interval)
            == if size == 1 then [Window(last, 1)] else [Window(0, 1), Window(last, 1)]
  {
    HorizonSign(size, interval);
    HorizonIsProduct(size, interval);
    HorizonAligned(size, interval);
    var es := ThreeEvents(last);
    assert es[..2][..1] == es[..1] == [Event(0, 1)] && es[..1][..0] == [];
    assert Replay(es[..1], size, interval) == [Window(0, 1)];
  }

  lemma CleanDropsZero(ws: seq<Window>, last: int)
    requires last > 0 && (ws == [Window(last, 1)] || ws == [Window(0, 1), Window(last, 1)])
    ensures Clean(ws, 0) == [Window(last, 1)]
  {
    if |ws| == 2 {
      assert ws[1..] == [Window(last, 1)];
      assert FirstFresh(ws[1..], 0) == 0;
    }
  }

  /** The first event is compacted away by the third. */
  lemma ReplayOfThree(size: nat, interval: int, last: int)
    requires size > 0 && interval > 0 && last == Horizon(size, interval)
    ensures Replay(ThreeEvents(last), size, interval) == [Window(last, 2)]
  {
    ReplayOfTwo(size, interval, last);
    var two := ThreeEvents(last)[..2];
    CleanDropsZero(Replay(two, size, interval), last);
    assert Add([Window(last, 1)], size, last, 1) == [Window(last, 2)];
    ReplayAppend(two, size, interval, Event(last, 1));
    assert two + [Event(last, 1)] == ThreeEvents(last);
  }

  lemma LongQueryTotals(size: nat, interval: int, last: int, cutoff: int)
    requires size > 0 && interval > 0 && last == Horizon(size, interval) && cutoff < 0
    ensures Total(Replay(ThreeEvents(last), size, interval), cutoff) == 2
    ensures HistoryTotal(ThreeEvents(last), interval, cutoff) == 3
  {
    ReplayOfTwo(size, interval, last);
    ReplayOfThree(size, interval, last);
    TotalAppend([], Window(last, 2), cutoff);
    assert [] + [Window(last, 2)] == [Window(last, 2)];
    HistoryOfThree(interval, last, cutoff);
  }

  lemma Inexact(es: seq<Event>, size: nat, interval: int, now: int, duration: int, cutoff: int)
    requires size > 0 && NonDecreasing(es) && es != [] && es[|es| - 1].time <= now && cutoff == now - duration
    requires Total(Replay(es, size, interval), cutoff) != HistoryTotal(es, interval, cutoff)
    ensures !Exact(es, size, interval, now, duration)
  {
  }

  lemma LongQueryMisses(size: nat, interval: int, last: int, duration: int)
    requires size > 0 && interval > 0 && last == Horizon(size, interval) < duration
    ensures !Exact(ThreeEvents(last), size, interval, last, duration)
  {
    HorizonSign(size, interval);
    var cutoff := last - duration;
    LongQueryTotals(size, interval, last, cutoff);
    Inexact(ThreeEvents(last), size, interval, last, duration, cutoff);
  }

  lemma HistoryOfThree(interval: int, last: int, cutoff: int)
    requires interval > 0 && Truncate(last, interval) == last > cutoff && cutoff < 0
    ensures HistoryTotal(ThreeEvents(last), interval, cutoff) == 3
  {
    var es := ThreeEvents(last);
    assert es[..2][..1] == es[..1] && es[..1][..0] == [];
    assert HistoryTotal(es[..1], interval, cutoff) == 1;
    assert HistoryTotal(es[..2], interval, cutoff) == 2;
  }

  /** Queries of a given duration are exact on every run if and only if the duration is at most
      `size * interval`. */
  lemma QueriesExactIff(size: nat, interval: int, duration: int)
    requires size > 0 && interval > 0
    ensures (forall es: seq<Event>, now: int :: Exact(es, size, interval, now, duration))
            <==> duration <= Horizon(size, interval) == size * interval
  {
    HorizonIsProduct(size, interval);
    if duration <= Horizon(size, interval) {
      forall es: seq<Event>, now: int ensures Exact(es, size, interval, now, duration) {
        if NonDecreasing(es) && (es != [] ==> es[|es| - 1].time <= now) {
          WindowedEqualsHistory(es, size, interval, now, duration);
        }
      }
    } else {
      LongQueryMisses(size, interval, Horizon(size, interval), duration);
    }
  }
}
