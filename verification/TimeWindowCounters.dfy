/**
  `TimeWindowCounter` as an object over a fixed buffer that is shifted and truncated in
  place.  Its contents are the replay of every call since the last Reset, so what is proved
  of replays in module TimeWindow is what the object answers.
 */
module TimeWindowCounters {
  import opened TimeWindow

  const NANOSECONDS_PER_SECOND := 1_000_000_000

  /** float64 division: by a zero duration it yields an infinity or NaN. */
  datatype Rate = PerSecond(value: real) | NonFinite

  function Quotient(total: int, duration: int): Rate {
    if duration == 0 then NonFinite
    else PerSecond(total as real * NANOSECONDS_PER_SECOND as real / duration as real)
  }

  /** It times the duration in seconds is the total. */
  lemma QuotientIsPerSecond(total: int, duration: int)
    requires duration != 0
    ensures Quotient(total, duration).PerSecond?
    ensures Quotient(total, duration).value * (duration as real / 1_000_000_000.0) == total as real
  {
    var t, d := total as real, duration as real;
    assert t * 1_000_000_000.0 / d * d == t * 1_000_000_000.0;
    assert t * 1_000_000_000.0 / d * (d / 1_000_000_000.0) == t * 1_000_000_000.0 / d * d / 1_000_000_000.0;
  }

  /** A query looks at windows strictly after this time. */
  function Cutoff(now: int, duration: int): int { now - duration }

  class TimeWindowCounter {
    const size: nat
    const interval: int
    const windows: array<Window>   // the slice's backing array; the slice is windows[..len]
    var len: nat
    ghost var history: seq<Event>  // every call of IncrementBy since the last Reset

    ghost function Contents(): seq<Window>
      reads this`len, windows
      requires len <= windows.Length
    {
      windows[..len]
    }

    ghost predicate Valid()
      reads this, windows
    {
      && size == windows.Length
      && len <= size
      && if size == 0 then history == []
         else var replayed := Contents() == Replay(history, size, interval); replayed
    }

    constructor (windowCount: nat, interval: int)
      ensures Valid() && fresh(windows) && history == []
      ensures size == windowCount && this.interval == interval
    {
      size, this.interval := windowCount, interval;
      windows := new Window[windowCount](_ => Window(0, 0));
      len, history := 0, [];
    }

    /** copy(windows, windows[k:]) followed by truncation to the remaining length. */
    method DropFirst(k: nat)
      requires len <= windows.Length && k <= len
      modifies windows, this`len
      ensures len == old(len) - k && Contents() == old(Contents())[k..]
    {
      forall i | 0 <= i < len - k {
        windows[i] := windows[i + k];
      }
      len := len - k;
    }

    method CleanOldWindows(now: int)
      requires len <= windows.Length
      modifies windows, this`len
      ensures len <= old(len) && Contents() == Clean(old(Contents()), Limit(now, size, interval))
    {
      HorizonIsProduct(size, interval);
      var cutoff := now - size * interval;
      var i := 0;
      while i < len && windows[i].timestamp <= cutoff
        invariant 0 <= i <= len
        invariant FirstFresh(Contents(), cutoff) == i + FirstFresh(Contents()[i..], cutoff)
      {
        assert Contents()[i..][1..] == Contents()[i + 1..];
        i := i + 1;
      }
      if 0 < i < len {
        DropFirst(i);
      }
    }

    /** Find or create the current window. */
    method AddToCurrent(currentWindow: int, amount: int)
      requires 0 < size == windows.Length && len <= size
      modifies windows, this`len
      ensures len <= size && Contents() == Add(old(Contents()), size, currentWindow, amount)
    {
      if len == 0 || windows[len - 1].timestamp < currentWindow {
        if len >= size {
          DropFirst(1);
        }
        windows[len] := Window(currentWindow, amount);
        len := len + 1;
      } else {
        windows[len - 1] := windows[len - 1].(count := windows[len - 1].count + amount);
      }
    }

    method IncrementWindows(now: int, amount: int)
      requires 0 < size == windows.Length && len <= size
      modifies windows, this`len
      ensures len <= size && Contents() == Incremented(old(Contents()), size, interval, Event(now, amount))
    {
      CleanOldWindows(now);
      AddToCurrent(Truncate(now, interval), amount);
    }

    /** A counter of no windows panics on its first call, and on every later one. */
    method IncrementBy(now: int, amount: int) returns (panics: bool)
      requires Valid()
      modifies windows, this`len, this`history
      ensures Valid() && panics == (size == 0)
      ensures history == if panics then old(history) else old(history) + [Event(now, amount)]
    {
      if size == 0 {   // copy(windows, windows[1:]) on an empty slice
        return true;
      }
      ReplayAppend(history, size, interval, Event(now, amount));
      IncrementWindows(now, amount);
      history := history + [Event(now, amount)];
      return false;
    }

    /** The loop of GetRate: `total` and the number of visible windows. */
    method SumVisible(now: int, duration: int) returns (total: int, count: nat)
      requires len <= windows.Length
      ensures total == Total(Contents(), now - duration) && count == Visible(Contents(), now - duration)
    {
      var cutoff := now - duration;
      total, count := 0, 0;
      for i := 0 to len
        invariant total == Total(Contents()[..i], cutoff) && count == Visible(Contents()[..i], cutoff)
      {
        assert Contents()[..i + 1][..i] == Contents()[..i];
        if windows[i].timestamp > cutoff {
          total, count := total + windows[i].count, count + 1;
        }
      }
      assert Contents()[..len] == Contents();
    }

    /** On a non-decreasing clock that total is the one of the complete history. */
    lemma AnswersLikeHistory(now: int, duration: int)
      requires Valid() && NonDecreasing(history) && (history != [] ==> history[|history| - 1].time <= now)
      requires duration <= Horizon(size, interval)
      ensures Total(Contents(), now - duration) == HistoryTotal(history, interval, now - duration)
    {
      if size > 0 {
        WindowedEqualsHistory(history, size, interval, now, duration);
      }
    }

    /** So on such a clock is whether anything is visible at all. */
    lemma SeesLikeHistory(cutoff: int)
      requires Valid() && NonDecreasing(history)
      ensures Visible(Contents(), cutoff) > 0 <==> EventVisible(history, interval, cutoff)
    {
      if size > 0 {
        SeesIff(history, size, interval, cutoff);
      }
    }

    /** What GetRate makes of the windows. */
    ghost function RateNow(cutoff: int, duration: int): Rate
      reads this, windows
      requires Valid()
    {
      if Visible(Contents(), cutoff) == 0 then PerSecond(0.0) else Quotient(Total(Contents(), cutoff), duration)
    }

    lemma RateOfNothing(cutoff: int, duration: int)
      requires Valid() && NonDecreasing(history)
      ensures RateNow(cutoff, duration).NonFinite? <==> duration == 0 && EventVisible(history, interval, cutoff)
      ensures !EventVisible(history, interval, cutoff) ==> RateNow(cutoff, duration) == PerSecond(0.0)
    {
      SeesLikeHistory(cutoff);
    }

    lemma RateIsQuotient(cutoff: int, duration: int)
      requires Valid() && duration != 0
      ensures RateNow(cutoff, duration) == Quotient(Total(Contents(), cutoff), duration)
    {
      VisibleCounts(Contents(), cutoff);
    }

    lemma RateOfHistory(now: int, duration: int)
      requires Valid() && NonDecreasing(history) && (history != [] ==> history[|history| - 1].time <= now)
      requires 0 < duration <= Horizon(size, interval)
      ensures RateNow(Cutoff(now, duration), duration)
           == Quotient(HistoryTotal(history, interval, Cutoff(now, duration)), duration)
    {
      AnswersLikeHistory(now, duration);
      RateIsQuotient(Cutoff(now, duration), duration);
    }

    /** On a non-decreasing clock: the history's total per second for a duration the counter
        covers, and no finite rate exactly for a zero duration with an event after `now`. */
    method GetRate(now: int, duration: int) returns (rate: Rate)
      requires Valid()
      ensures rate == RateNow(Cutoff(now, duration), duration)
      ensures NonDecreasing(history) ==>
                (rate.NonFinite? <==> duration == 0 && EventVisible(history, interval, Cutoff(now, duration)))
      ensures NonDecreasing(history) && !EventVisible(history, interval, Cutoff(now, duration)) ==>
                rate == PerSecond(0.0)
      ensures NonDecreasing(history) && (history != [] ==> history[|history| - 1].time <= now)
              && 0 < duration <= Horizon(size, interval) ==>
                rate == Quotient(HistoryTotal(history, interval, Cutoff(now, duration)), duration)
    {
      rate := ComputeRate(now, duration);
      if NonDecreasing(history) {
        RateOfNothing(Cutoff(now, duration), duration);
        if (history != [] ==> history[|history| - 1].time <= now) && 0 < duration <= Horizon(size, interval) {
          RateOfHistory(now, duration);
        }
      }
    }

    method ComputeRate(now: int, duration: int) returns (rate: Rate)
      requires Valid()
      ensures rate == RateNow(Cutoff(now, duration), duration)
    {
      var total, count := SumVisible(now, duration);
      if count == 0 {
        return PerSecond(0.0);
      }
      return Quotient(total, duration);
    }

    method Reset()
      requires Valid()
      modifies this`len, this`history
      ensures Valid() && history == [] && Contents() == []
    {
      len, history := 0, [];
    }
  }

  /** make panics on a negative capacity: no counter comes back. */
  method NewTimeWindowCounter(windowCount: int, interval: int) returns (counter: TimeWindowCounter?)
    ensures counter == null <==> windowCount < 0
    ensures counter != null ==> fresh(counter) && fresh(counter.windows) && counter.Valid()
    ensures counter != null ==> counter.size == windowCount && counter.interval == interval && counter.history == []
  {
    if windowCount < 0 {
      return null;
    }
    counter := new TimeWindowCounter(windowCount, interval);
  }
}
