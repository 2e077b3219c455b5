/**
  The rate controller of the adaptive strategy: multiplicative decrease under stress,
  multiplicative recovery otherwise, clamped to a range, with a minimum time between changes.
  Rates are real numbers; times are integers.
 */
module AdaptiveRate {
  import opened Options

  datatype Config = Config(
    initialRate: real, minRate: real, maxRate: real,
    systemLoadThreshold: real, memoryThresholdPercent: real, adjustmentInterval: int)

  /** `lastAdjust` is None for the zero time, which is further back than any interval. */
  datatype Controller = Controller(config: Config, currentRate: real, lastAdjust: Option<int>)

  /** One call of AdjustRate.  The clock is read for the check of the interval and, when the
      rate changes, again for the time of the adjustment. */
  datatype Reading = Reading(systemLoad: real, memoryUsagePercent: real, now: int, setAt: int)

  function Max(a: real, b: real): real { if a < b then b else a }

  function Min(a: real, b: real): real { if b < a then b else a }

  predicate Stressed(c: Config, r: Reading) {
    r.systemLoad > c.systemLoadThreshold || r.memoryUsagePercent > c.memoryThresholdPercent
  }

  predicate TooSoon(c: Controller, now: int) {
    c.lastAdjust.Some? && now - c.lastAdjust.value < c.config.adjustmentInterval
  }

  function NewRate(c: Config, rate: real, stressed: bool): real {
    if stressed then Max(rate * 0.8, c.minRate) else Min(rate * 1.1, c.maxRate)
  }

  function Adjusted(c: Controller, r: Reading): Controller {
    if TooSoon(c, r.now) then c
    else
      var rate := NewRate(c.config, c.currentRate, Stressed(c.config, r));
      if rate == c.currentRate then c else c.(currentRate := rate, lastAdjust := Some(r.setAt))
  }

  function Run(c: Controller, rs: seq<Reading>): Controller {
    if rs == [] then c else Adjusted(Run(c, rs[..|rs| - 1]), rs[|rs| - 1])
  }

  predicate InRange(c: Controller) { c.config.minRate <= c.currentRate <= c.config.maxRate }

  predicate SaneConfig(c: Config) { 0.0 < c.minRate <= c.maxRate }

  /** Whatever the readings, the rate never leaves [MinRate, MaxRate]. */
  lemma {:induction false} RateStaysInRange(c: Controller, rs: seq<Reading>)
    requires SaneConfig(c.config) && InRange(c)
    ensures InRange(Run(c, rs)) && Run(c, rs).config == c.config
  {
    if rs != [] {
      RateStaysInRange(c, rs[..|rs| - 1]);
    }
  }

  /** `r` multiplied n times by `b`. */
  function Compound(r: real, b: real, n: nat): real {
    if n == 0 then r else Compound(r, b, n - 1) * b
  }

  /** Each reading comes at least the interval after the adjustments of those before it, and
      the first is not refused. */
  predicate Spaced(c: Controller, rs: seq<Reading>) {
    && (rs != [] ==> !TooSoon(c, rs[0].now))
    && (forall i, j | 0 <= i < j < |rs| :: rs[j].now - rs[i].setAt >= c.config.adjustmentInterval)
  }

  lemma {:induction false} LastAdjustIsAReading(c: Controller, rs: seq<Reading>)
    ensures var d := Run(c, rs);
            d.lastAdjust == c.lastAdjust || exists i :: 0 <= i < |rs| && d.lastAdjust == Some(rs[i].setAt)
    ensures Run(c, rs).config == c.config
  {
    if rs != [] {
      LastAdjustIsAReading(c, rs[..|rs| - 1]);
    }
  }

  lemma SpacedIsEffective(c: Controller, rs: seq<Reading>)
    requires Spaced(c, rs) && rs != []
    requires forall i | 0 <= i < |rs| :: rs[0].now <= rs[i].now
    ensures !TooSoon(Run(c, rs[..|rs| - 1]), rs[|rs| - 1].now)
  {
    LastAdjustIsAReading(c, rs[..|rs| - 1]);
  }

  /** After n spaced readings without stress the rate is exactly min(MaxRate, r * 1.1^n),
      from any rate that does not exceed the maximum. */
  lemma {:induction false} RecoveryIsExact(c: Controller, rs: seq<Reading>)
    requires SaneConfig(c.config) && c.currentRate <= c.config.maxRate && Spaced(c, rs)
    requires forall i | 0 <= i < |rs| :: rs[0].now <= rs[i].now && !Stressed(c.config, rs[i])
    ensures Run(c, rs).currentRate == Min(Compound(c.currentRate, 1.1, |rs|), c.config.maxRate)
  {
    if rs != [] {
      var before := rs[..|rs| - 1];
      RecoveryIsExact(c, before);
      LastAdjustIsAReading(c, before);
      SpacedIsEffective(c, rs);
      GrowProduct(Compound(c.currentRate, 1.1, |before|), c.config.maxRate);
    }
  }

  lemma GrowProduct(x: real, maxRate: real)
    requires maxRate > 0.0
    ensures Min(Min(x, maxRate) * 1.1, maxRate) == Min(x * 1.1, maxRate)
  {
  }

  lemma ShrinkProduct(x: real, minRate: real)
    requires minRate > 0.0
    ensures Max(Max(x, minRate) * 0.8, minRate) == Max(x * 0.8, minRate)
  {
  }

  /** After n spaced readings under stress the rate is exactly max(MinRate, r * 0.8^n), from
      any rate not below the minimum. */
  lemma {:induction false} BackoffIsExact(c: Controller, rs: seq<Reading>)
    requires SaneConfig(c.config) && c.currentRate >= c.config.minRate && Spaced(c, rs)
    requires forall i | 0 <= i < |rs| :: rs[0].now <= rs[i].now && Stressed(c.config, rs[i])
    ensures Run(c, rs).currentRate == Max(Compound(c.currentRate, 0.8, |rs|), c.config.minRate)
  {
    if rs != [] {
      var before := rs[..|rs| - 1];
      BackoffIsExact(c, before);
      LastAdjustIsAReading(c, before);
      SpacedIsEffective(c, rs);
      ShrinkProduct(Compound(c.currentRate, 0.8, |before|), c.config.minRate);
    }
  }

  lemma {:induction false} CompoundAdds(r: real, b: real, m: nat, n: nat)
    ensures Compound(r, b, m + n) == Compound(Compound(r, b, m), b, n)
  {
    if n > 0 {
      CompoundAdds(r, b, m, n - 1);
    }
  }

  lemma {:induction false} CompoundMonotone(r: real, s: real, b: real, n: nat)
    requires r <= s && b > 0.0
    ensures Compound(r, b, n) <= Compound(s, b, n)
  {
    if n > 0 {
      CompoundMonotone(r, s, b, n - 1);
    }
  }

  /** Six steps multiply by 1.1^6, seven by 1.1^7. */
  lemma SevenSteps(r: real)
    ensures Compound(r, 1.1, 6) == r * 1.771561
    ensures Compound(r, 1.1, 7) == r * 1.9487171
  {
    assert Compound(r, 1.1, 1) == r * 1.1;
    assert Compound(r, 1.1, 2) == r * 1.21;
    assert Compound(r, 1.1, 3) == r * 1.331;
    assert Compound(r, 1.1, 4) == r * 1.4641;
    assert Compound(r, 1.1, 5) == r * 1.61051;
  }

  lemma FourteenSteps(r: real)
    requires r >= 0.0
    ensures 3.797 * r <= Compound(r, 1.1, 14) <= 3.798 * r
  {
    SevenSteps(r);
    CompoundAdds(r, 1.1, 7, 7);
    SevenSteps(Compound(r, 1.1, 7));
  }

  /** From 0.01, 48 steps stay below 1 and 49 reach it. */
  lemma FortyNineSteps()
    ensures Compound(0.01, 1.1, 48) < 1.0 <= Compound(0.01, 1.1, 49)
  {
    CompoundAdds(0.01, 1.1, 14, 14);
    CompoundAdds(0.01, 1.1, 28, 14);
    CompoundAdds(0.01, 1.1, 42, 6);
    CompoundAdds(0.01, 1.1, 42, 7);
    FourteenSteps(0.01);
    FourteenSteps(Compound(0.01, 1.1, 14));
    FourteenSteps(Compound(0.01, 1.1, 28));
    SevenSteps(Compound(0.01, 1.1, 42));
  }

  /** The configuration built by the sampler: from any rate in its range 49 spaced readings
      without stress restore full sampling, and from the minimum 48 do not. */
  lemma FullRecovery(c: Controller, rs: seq<Reading>)
    requires c.config.minRate == 0.01 && c.config.maxRate == 1.0 && InRange(c) && Spaced(c, rs)
    requires forall i | 0 <= i < |rs| :: rs[0].now <= rs[i].now && !Stressed(c.config, rs[i])
    ensures |rs| == 49 ==> Run(c, rs).currentRate == 1.0
    ensures |rs| == 48 && c.currentRate == 0.01 ==> Run(c, rs).currentRate < 1.0
  {
    RecoveryIsExact(c, rs);
    FortyNineSteps();
    CompoundMonotone(0.01, c.currentRate, 1.1, 49);
  }

  /** Stress only lowers the rate, its absence only raises it. */
  lemma {:induction false} StressOnlyLowers(c: Controller, rs: seq<Reading>)
    requires SaneConfig(c.config) && InRange(c)
    ensures (forall i | 0 <= i < |rs| :: Stressed(c.config, rs[i])) ==> Run(c, rs).currentRate <= c.currentRate
    ensures (forall i | 0 <= i < |rs| :: !Stressed(c.config, rs[i])) ==> Run(c, rs).currentRate >= c.currentRate
  {
    if rs != [] {
      StressOnlyLowers(c, rs[..|rs| - 1]);
      RateStaysInRange(c, rs[..|rs| - 1]);
    }
  }

  /** Which way a reading moves the rate: not at all within the interval; otherwise down exactly
      when the load or the memory is above its threshold, and up exactly when neither is, unless
      the rate is at the limit already. */
  lemma RateMovesIff(c: Controller, r: Reading)
    requires SaneConfig(c.config) && InRange(c)
    ensures var d := Adjusted(c, r);
            var recent := c.lastAdjust.Some? && r.now - c.lastAdjust.value < c.config.adjustmentInterval;
            var over := r.systemLoad > c.config.systemLoadThreshold
                        || r.memoryUsagePercent > c.config.memoryThresholdPercent;
            && (d.currentRate < c.currentRate <==> !recent && over && c.currentRate > c.config.minRate)
            && (d.currentRate > c.currentRate <==> !recent && !over && c.currentRate < c.config.maxRate)
            && (d.currentRate != c.currentRate ==> d.lastAdjust == Some(r.setAt))
            && (d.currentRate == c.currentRate ==> d == c)
  {
  }

  // ---------------------------------------------------------------------------
  // The ticker
  // ---------------------------------------------------------------------------

  /** The loop ticks once per interval.  A tick exactly one interval after a tick that changed
      the rate is refused exactly when time passed between the two clock readings of that
      change: in practice every other tick. */
  lemma TickRefusedIff(c: Controller, first: Reading, second: Reading)
    requires !TooSoon(c, first.now) && Adjusted(c, first).currentRate != c.currentRate
    requires second.now == first.now + c.config.adjustmentInterval && first.now <= first.setAt
    ensures TooSoon(Adjusted(c, first), second.now) <==> first.setAt != first.now
  {
    assert Adjusted(c, first).lastAdjust == Some(first.setAt);
  }

  // ---------------------------------------------------------------------------
  // UpdateConfig
  // ---------------------------------------------------------------------------

  /** UpdateConfig replaces the limits without clamping the rate, which may so fall outside
      them. */
  function WithConfig(c: Controller, config: Config): Controller { c.(config := config) }

  /** One effective reading brings a rate left outside back into range exactly when it moves
      the rate away from the limit it is beyond, or is one step short of that limit. */
  lemma NextInRangeIff(c: Controller, config: Config, r: Reading)
    requires SaneConfig(config) && !InRange(WithConfig(c, config)) && !TooSoon(WithConfig(c, config), r.now)
    ensures InRange(Adjusted(WithConfig(c, config), r)) <==>
            if c.currentRate < config.minRate then Stressed(config, r) || c.currentRate * 1.1 >= config.minRate
            else !Stressed(config, r) || c.currentRate * 0.8 <= config.maxRate
  {
  }

  /** Below the range, n spaced readings without stress suffice exactly when r * 1.1^n reaches
      the minimum. */
  lemma ReturnFromBelowIff(c: Controller, config: Config, rs: seq<Reading>)
    requires SaneConfig(config) && c.currentRate < config.minRate && Spaced(WithConfig(c, config), rs)
    requires forall i | 0 <= i < |rs| :: rs[0].now <= rs[i].now && !Stressed(config, rs[i])
    ensures InRange(Run(WithConfig(c, config), rs)) <==> Compound(c.currentRate, 1.1, |rs|) >= config.minRate
  {
    RecoveryIsExact(WithConfig(c, config), rs);
    LastAdjustIsAReading(WithConfig(c, config), rs);
  }

  /** Above it, n spaced readings under stress exactly when r * 0.8^n is down to the maximum. */
  lemma ReturnFromAboveIff(c: Controller, config: Config, rs: seq<Reading>)
    requires SaneConfig(config) && c.currentRate > config.maxRate && Spaced(WithConfig(c, config), rs)
    requires forall i | 0 <= i < |rs| :: rs[0].now <= rs[i].now && Stressed(config, rs[i])
    ensures InRange(Run(WithConfig(c, config), rs)) <==> Compound(c.currentRate, 0.8, |rs|) <= config.maxRate
  {
    BackoffIsExact(WithConfig(c, config), rs);
    LastAdjustIsAReading(WithConfig(c, config), rs);
  }

  /** A rate of 1, a new maximum of one half, and one effective reading later the rate is 0.8. */
  lemma StillOutOfRange(now: int)
    ensures var c := Controller(Config(1.0, 0.01, 1.0, 0.8, 85.0, 30), 1.0, None);
            var config := c.config.(maxRate := 0.5);
            var d := Adjusted(WithConfig(c, config), Reading(0.9, 0.0, now, now));
            SaneConfig(config) && InRange(c) && d.currentRate == 0.8 && !InRange(d)
  {
  }
}
