/**
  The advanced sampler: a list of strategies with one default, whose decision the others may
  only override if they are priority-based.  Hash values and the clock's contribution to a
  hash are part of the input.
 */
module Sampling {
  import opened AdaptiveRate
  import opened Options
  import opened SamplingRules

  datatype Stats = Stats(totalEvaluated: int, totalSampled: int, totalDropped: int)

  datatype TailConfig = TailConfig(slowTraceThresholdMs: int, slowTraceSampleRate: real, defaultSampleRate: real)

  datatype Strategy =
    | FixedRate(rate: real, stats: Stats)
    | AdaptiveLoad(controller: Controller, stats: Stats)
    | PriorityBased(rules: seq<Rule>, stats: Stats)
    | TailBased(tail: TailConfig, stats: Stats)

  /** One log record, as the strategies see it.  Hashes are normalised FNV sums: of level,
      component and trace id; and, per strategy that draws one, of the trace id or else of the
      clock (or of nothing, for a slow trace). */
  datatype Input = Input(
    record: Record,
    conv: Conversions,
    keyHash: real,
    priorityHash: real,
    tailHash: real,
    slowTraceHash: real)

  const LEVEL_ERROR := 8

  // ---------------------------------------------------------------------------
  // Decisions
  // ---------------------------------------------------------------------------

  /** The duration_ms attribute, which counts only as an int64. */
  function DurationMs(r: Record): Option<int> {
    if "duration_ms" in r.attrs && r.attrs["duration_ms"].Int64? then Some(r.attrs["duration_ms"].n) else None
  }

  predicate Decides(s: Strategy, input: Input) {
    match s
    case FixedRate(rate, _) => input.keyHash < rate
    case AdaptiveLoad(c, _) => input.keyHash < c.currentRate
    case PriorityBased(rules, _) =>
      var i := FirstMatch(rules, input.record, input.conv);
      i < |rules| && (rules[i].alwaysSample || input.priorityHash < rules[i].sampleRate)
    case TailBased(tail, _) =>
      var duration := DurationMs(input.record);
      if input.record.level >= LEVEL_ERROR then true
      else if duration.Some? && duration.value > tail.slowTraceThresholdMs then
        input.slowTraceHash < tail.slowTraceSampleRate
      else input.tailHash < tail.defaultSampleRate
  }

  function Tallied(st: Stats, sampled: bool): Stats {
    Stats(st.totalEvaluated + 1,
          st.totalSampled + (if sampled then 1 else 0),
          st.totalDropped + (if sampled then 0 else 1))
  }

  function WithStats(s: Strategy, st: Stats): Strategy {
    match s
    case FixedRate(rate, _) => FixedRate(rate, st)
    case AdaptiveLoad(controller, _) => AdaptiveLoad(controller, st)
    case PriorityBased(rules, _) => PriorityBased(rules, st)
    case TailBased(tail, _) => TailBased(tail, st)
  }

  function Evaluated(s: Strategy, input: Input): Strategy { WithStats(s, Tallied(s.stats, Decides(s, input))) }

  predicate Balanced(st: Stats) { st.totalEvaluated == st.totalSampled + st.totalDropped }

  /** Stress only shrinks the set of keys the adaptive strategy samples, and its absence only
      widens it. */
  lemma StressOnlyShrinks(c: Controller, rs: seq<Reading>, st: Stats, input: Input)
    requires SaneConfig(c.config) && InRange(c)
    ensures (forall i | 0 <= i < |rs| :: Stressed(c.config, rs[i])) ==>
              (Decides(AdaptiveLoad(Run(c, rs), st), input) ==> Decides(AdaptiveLoad(c, st), input))
    ensures (forall i | 0 <= i < |rs| :: !Stressed(c.config, rs[i])) ==>
              (Decides(AdaptiveLoad(c, st), input) ==> Decides(AdaptiveLoad(Run(c, rs), st), input))
  {
    StressOnlyLowers(c, rs);
  }

  // ---------------------------------------------------------------------------
  // Combining strategies
  // ---------------------------------------------------------------------------

  /** The decision after the default and the first `n` strategies have been consulted. */
  function Combined(ss: seq<Strategy>, d: nat, input: Input, n: nat): bool
    requires d < |ss| && n <= |ss|
  {
    if n == 0 then Decides(ss[d], input)
    else
      var before := Combined(ss, d, input, n - 1);
      if n - 1 != d && Decides(ss[n - 1], input) != before && ss[n - 1].PriorityBased?
      then Decides(ss[n - 1], input) else before
  }

  /** The last priority strategy other than the default has the final word; without one the
      default has. */
  lemma {:induction false} LastPriorityWins(ss: seq<Strategy>, d: nat, input: Input, n: nat, p: nat)
    requires d < |ss| && n <= |ss|
    requires forall i | p < i < n :: i == d || !ss[i].PriorityBased?
    ensures p < n && p != d && ss[p].PriorityBased? ==> Combined(ss, d, input, n) == Decides(ss[p], input)
    ensures (forall i | 0 <= i < n :: i == d || !ss[i].PriorityBased?)
            ==> Combined(ss, d, input, n) == Decides(ss[d], input)
  {
    if n > 0 {
      LastPriorityWins(ss, d, input, n - 1, p);
    }
  }

  // ---------------------------------------------------------------------------
  // AdvancedSampler
  // ---------------------------------------------------------------------------

  datatype SamplerConfig = SamplerConfig(
    enabled: bool,
    systemLoadThreshold: real, memoryThresholdPercent: real,
    adaptiveEnabled: bool, adaptiveInterval: int,
    priorityRules: seq<Rule>,
    tailEnabled: bool, tail: TailConfig)

  const FULL_RATE := 1.0

  function NoStats(): Stats { Stats(0, 0, 0) }

  function AdaptiveConfig(c: SamplerConfig): Config {
    Config(1.0, 0.01, 1.0, c.systemLoadThreshold, c.memoryThresholdPercent, c.adaptiveInterval)
  }

  predicate ControllerSound(c: Controller) {
    SaneConfig(c.config) && InRange(c) && c.config.minRate <= c.config.initialRate <= c.config.maxRate
  }

  predicate StrategySound(s: Strategy) { s.AdaptiveLoad? ==> ControllerSound(s.controller) }

  /** Every tally balances. */
  predicate Tallies(ss: seq<Strategy>) { forall i | 0 <= i < |ss| :: Balanced(ss[i].stats) }

  /** What every reachable sampler keeps besides: the only priority strategy is the default, and
      adaptive rates stay in range. */
  predicate SamplerSound(ss: seq<Strategy>, d: nat) { d < |ss| && ListSound(ss, d) }

  predicate ListSound(ss: seq<Strategy>, d: nat) {
    forall i | 0 <= i < |ss| ::
      var sound := StrategySound(ss[i]);
      sound && (ss[i].PriorityBased? ==> i == d)
  }

  function BuiltAdaptive(c: SamplerConfig): Strategy {
    AdaptiveLoad(Controller(AdaptiveConfig(c), 1.0, None), NoStats())
  }

  function One(b: bool): nat { if b then 1 else 0 }

  function BuiltDefault(c: SamplerConfig): nat { One(c.adaptiveEnabled) + One(|c.priorityRules| > 0) }

  /** What initializeStrategies sets up: the fixed rate of 1, then each configured strategy, and
      which of them is the default. */
  predicate Initial(c: SamplerConfig, ss: seq<Strategy>, d: nat) {
    var a, p := One(c.adaptiveEnabled), One(|c.priorityRules| > 0);
    && d == BuiltDefault(c) && |ss| == 1 + a + p + One(c.tailEnabled)
    && ss[0] == FixedRate(FULL_RATE, NoStats())
    && (c.adaptiveEnabled ==> ss[1] == BuiltAdaptive(c))
    && (|c.priorityRules| > 0 ==> ss[1 + a] == PriorityBased(c.priorityRules, NoStats()))
    && (c.tailEnabled ==> ss[1 + a + p] == TailBased(c.tail, NoStats()))
  }

  predicate Uncounted(ss: seq<Strategy>) {
    forall i | 0 <= i < |ss| :: ss[i].stats == NoStats()
  }

  /** The strategies built are sound: only the default can be a priority strategy. */
  lemma BuiltSound(c: SamplerConfig, ss: seq<Strategy>, d: nat)
    requires Initial(c, ss, d)
    ensures SamplerSound(ss, d) && Uncounted(ss)
  {
    var a, p := One(c.adaptiveEnabled), One(|c.priorityRules| > 0);
    forall i | 0 <= i < |ss|
      ensures StrategySound(ss[i]) && (ss[i].PriorityBased? ==> i == d) && ss[i].stats == NoStats()
    {
      assert i == 0 || (i == 1 && a == 1) || (i == 1 + a && p == 1) || (i == 1 + a + p && c.tailEnabled);
    }
  }

  /** Each strategy keeps the kind and the settings it was built with. */
  predicate Configured(c: SamplerConfig, ss: seq<Strategy>) {
    var a, p := One(c.adaptiveEnabled), One(|c.priorityRules| > 0);
    && |ss| == 1 + a + p + One(c.tailEnabled)
    && ss[0].FixedRate? && ss[0].rate == 1.0
    && (c.adaptiveEnabled ==> ss[1].AdaptiveLoad? && ss[1].controller.config == AdaptiveConfig(c))
    && (|c.priorityRules| > 0 ==> ss[1 + a].PriorityBased? && ss[1 + a].rules == c.priorityRules)
    && (c.tailEnabled ==> ss[1 + a + p].TailBased? && ss[1 + a + p].tail == c.tail)
  }

  predicate SameSettings(s: Strategy, t: Strategy) {
    match s
    case FixedRate(rate, _) => t.FixedRate? && t.rate == rate
    case AdaptiveLoad(c, _) => t.AdaptiveLoad? && t.controller.config == c.config
    case PriorityBased(rules, _) => t.PriorityBased? && t.rules == rules
    case TailBased(tail, _) => t.TailBased? && t.tail == tail
  }

  lemma SettingsKept(c: SamplerConfig, ss: seq<Strategy>, ss': seq<Strategy>)
    requires Configured(c, ss) && |ss'| == |ss|
    requires forall i | 0 <= i < |ss| :: SameSettings(ss[i], ss'[i])
    ensures Configured(c, ss')
  {
  }

  /** Rule `k` matches and none before it does. */
  predicate FirstMatches(rules: seq<Rule>, k: int, r: Record, conv: Conversions) {
    && 0 <= k < |rules| && Matches(rules[k], r, conv)
    && forall m | 0 <= m < k :: !Matches(rules[m], r, conv)
  }

  /** With rules the first that matches decides, by its flag or its rate, and without a match
      the record is dropped; without rules the adaptive rate decides, or everything is sampled. */
  lemma DefaultAnswer(c: SamplerConfig, ss: seq<Strategy>, input: Input)
    requires Configured(c, ss)
    ensures |c.priorityRules| > 0 ==>
              (Decides(ss[BuiltDefault(c)], input)
               <==> exists k :: FirstMatches(c.priorityRules, k, input.record, input.conv)
                                && (c.priorityRules[k].alwaysSample
                                    || input.priorityHash < c.priorityRules[k].sampleRate))
    ensures |c.priorityRules| == 0 && c.adaptiveEnabled ==>
              (Decides(ss[BuiltDefault(c)], input) <==> input.keyHash < ss[1].controller.currentRate)
    ensures |c.priorityRules| == 0 && !c.adaptiveEnabled ==>
              (Decides(ss[BuiltDefault(c)], input) <==> input.keyHash < 1.0)
  {
    var i := FirstMatch(c.priorityRules, input.record, input.conv);
    assert i < |c.priorityRules| ==> FirstMatches(c.priorityRules, i, input.record, input.conv);
  }

  /** Every error, slow traces at their own rate and the rest at the default rate. */
  predicate TailSamples(tail: TailConfig, input: Input) {
    input.record.level < 8 ==>
      var a := input.record.attrs;
      if "duration_ms" in a && a["duration_ms"].Int64? && a["duration_ms"].n > tail.slowTraceThresholdMs
      then input.slowTraceHash < tail.slowTraceSampleRate
      else input.tailHash < tail.defaultSampleRate
  }

  lemma TailAnswer(tail: TailConfig, st: Stats, input: Input)
    ensures Decides(TailBased(tail, st), input) <==> TailSamples(tail, input)
  {
  }

  lemma InitialConfigured(c: SamplerConfig, ss: seq<Strategy>, d: nat)
    requires Initial(c, ss, d)
    ensures Configured(c, ss)
  {
  }

  lemma EvaluatedConfigured(c: SamplerConfig, ss: seq<Strategy>, input: Input)
    requires Configured(c, ss)
    ensures Configured(c, AllEvaluated(ss, input))
  {
    SettingsKept(c, ss, AllEvaluated(ss, input));
  }

  lemma AdjustedConfigured(c: SamplerConfig, ss: seq<Strategy>, r: Reading)
    requires Configured(c, ss)
    ensures Configured(c, AllAdjusted(ss, r))
  {
    forall i | 0 <= i < |ss| ensures SameSettings(ss[i], AdjustedStrategy(ss[i], r)) {
    }
    SettingsKept(c, ss, AllAdjusted(ss, r));
  }

  lemma ResetConfigured(c: SamplerConfig, ss: seq<Strategy>, i: nat)
    requires Configured(c, ss) && i < |ss|
    ensures Configured(c, ss[i := ResetOf(ss[i])]) && SameSettings(ss[i], ResetOf(ss[i]))
  {
    SettingsKept(c, ss, ss[i := ResetOf(ss[i])]);
  }

  /** One more record in the tail strategy's tally. */
  lemma TailTallied(c: SamplerConfig, ss: seq<Strategy>, input: Input)
    requires Configured(c, ss) && c.tailEnabled
    ensures var before, after := ss[|ss| - 1].stats, AllEvaluated(ss, input)[|ss| - 1].stats;
            && after.totalEvaluated == before.totalEvaluated + 1
            && after.totalSampled == before.totalSampled + (if TailSamples(c.tail, input) then 1 else 0)
            && after.totalDropped == before.totalDropped + (if TailSamples(c.tail, input) then 0 else 1)
  {
    TailAnswer(c.tail, ss[|ss| - 1].stats, input);
  }

  function AllEvaluated(ss: seq<Strategy>, input: Input): seq<Strategy> {
    seq(|ss|, i requires 0 <= i < |ss| => Evaluated(ss[i], input))
  }

  lemma EvaluatedTallies(ss: seq<Strategy>, input: Input)
    requires Tallies(ss)
    ensures Tallies(AllEvaluated(ss, input))
  {
    forall i | 0 <= i < |ss| ensures Balanced(Evaluated(ss[i], input).stats) {
      assert Balanced(ss[i].stats);
    }
  }

  lemma AllEvaluatedSound(ss: seq<Strategy>, d: nat, input: Input)
    requires SamplerSound(ss, d)
    ensures SamplerSound(AllEvaluated(ss, input), d)
  {
    forall i | 0 <= i < |ss|
      ensures StrategySound(Evaluated(ss[i], input)) && (Evaluated(ss[i], input).PriorityBased? ==> i == d)
    {
      assert StrategySound(ss[i]);
    }
  }

  function AdjustedStrategy(s: Strategy, r: Reading): Strategy {
    if s.AdaptiveLoad? then s.(controller := Adjusted(s.controller, r)) else s
  }

  function AllAdjusted(ss: seq<Strategy>, r: Reading): seq<Strategy> {
    seq(|ss|, i requires 0 <= i < |ss| => AdjustedStrategy(ss[i], r))
  }

  lemma AdjustedTallies(ss: seq<Strategy>, r: Reading)
    requires Tallies(ss)
    ensures Tallies(AllAdjusted(ss, r))
  {
    forall i | 0 <= i < |ss| ensures Balanced(AdjustedStrategy(ss[i], r).stats) {
      assert Balanced(ss[i].stats);
    }
  }

  lemma AllAdjustedSound(ss: seq<Strategy>, d: nat, r: Reading)
    requires SamplerSound(ss, d)
    ensures SamplerSound(AllAdjusted(ss, r), d)
  {
    forall i | 0 <= i < |ss|
      ensures StrategySound(AdjustedStrategy(ss[i], r)) && (AdjustedStrategy(ss[i], r).PriorityBased? ==> i == d)
    {
      assert StrategySound(ss[i]);
    }
  }

  function ResetOf(s: Strategy): Strategy {
    match s
    case FixedRate(rate, _) => FixedRate(rate, NoStats())
    case AdaptiveLoad(c, _) => AdaptiveLoad(c.(currentRate := c.config.initialRate), NoStats())
    case PriorityBased(rules, _) => PriorityBased(rules, NoStats())
    case TailBased(tail, _) => TailBased(tail, NoStats())
  }

  lemma ResetKeeps(s: Strategy)
    requires StrategySound(s)
    ensures StrategySound(ResetOf(s)) && ResetOf(s).PriorityBased? == s.PriorityBased?
  {
  }

  lemma ReplaceSound(ss: seq<Strategy>, d: nat, i: nat, s: Strategy)
    requires ListSound(ss, d) && i < |ss|
    requires StrategySound(s) && s.PriorityBased? == ss[i].PriorityBased?
    ensures ListSound(ss[i := s], d)
  {
  }

  lemma ResetTallies(ss: seq<Strategy>, i: nat)
    requires Tallies(ss) && i < |ss|
    ensures Tallies(ss[i := ResetOf(ss[i])])
  {
    assert Balanced(ResetOf(ss[i]).stats);
  }

  lemma UncountedTallies(ss: seq<Strategy>)
    requires Uncounted(ss)
    ensures Tallies(ss)
  {
  }

  lemma ResetSound(ss: seq<Strategy>, d: nat, i: nat)
    requires SamplerSound(ss, d) && i < |ss|
    ensures SamplerSound(ss[i := ResetOf(ss[i])], d)
  {
    ResetKeeps(ss[i]);
    ReplaceSound(ss, d, i, ResetOf(ss[i]));
  }

  // ---------------------------------------------------------------------------
  // Whole runs
  // ---------------------------------------------------------------------------

  datatype SamplerState = SamplerState(strategies: seq<Strategy>, overall: Stats)

  datatype Call = Sample(input: Input) | Adjust(reading: Reading)

  function AfterCall(c: SamplerConfig, s: SamplerState, call: Call): SamplerState
    requires BuiltDefault(c) < |s.strategies|
  {
    match call
    case Adjust(r) => SamplerState(AllAdjusted(s.strategies, r), s.overall)
    case Sample(input) =>
      if c.enabled then
        SamplerState(AllEvaluated(s.strategies, input),
                     Tallied(s.overall, Combined(s.strategies, BuiltDefault(c), input, |s.strategies|)))
      else s
  }

  ghost predicate IsRun(c: SamplerConfig, states: seq<SamplerState>, calls: seq<Call>) {
    && |states| == |calls| + 1
    && Initial(c, states[0].strategies, BuiltDefault(c)) && states[0].overall == NoStats()
    && (forall i | 0 <= i < |states| :: BuiltDefault(c) < |states[i].strategies|)
    && (forall i | 0 <= i < |calls| :: states[i + 1] == AfterCall(c, states[i], calls[i]))
  }

  /** Every strategy is consulted as often as the sampler is, and the overall tally is the
      default strategy's own. */
  ghost predicate FollowsDefault(s: SamplerState, d: nat) {
    var sound, tallies := SamplerSound(s.strategies, d), Tallies(s.strategies);
    && sound && tallies
    && s.overall == s.strategies[d].stats
    && Balanced(s.overall)
    && forall i | 0 <= i < |s.strategies| :: s.strategies[i].stats.totalEvaluated == s.overall.totalEvaluated
  }

  lemma {:induction false} AlwaysFollowsDefault(c: SamplerConfig, states: seq<SamplerState>, calls: seq<Call>, n: nat)
    requires IsRun(c, states, calls) && n < |states|
    ensures FollowsDefault(states[n], BuiltDefault(c))
  {
    if n == 0 {
      InitialFollows(c, states[0]);
    } else {
      AlwaysFollowsDefault(c, states, calls, n - 1);
      CallKeepsFollowing(c, states[n - 1], calls[n - 1]);
    }
  }

  lemma InitialFollows(c: SamplerConfig, s: SamplerState)
    requires Initial(c, s.strategies, BuiltDefault(c)) && s.overall == NoStats()
    ensures FollowsDefault(s, BuiltDefault(c))
  {
    BuiltSound(c, s.strategies, BuiltDefault(c));
    UncountedTallies(s.strategies);
    UncountedFollows(s, BuiltDefault(c));
  }

  lemma UncountedFollows(s: SamplerState, d: nat)
    requires SamplerSound(s.strategies, d) && Uncounted(s.strategies) && Tallies(s.strategies) && s.overall == NoStats()
    ensures FollowsDefault(s, d)
  {
  }

  /** The override loop never changes the default's decision. */
  lemma DefaultDecides(ss: seq<Strategy>, d: nat, input: Input)
    requires SamplerSound(ss, d)
    ensures Combined(ss, d, input, |ss|) == Decides(ss[d], input)
  {
    LastPriorityWins(ss, d, input, |ss|, |ss|);
  }

  lemma CallKeepsFollowing(c: SamplerConfig, s: SamplerState, call: Call)
    requires FollowsDefault(s, BuiltDefault(c))
    ensures FollowsDefault(AfterCall(c, s, call), BuiltDefault(c))
  {
    match call
    case Adjust(r) =>
      AllAdjustedSound(s.strategies, BuiltDefault(c), r);
      AdjustedTallies(s.strategies, r);
    case Sample(input) =>
      DefaultDecides(s.strategies, BuiltDefault(c), input);
      AllEvaluatedSound(s.strategies, BuiltDefault(c), input);
      EvaluatedTallies(s.strategies, input);
  }

  class AdvancedSampler {
    const config: SamplerConfig
    var strategies: seq<Strategy>
    var default: nat          // position of defaultStrategy
    var stats: Stats

    ghost function Model(): SamplerState
      reads this
    {
      SamplerState(strategies, stats)
    }

    ghost predicate Valid()
      reads this
    {
      var sound, configured := SamplerSound(strategies, default), Configured(config, strategies);
      sound && configured && Balanced(stats) && default == BuiltDefault(config)
    }

    constructor (config: SamplerConfig)
      ensures Valid() && this.config == config
      ensures Initial(config, strategies, default) && stats == NoStats()
    {
      var ss, d := InitializeStrategies(config);
      InitialConfigured(config, ss, d);
      this.config, strategies, default, stats := config, ss, d, NoStats();
    }

    /** The default is the priority strategy if there are rules, else the adaptive one if that is
        enabled, else the fixed rate of 1; no other strategy is priority-based. */
    static method InitializeStrategies(config: SamplerConfig) returns (ss: seq<Strategy>, d: nat)
      ensures Initial(config, ss, d) && SamplerSound(ss, d)
      ensures ss[d] == if |config.priorityRules| > 0 then PriorityBased(config.priorityRules, NoStats())
                       else if config.adaptiveEnabled then BuiltAdaptive(config)
                       else FixedRate(FULL_RATE, NoStats())
      ensures config.adaptiveEnabled ==>
                && ss[1].AdaptiveLoad? && ss[1].controller.currentRate == 1.0 && ss[1].controller.lastAdjust == None
                && ss[1].controller.config
                   == Config(1.0, 0.01, 1.0, config.systemLoadThreshold, config.memoryThresholdPercent,
                             config.adaptiveInterval)
    {
      ss, d := [FixedRate(FULL_RATE, NoStats())], 0;
      if config.adaptiveEnabled {
        ss, d := ss + [BuiltAdaptive(config)], 1;
      }
      if |config.priorityRules| > 0 {
        ss, d := ss + [PriorityBased(config.priorityRules, NoStats())], |ss|;
      }
      if config.tailEnabled {
        ss := ss + [TailBased(config.tail, NoStats())];
      }
      BuiltSound(config, ss, d);
    }

    /** The answer, and the overall tally of answers. */
    method ShouldSample(input: Input) returns (sample: bool)
      requires Valid()
      modifies this`strategies, this`stats
      ensures Valid()
      ensures !config.enabled ==> sample
      ensures config.enabled && |config.priorityRules| > 0 ==>
                (sample <==> exists k :: FirstMatches(config.priorityRules, k, input.record, input.conv)
                                         && (config.priorityRules[k].alwaysSample
                                             || input.priorityHash < config.priorityRules[k].sampleRate))
      ensures config.enabled && |config.priorityRules| == 0 ==>
                (sample <==> input.keyHash < if config.adaptiveEnabled then old(strategies)[1].controller.currentRate
                                             else 1.0)
      ensures config.enabled ==>
                stats == Stats(old(stats).totalEvaluated + 1,
                               old(stats).totalSampled + (if sample then 1 else 0),
                               old(stats).totalDropped + (if sample then 0 else 1))
      ensures Model() == AfterCall(config, old(Model()), Sample(input))
    {
      if config.enabled {
        DefaultAnswer(config, strategies, input);
        sample := Consult(input);
      } else {
        sample := true;
      }
    }

    /** Every strategy is evaluated once, and the default one decides. */
    method Consult(input: Input) returns (sample: bool)
      requires Valid() && config.enabled
      modifies this`strategies, this`stats
      ensures Valid() && sample == Decides(old(strategies)[default], input)
      ensures Model() == AfterCall(config, old(Model()), Sample(input)) && stats == Tallied(old(stats), sample)
    {
      ghost var before := strategies;
      sample := Decides(strategies[default], input);
      strategies := strategies[default := Evaluated(strategies[default], input)];
      for i := 0 to |strategies|
        invariant |strategies| == |before| && stats == old(stats)
        invariant sample == Combined(before, default, input, i)
        invariant forall k | 0 <= k < |before| ::
                    strategies[k] == if k == default || k < i then Evaluated(before[k], input) else before[k]
      {
        if i != default {
          var override := Decides(strategies[i], input);
          strategies := strategies[i := Evaluated(strategies[i], input)];
          if override != sample && strategies[i].PriorityBased? {
            sample := override;
          }
        }
      }
      DefaultDecides(before, default, input);
      AllEvaluatedSound(before, default, input);
      assert strategies == AllEvaluated(before, input);
      EvaluatedConfigured(config, before, input);
      stats := Tallied(stats, sample);
    }

    /** The adaptive loop's action: every adaptive strategy is adjusted, nothing else changes. */
    method AdjustSamplingRates(r: Reading)
      requires Valid()
      modifies this`strategies
      ensures Valid() && Model() == AfterCall(config, old(Model()), Adjust(r))
      ensures forall i | 0 <= i < |strategies| && !old(strategies)[i].AdaptiveLoad? ::
                strategies[i] == old(strategies)[i]
      ensures config.adaptiveEnabled ==>
                strategies[1] == old(strategies)[1].(controller := Adjusted(old(strategies)[1].controller, r))
    {
      ghost var before := strategies;
      for i := 0 to |strategies|
        invariant |strategies| == |before|
        invariant forall k | 0 <= k < |before| ::
                    strategies[k] == if k < i then AdjustedStrategy(before[k], r) else before[k]
      {
        if strategies[i].AdaptiveLoad? {
          strategies := strategies[i := strategies[i].(controller := Adjusted(strategies[i].controller, r))];
        }
      }
      assert strategies == AllAdjusted(before, r);
      AdjustedConfigured(config, before, r);
      AllAdjustedSound(before, default, r);
    }

    /** Reset of one strategy: an adaptive strategy also returns to its initial rate. */
    method ResetStrategy(i: nat)
      requires Valid() && i < |strategies|
      modifies this`strategies
      ensures Valid() && strategies == old(strategies)[i := ResetOf(old(strategies)[i])]
      ensures strategies[i].stats == Stats(0, 0, 0) && SameSettings(old(strategies)[i], strategies[i])
      ensures strategies[i].AdaptiveLoad? ==>
                strategies[i].controller.currentRate == old(strategies)[i].controller.config.initialRate
      ensures old(Tallies(strategies)) ==> Tallies(strategies)
    {
      ResetSound(strategies, default, i);
      if Tallies(strategies) {
        ResetTallies(strategies, i);
      }
      ResetConfigured(config, strategies, i);
      strategies := strategies[i := ResetOf(strategies[i])];
    }
  }
}
