/**
  The factory's logger cache: a lookup under the read lock, creation under the write lock with
  a second look, and level updates that evict.  Callers interleave between the two locks.
 */
module LoggerFactory {
  import SamplingRules

  /** Levels are strings in the source; any other text counts as info. */
  datatype LogLevel = Debug | Info | Warn | Error | Other(text: string)

  function SlogLevel(level: LogLevel): int {
    match level
    case Debug => -4
    case Info => 0
    case Warn => 4
    case Error => 8
    case Other(_) => 0
  }

  datatype Config = Config(level: LogLevel, componentLevels: map<string, LogLevel>)

  function LevelFor(config: Config, component: string): LogLevel {
    if component in config.componentLevels then config.componentLevels[component] else config.level
  }

  /** The base handler checks the level only in Enabled; the level handler in both calls. */
  datatype Handler = Base(level: int) | Leveled(inner: Handler, level: int)

  predicate HandlerEnabled(h: Handler, level: int) {
    match h
    case Base(l) => level >= l
    case Leveled(inner, l) => level >= l && HandlerEnabled(inner, level)
  }

  predicate HandlerWrites(h: Handler, level: int) {
    match h
    case Base(_) => true
    case Leveled(inner, l) => level >= l && HandlerWrites(inner, level)
  }

  /** Logging through slog: ask Enabled, then Handle. */
  predicate Passes(h: Handler, level: int) { HandlerEnabled(h, level) && HandlerWrites(h, level) }

  function HandlerFor(config: Config, component: string): Handler {
    var base := Base(SlogLevel(config.level));
    var level := LevelFor(config, component);
    if level != config.level then Leveled(base, SlogLevel(level)) else base
  }

  /** `serial` tells loggers apart: the n-th one built has serial n. */
  datatype Logger = Logger(serial: nat, component: string, handler: Handler)

  /** `pending` holds the callers of GetLogger between their two locks. */
  datatype State = State(config: Config, loggers: map<string, Logger>, built: nat, pending: map<int, string>)

  datatype Label =
    | Lookup(caller: int, component: string)
    | Build(caller: int)
    | Update(component: string, level: LogLevel)

  predicate Possible(s: State, l: Label) {
    match l
    case Lookup(caller, _) => caller !in s.pending
    case Build(caller) => caller in s.pending
    case Update(_, _) => true
  }

  function NewLogger(s: State, component: string): Logger {
    Logger(s.built, component, HandlerFor(s.config, component))
  }

  function WithLogger(s: State, component: string): State {
    if component in s.loggers then s
    else s.(loggers := s.loggers[component := NewLogger(s, component)], built := s.built + 1)
  }

  function Step(s: State, l: Label): State
    requires Possible(s, l)
  {
    match l
    case Lookup(caller, component) =>
      if component in s.loggers then s else s.(pending := s.pending[caller := component])
    case Build(caller) =>
      WithLogger(s, s.pending[caller]).(pending := s.pending - {caller})
    case Update(component, level) =>
      s.(config := s.config.(componentLevels := s.config.componentLevels[component := level]),
         loggers := s.loggers - {component})
  }

  /** The step hands its caller the logger of `component`. */
  predicate Returns(s: State, l: Label, component: string) {
    match l
    case Lookup(_, c) => c == component && c in s.loggers
    case Build(caller) => caller in s.pending && s.pending[caller] == component
    case Update(_, _) => false
  }

  predicate IsInitial(s: State) { s.loggers == map[] && s.built == 0 && s.pending == map[] }

  ghost predicate Execution(states: seq<State>, labels: seq<Label>) {
    && |states| == |labels| + 1
    && IsInitial(states[0])
    && forall i | 0 <= i < |labels| :: Possible(states[i], labels[i]) && states[i + 1] == Step(states[i], labels[i])
  }

  // ---------------------------------------------------------------------------
  // Coherence
  // ---------------------------------------------------------------------------

  /** Every cached logger is the one its component's configured level calls for now. */
  predicate Coherent(s: State) {
    forall c | c in s.loggers ::
      && s.loggers[c].component == c
      && s.loggers[c].handler == HandlerFor(s.config, c)
      && s.loggers[c].serial < s.built
  }

  lemma StepKeepsCoherent(s: State, l: Label)
    requires Possible(s, l) && Coherent(s)
    ensures Coherent(Step(s, l))
  {
  }

  lemma {:induction false} AlwaysCoherent(states: seq<State>, labels: seq<Label>, n: nat)
    requires Execution(states, labels) && n < |states|
    ensures Coherent(states[n])
  {
    if n > 0 {
      AlwaysCoherent(states, labels, n - 1);
      StepKeepsCoherent(states[n - 1], labels[n - 1]);
    }
  }

  function Max(a: int, b: int): int { if a < b then b else a }

  /** The lowest level at which a component's records come through. */
  function Threshold(config: Config, component: string): int {
    Max(SlogLevel(config.level), SlogLevel(LevelFor(config, component)))
  }

  lemma PassesIff(config: Config, component: string, level: int)
    ensures Passes(HandlerFor(config, component), level) <==> level >= Threshold(config, component)
  {
    var h := HandlerFor(config, component);
    if h.Leveled? {
      assert HandlerEnabled(h.inner, level) <==> level >= SlogLevel(config.level);
      assert HandlerWrites(h.inner, level);
    }
  }

  /** The four names stand for the levels that slog prints under those names, and any other text
      for info. */
  lemma LevelsAreSlogs()
    ensures SamplingRules.LevelText(SlogLevel(Debug)) == "DEBUG" && SamplingRules.LevelText(SlogLevel(Info)) == "INFO"
    ensures SamplingRules.LevelText(SlogLevel(Warn)) == "WARN" && SamplingRules.LevelText(SlogLevel(Error)) == "ERROR"
    ensures forall text :: SlogLevel(Other(text)) == SlogLevel(Info)
  {
    SamplingRules.LevelNames();
  }

  /** The level of a component without an entry is the global one; one with an entry has to reach
      both. */
  lemma FilteredAsConfigured(config: Config, component: string, level: int)
    ensures component !in config.componentLevels ==>
              (Passes(HandlerFor(config, component), level) <==> level >= SlogLevel(config.level))
    ensures component in config.componentLevels ==>
              (Passes(HandlerFor(config, component), level)
               <==> level >= SlogLevel(config.level) && level >= SlogLevel(config.componentLevels[component]))
  {
    PassesIff(config, component, level);
  }

  /** A logger returned at any step of any run passes a record exactly when its level reaches
      both the global level and the level its component has at that step. */
  lemma ReturnedLoggerPassesIff(states: seq<State>, labels: seq<Label>, i: nat, component: string, level: int)
    requires Execution(states, labels) && i < |labels| && Returns(states[i], labels[i], component)
    ensures component in states[i + 1].loggers
    ensures Passes(states[i + 1].loggers[component].handler, level)
       <==> level >= Threshold(states[i].config, component)
  {
    AlwaysCoherent(states, labels, i + 1);
    PassesIff(states[i].config, component, level);
  }

  /** The two locks notwithstanding, callers of one component get the same logger as long as
      nobody updates its level in between. */
  lemma {:induction false} SameLogger(states: seq<State>, labels: seq<Label>, i: nat, j: nat, component: string)
    requires Execution(states, labels) && i < j <= |labels|
    requires component in states[i + 1].loggers
    requires forall k | i < k < j :: !(labels[k].Update? && labels[k].component == component)
    ensures component in states[j].loggers
    ensures states[j].loggers[component] == states[i + 1].loggers[component]
    decreases j
  {
    if j > i + 1 {
      SameLogger(states, labels, i, j - 1, component);
    }
  }

  lemma {:induction false} BuiltNeverShrinks(states: seq<State>, labels: seq<Label>, i: nat, j: nat)
    requires Execution(states, labels) && i <= j < |states|
    ensures states[i].built <= states[j].built
  {
    if i < j {
      BuiltNeverShrinks(states, labels, i, j - 1);
    }
  }

  /** A cached logger with an old serial was there all along, with no update since. */
  lemma {:induction false} OldLoggerWasThere(states: seq<State>, labels: seq<Label>, i: nat, j: nat, component: string)
    requires Execution(states, labels) && i <= j < |states|
    requires component in states[j].loggers && states[j].loggers[component].serial < states[i].built
    ensures component in states[i].loggers && states[i].loggers[component] == states[j].loggers[component]
    ensures forall k | i <= k < j :: !(labels[k].Update? && labels[k].component == component)
    decreases j
  {
    if i < j {
      BuiltNeverShrinks(states, labels, i, j - 1);
      AlwaysCoherent(states, labels, j - 1);
      OldLoggerWasThere(states, labels, i, j - 1, component);
    }
  }

  /** Two steps return the same logger of a component exactly when no update of that component
      lies between them. */
  lemma SameLoggerIff(states: seq<State>, labels: seq<Label>, i: nat, j: nat, component: string)
    requires Execution(states, labels) && i < j < |labels|
    requires Returns(states[i], labels[i], component) && Returns(states[j], labels[j], component)
    ensures component in states[i + 1].loggers && component in states[j + 1].loggers
    ensures states[i + 1].loggers[component] == states[j + 1].loggers[component]
       <==> forall k | i < k < j :: !(labels[k].Update? && labels[k].component == component)
  {
    if forall k | i < k < j :: !(labels[k].Update? && labels[k].component == component) {
      SameLogger(states, labels, i, j + 1, component);
    }
    if states[i + 1].loggers[component] == states[j + 1].loggers[component] {
      AlwaysCoherent(states, labels, i + 1);
      OldLoggerWasThere(states, labels, i + 1, j + 1, component);
    }
  }

  /** An update makes the component's records come through from the requested level on, exactly
      when that level is not below the global one. */
  lemma UpdateTakesEffectIff(s: State, component: string, level: LogLevel)
    ensures var after := Step(s, Update(component, level)).config;
            (forall n :: Passes(HandlerFor(after, component), n) <==> n >= SlogLevel(level))
            <==> SlogLevel(level) >= SlogLevel(s.config.level)
  {
    var after := Step(s, Update(component, level)).config;
    forall n
      ensures Passes(HandlerFor(after, component), n) <==> n >= Threshold(after, component)
    {
      PassesIff(after, component, n);
    }
    assert Passes(HandlerFor(after, component), SlogLevel(level))
      <==> SlogLevel(level) >= Threshold(after, component);
  }

  /** A logger kept from step `i` still filters as the configuration at a later state asks,
      exactly when the threshold of its component has not moved. */
  lemma KeptLoggerCurrentIff(states: seq<State>, labels: seq<Label>, i: nat, n: nat, component: string)
    requires Execution(states, labels) && i < |labels| && n < |states|
    requires Returns(states[i], labels[i], component)
    ensures component in states[i + 1].loggers
    ensures (forall level :: Passes(states[i + 1].loggers[component].handler, level)
                             <==> Passes(HandlerFor(states[n].config, component), level))
       <==> Threshold(states[i].config, component) == Threshold(states[n].config, component)
  {
    var h, g := HandlerFor(states[i].config, component), HandlerFor(states[n].config, component);
    AlwaysCoherent(states, labels, i + 1);
    forall level
      ensures Passes(h, level) <==> level >= Threshold(states[i].config, component)
      ensures Passes(g, level) <==> level >= Threshold(states[n].config, component)
    {
      PassesIff(states[i].config, component, level);
      PassesIff(states[n].config, component, level);
    }
    assert Passes(h, Threshold(states[i].config, component)) && Passes(g, Threshold(states[n].config, component));
  }

  /** A logger handed out before an update to error still writes info records after it. */
  lemma StaleLogger(component: string) returns (states: seq<State>, labels: seq<Label>)
    ensures Execution(states, labels)
    ensures labels == [Lookup(0, component), Build(0), Update(component, Error)]
    ensures Returns(states[1], labels[1], component) && component in states[2].loggers
    ensures Passes(states[2].loggers[component].handler, 0) && !Passes(HandlerFor(states[3].config, component), 0)
  {
    var s0 := State(Config(Info, map[]), map[], 0, map[]);
    labels := [Lookup(0, component), Build(0), Update(component, Error)];
    var s1 := Step(s0, labels[0]);
    var s2 := Step(s1, labels[1]);
    var s3 := Step(s2, labels[2]);
    states := [s0, s1, s2, s3];
    PassesIff(s1.config, component, 0);
    PassesIff(s3.config, component, 0);
  }

  // ---------------------------------------------------------------------------
  // The factory
  // ---------------------------------------------------------------------------

  class Factory {
    var config: Config
    var loggers: map<string, Logger>
    var built: nat

    ghost function Model(pending: map<int, string>): State
      reads this
    {
      State(config, loggers, built, pending)
    }

    constructor (config: Config)
      ensures IsInitial(Model(map[])) && this.config == config
    {
      this.config, loggers, built := config, map[], 0;
    }

    /** A caller that meets nobody else between its two locks. */
    method GetLogger(component: string, ghost caller: int, ghost pending: map<int, string>) returns (logger: Logger)
      requires caller !in pending
      modifies this
      ensures var s := Step(old(Model(pending)), Lookup(caller, component));
              Model(pending) == if caller in s.pending then Step(s, Build(caller)) else s
      ensures component in loggers && logger == loggers[component]
    {
      if component in loggers {
        return loggers[component];
      }
      logger := CreateLogger(component);
      assert pending[caller := component] - {caller} == pending;
    }

    /** The part under the write lock, with the second look. */
    method CreateLogger(component: string) returns (logger: Logger)
      modifies this
      ensures forall pending :: Model(pending) == WithLogger(old(Model(pending)), component)
      ensures component in loggers && logger == loggers[component]
    {
      if component in loggers {
        return loggers[component];
      }
      var level := LevelFor(config, component);
      var handler := Base(SlogLevel(config.level));
      if level != config.level {
        handler := Leveled(handler, SlogLevel(level));
      }
      logger := Logger(built, component, handler);
      loggers := loggers[component := logger];
      built := built + 1;
    }

    method UpdateLevel(component: string, level: LogLevel, ghost pending: map<int, string>)
      modifies this
      ensures Model(pending) == Step(old(Model(pending)), Update(component, level))
    {
      config := config.(componentLevels := config.componentLevels[component := level]);
      loggers := loggers - {component};
    }
  }
}
