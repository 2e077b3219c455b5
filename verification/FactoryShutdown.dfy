/**
  A logger factory over the asynchronous handler, as one system: the locked sections of the
  factory and the atomic actions of the pipeline interleave.  A logger is built with
  slog.Logger.With, which copies the handler together with its closed flag, and Close holds the
  factory's mutex until the handler is closed.
 */
module FactoryShutdown {
  import opened AsyncPipeline
  import LF = LoggerFactory

  datatype Joint = Joint(factory: LF.State, pipeline: State)

  datatype Action = OfFactory(section: LF.Label) | OfPipeline(action: Label)

  /** Close is under way and holds the mutex. */
  predicate Locked(s: State) { s.closer.FlagSet? || s.closer.Signalled? || s.closer.ChannelClosed? }

  /** The section finds no cached logger under the write lock. */
  predicate Builds(f: LF.State, l: LF.Label) {
    l.Build? && l.caller in f.pending && f.pending[l.caller] !in f.loggers
  }

  /** The handler itself belongs to the factory: nobody else logs through it or derives from it,
      and a logger gives no access to the Close of the copy it holds. */
  predicate Reaches(f: LF.State, p: Label) {
    !p.Check? && !p.SignalByCopy? && !p.CloseChannelByCopy? && (p.Derive? ==> f.built > 0)
  }

  predicate CanDo(s: Joint, a: Action) {
    match a
    case OfFactory(l) => !s.pipeline.panicked && !Locked(s.pipeline) && LF.Possible(s.factory, l)
    case OfPipeline(p) => Reaches(s.factory, p) && Enabled(s.pipeline, p)
  }

  function Do(s: Joint, a: Action): Joint
    requires CanDo(s, a)
  {
    match a
    case OfFactory(l) =>
      Joint(LF.Step(s.factory, l), if Builds(s.factory, l) then Step(s.pipeline, Derive) else s.pipeline)
    case OfPipeline(p) => Joint(s.factory, Step(s.pipeline, p))
  }

  ghost predicate Run(js: seq<Joint>, acts: seq<Action>) {
    && |js| == |acts| + 1
    && forall i {:trigger acts[i]} | 0 <= i < |acts| :: CanDo(js[i], acts[i]) && js[i + 1] == Do(js[i], acts[i])
  }

  ghost predicate Starts(s: Joint) { LF.IsInitial(s.factory) && Init(s.pipeline) }

  /** The pipeline's part of a run is a run of the pipeline in which no copy is closed. */
  lemma {:induction false} PipelinePart(js: seq<Joint>, acts: seq<Action>, i: nat)
    returns (tr: seq<State>, ls: seq<Label>)
    requires Run(js, acts) && i < |js|
    ensures Execution(tr, ls) && NoCopyCloses(ls)
    ensures tr[0] == js[0].pipeline && tr[|ls|] == js[i].pipeline
  {
    if i == 0 {
      return [js[0].pipeline], [];
    }
    tr, ls := PipelinePart(js, acts, i - 1);
    var s, a := js[i - 1], acts[i - 1];
    assert CanDo(s, a);
    if a.OfPipeline? {
      tr, ls := Extend(tr, ls, a.action);
    } else if Builds(s.factory, a.section) {
      tr, ls := Extend(tr, ls, Derive);
    }
  }

  /** While the handler is open or closing, a stale copy exists exactly when a logger was built. */
  ghost predicate CopiesAreLoggers(s: Joint) {
    && s.pipeline.copyCloser.NoCopyClosed?
    && (!s.pipeline.closer.Returned? ==> (s.pipeline.staleHandlers <==> s.factory.built > 0))
    && (forall t | t in s.pipeline.producers :: s.pipeline.producers[t].Checked? ==> s.pipeline.staleHandlers)
  }

  lemma BuildsCounted(f: LF.State, l: LF.Label)
    requires LF.Possible(f, l)
    ensures LF.Step(f, l).built == f.built + (if Builds(f, l) then 1 else 0)
  {
  }

  lemma ActionMakesLoggers(s: State, p: Label, built: nat)
    requires Enabled(s, p) && !p.Check? && !p.SignalByCopy? && !p.CloseChannelByCopy?
    requires p.Derive? ==> built > 0
    requires !s.closer.Returned? ==> (s.staleHandlers <==> built > 0)
    ensures var s' := Step(s, p);
            && s'.copyCloser == s.copyCloser && s'.producers.Keys == s.producers.Keys
            && (!s'.closer.Returned? ==> (s'.staleHandlers <==> built > 0))
            && (s.staleHandlers ==> s'.staleHandlers)
  {
  }

  lemma CheckedOnCopies(s: State, p: Label)
    requires Enabled(s, p) && !p.Check?
    requires forall t | t in s.producers :: s.producers[t].Checked? ==> s.staleHandlers
    ensures forall t | t in Step(s, p).producers :: Step(s, p).producers[t].Checked? ==> Step(s, p).staleHandlers
  {
    forall t | t in Step(s, p).producers && Step(s, p).producers[t].Checked?
      ensures Step(s, p).staleHandlers
    {
      assert t in s.producers && (s.producers[t].Checked? || p.CheckStale?);
    }
  }

  lemma {:induction false} LoggersHoldTheCopies(js: seq<Joint>, acts: seq<Action>, i: nat)
    requires Run(js, acts) && Starts(js[0]) && i < |js|
    ensures CopiesAreLoggers(js[i]) && js[i].pipeline.producers.Keys == js[0].pipeline.producers.Keys
  {
    if i > 0 {
      LoggersHoldTheCopies(js, acts, i - 1);
      var s, a := js[i - 1], acts[i - 1];
      assert CanDo(s, a);
      match a
      case OfFactory(l) => BuildsCounted(s.factory, l);
      case OfPipeline(p) =>
        ActionMakesLoggers(s.pipeline, p, s.factory.built);
        CheckedOnCopies(s.pipeline, p);
    }
  }

  /** What Close promises holds however the joint run goes on. */
  ghost predicate SafeFromHere(s: Joint) {
    forall js: seq<Joint>, acts: seq<Action>, i: nat ::
      Run(js, acts) && js[0] == s && i < |js| ==> SafeShutdown(js[i].pipeline)
  }

  lemma UnsafeOneEarlier(s: Joint, p: Label)
    requires CanDo(s, OfPipeline(p)) && !SafeFromHere(Do(s, OfPipeline(p)))
    ensures !SafeFromHere(s)
  {
    var js: seq<Joint>, acts: seq<Action>, i: nat :|
      Run(js, acts) && js[0] == Do(s, OfPipeline(p)) && i < |js| && !SafeShutdown(js[i].pipeline);
    var js', acts' := [s] + js, [OfPipeline(p)] + acts;
    forall j {:trigger acts'[j]} | 0 <= j < |acts'|
      ensures CanDo(js'[j], acts'[j]) && js'[j + 1] == Do(js'[j], acts'[j])
    {
      if j > 0 {
        assert acts'[j] == acts[j - 1];
      }
    }
    assert Run(js', acts') && js'[0] == s && !SafeShutdown(js'[i + 1].pipeline);
  }

  lemma PanicIsUnsafe(s: Joint)
    requires s.pipeline.panicked
    ensures !SafeFromHere(s)
  {
    var js: seq<Joint>, acts: seq<Action> := [s], [];
    assert Run(js, acts) && js[0] == s && !SafeShutdown(js[0].pipeline);
  }

  /** A goroutine past its closed check sends on the closed channel. */
  lemma CheckedLoggerCrashes(s: Joint, t: nat)
    requires s.pipeline.closer.FlagSet? && s.pipeline.copyCloser.NoCopyClosed? && !s.pipeline.panicked
    requires t in s.pipeline.producers && s.pipeline.producers[t].Checked?
    ensures !SafeFromHere(s)
  {
    var s1 := Do(s, OfPipeline(Signal));
    var s2 := Do(s1, OfPipeline(CloseChannel));
    PanicIsUnsafe(Do(s2, OfPipeline(Offer(t))));
    UnsafeOneEarlier(s2, Offer(t));
    UnsafeOneEarlier(s1, CloseChannel);
    UnsafeOneEarlier(s, Signal);
  }

  lemma IdleLoggerCrashes(s: Joint, t: nat)
    requires s.pipeline.closer.FlagSet? && s.pipeline.copyCloser.NoCopyClosed? && !s.pipeline.panicked
    requires t in s.pipeline.producers && s.pipeline.producers[t].Idle? && s.pipeline.staleHandlers
    ensures !SafeFromHere(s)
  {
    var check := CheckStale(t, LogEntry(""));
    CheckedLoggerCrashes(Do(s, OfPipeline(check)), t);
    UnsafeOneEarlier(s, check);
  }

  lemma LoggerCrashes(s: Joint, t: nat)
    requires s.pipeline.closer.FlagSet? && s.pipeline.copyCloser.NoCopyClosed? && !s.pipeline.panicked
    requires t in s.pipeline.producers && s.pipeline.staleHandlers
    ensures !SafeFromHere(s)
  {
    match s.pipeline.producers[t]
    case Checked(_) => CheckedLoggerCrashes(s, t);
    case Idle => IdleLoggerCrashes(s, t);
    case Sent =>
      IdleLoggerCrashes(Do(s, OfPipeline(CountBuffered(t))), t);
      UnsafeOneEarlier(s, CountBuffered(t));
    case Refused =>
      IdleLoggerCrashes(Do(s, OfPipeline(CountDropped(t))), t);
      UnsafeOneEarlier(s, CountDropped(t));
  }

  lemma SafePipelineSuffices(s: Joint)
    requires AllContinuationsSafe(s.pipeline)
    ensures SafeFromHere(s)
  {
    forall js: seq<Joint>, acts: seq<Action>, i: nat | Run(js, acts) && js[0] == s && i < |js|
      ensures SafeShutdown(js[i].pipeline)
    {
      var tr, ls := PipelinePart(js, acts, i);
      assert SafeShutdown(tr[|ls|]);
    }
  }

  /** In every run of factory and pipeline: once Close has set the flag, the shutdown is safe and
      complete however things go on, if and only if the factory has never built a logger. */
  lemma CloseSafeIffNoLoggers(js: seq<Joint>, acts: seq<Action>, k: nat)
    requires Run(js, acts) && Starts(js[0]) && js[0].pipeline.producers != map[] && k < |js|
    requires js[k].pipeline.closer.FlagSet? && !js[k].pipeline.panicked
    ensures SafeFromHere(js[k]) <==> js[k].factory.built == 0
  {
    LoggersHoldTheCopies(js, acts, k);
    var s := js[k];
    if s.factory.built > 0 {
      var t :| t in js[0].pipeline.producers;
      assert t in s.pipeline.producers.Keys;
      LoggerCrashes(s, t);
    } else {
      var tr, ls := PipelinePart(js, acts, k);
      ShutdownSafeIffNobodyAtRisk(tr, ls, |ls|);
      SafePipelineSuffices(s);
    }
  }
}
