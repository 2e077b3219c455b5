/**
  Per-component levels: an exact entry wins; otherwise an entry whose name holds a `*` applies
  to every component that starts with it (less one trailing `*`); otherwise the default.
  The source walks a hash map, so among several matching patterns any may be met first.
 */
module LevelPatterns {

  type Levels = map<string, int>

  function TrimStar(pattern: string): (prefix: string)
    ensures prefix <= pattern && |prefix| >= |pattern| - 1
  {
    if |pattern| > 0 && pattern[|pattern| - 1] == '*' then pattern[..|pattern| - 1] else pattern
  }

  predicate Covers(pattern: string, component: string) { '*' in pattern && TrimStar(pattern) <= component }

  /** A trailing star stands for any rest; a star elsewhere stands for itself, and makes its entry
      apply to what starts with it; a name without a star covers nothing. */
  lemma CoversIff(prefix: string, component: string)
    ensures Covers(prefix + "*", component) <==> prefix <= component
    ensures '*' !in prefix ==> !Covers(prefix, component)
    ensures '*' in prefix && prefix[|prefix| - 1] != '*' ==> (Covers(prefix, component) <==> prefix <= component)
  {
    assert (prefix + "*")[|prefix|] == '*' && (prefix + "*")[..|prefix|] == prefix;
  }

  /** The levels a lookup may return. */
  ghost predicate Possible(levels: Levels, default: int, component: string, level: int) {
    if component in levels then level == levels[component]
    else if exists p :: p in levels && Covers(p, component) then
      exists p :: p in levels && Covers(p, component) && level == levels[p]
    else level == default
  }

  /** Every lookup has one possible answer, whatever the order of the walk. */
  ghost predicate OrderFree(levels: Levels, default: int) {
    forall component, m, n ::
      Possible(levels, default, component, m) && Possible(levels, default, component, n) ==> m == n
  }

  /** Patterns one of which extends the other carry the same level. */
  ghost predicate NestedAgree(levels: Levels) {
    forall p, q :: p in levels && q in levels && '*' in p && '*' in q && TrimStar(p) <= TrimStar(q)
      ==> levels[p] == levels[q]
  }

  /** A component name that extends `prefix` and is longer than every entry. */
  function Longer(prefix: string, n: nat): (name: string)
    ensures prefix <= name && |name| == |prefix| + n
  {
    if n == 0 then prefix else Longer(prefix, n - 1) + "x"
  }

  lemma {:induction false} LengthBound(names: set<string>) returns (n: nat)
    ensures forall x | x in names :: |x| < n
  {
    if names == {} {
      n := 0;
    } else {
      var x :| x in names;
      var m := LengthBound(names - {x});
      n := if m <= |x| then |x| + 1 else m;
    }
  }

  lemma PrefixesOfOne(a: string, b: string, c: string)
    requires a <= c && b <= c && |a| <= |b|
    ensures a <= b
  {
  }

  /** The outcome is independent of the walk exactly when nested patterns agree. */
  lemma OrderFreeIff(levels: Levels, default: int)
    ensures OrderFree(levels, default) <==> NestedAgree(levels)
  {
    if NestedAgree(levels) {
      forall component, m, n | Possible(levels, default, component, m) && Possible(levels, default, component, n)
        ensures m == n
      {
        NestedIsEnough(levels, default, component, m, n);
      }
    }
    if OrderFree(levels, default) {
      forall p, q | p in levels && q in levels && '*' in p && '*' in q && TrimStar(p) <= TrimStar(q)
        ensures levels[p] == levels[q]
      {
        var n := LengthBound(levels.Keys);
        var component := Longer(TrimStar(q), n);
        assert TrimStar(p) <= component;
        assert Covers(p, component) && Covers(q, component) && component !in levels;
        assert Possible(levels, default, component, levels[p]) && Possible(levels, default, component, levels[q]);
      }
    }
  }

  lemma NestedIsEnough(levels: Levels, default: int, component: string, m: int, n: int)
    requires NestedAgree(levels)
    requires Possible(levels, default, component, m) && Possible(levels, default, component, n)
    ensures m == n
  {
    if component !in levels && exists p :: p in levels && Covers(p, component) {
      var p :| p in levels && Covers(p, component) && m == levels[p];
      var q :| q in levels && Covers(q, component) && n == levels[q];
      if |TrimStar(p)| <= |TrimStar(q)| {
        PrefixesOfOne(TrimStar(p), TrimStar(q), component);
      } else {
        PrefixesOfOne(TrimStar(q), TrimStar(p), component);
      }
    }
  }

  /** A component without an entry of its own has the default level, on every walk, exactly when
      no pattern that covers it carries another level. */
  lemma DefaultIff(levels: Levels, default: int, component: string)
    requires component !in levels
    ensures (forall level :: Possible(levels, default, component, level) ==> level == default)
       <==> (forall p | p in levels && Covers(p, component) :: levels[p] == default)
  {
    forall p | p in levels && Covers(p, component)
      ensures Possible(levels, default, component, levels[p])
    {
    }
  }

  lemma RemovedElsewhere(levels: Levels, default: int, component: string, c: string, level: int)
    requires c != component && !Covers(component, c)
    ensures Possible(levels - {component}, default, c, level) <==> Possible(levels, default, c, level)
  {
  }

  class LevelHandler {
    var defaultLevel: int
    var componentLevels: Levels

    constructor (defaultLevel: int)
      ensures this.defaultLevel == defaultLevel && componentLevels == map[]
    {
      this.defaultLevel, componentLevels := defaultLevel, map[];
    }

    method GetLevelForComponent(component: string) returns (level: int)
      ensures Possible(componentLevels, defaultLevel, component, level)
    {
      if component in componentLevels {
        return componentLevels[component];
      }
      var rest := componentLevels.Keys;
      while rest != {}
        invariant rest <= componentLevels.Keys
        invariant forall p | p in componentLevels && p !in rest :: !Covers(p, component)
      {
        var pattern :| pattern in rest;
        if '*' in pattern && TrimStar(pattern) <= component {
          return componentLevels[pattern];
        }
        rest := rest - {pattern};
      }
      return defaultLevel;
    }

    method SetComponentLevel(component: string, level: int)
      modifies this`componentLevels
      ensures componentLevels == old(componentLevels)[component := level]
      ensures Possible(componentLevels, defaultLevel, component, level)
    {
      componentLevels := componentLevels[component := level];
    }

    /** The source promises a return to the default, which happens exactly when no remaining
        pattern covers the component with another level.  Lookups that the removed entry did not concern
        stay as they were. */
    method RemoveComponentLevel(component: string)
      modifies this`componentLevels
      ensures (forall level :: Possible(componentLevels, defaultLevel, component, level) ==> level == defaultLevel)
         <==> (forall p | p in old(componentLevels) && p != component && Covers(p, component) ::
                 old(componentLevels)[p] == defaultLevel)
      ensures forall c, level | c != component && !Covers(component, c) ::
                Possible(componentLevels, defaultLevel, c, level)
                <==> Possible(old(componentLevels), defaultLevel, c, level)
      ensures componentLevels == old(componentLevels) - {component}
    {
      ghost var before := componentLevels;
      componentLevels := componentLevels - {component};
      DefaultIff(componentLevels, defaultLevel, component);
      forall c, level | c != component && !Covers(component, c)
        ensures Possible(componentLevels, defaultLevel, c, level) <==> Possible(before, defaultLevel, c, level)
      {
        RemovedElsewhere(before, defaultLevel, component, c, level);
      }
    }
  }
}
