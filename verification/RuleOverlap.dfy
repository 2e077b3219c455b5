/**
  Whether some record matches two rules and none before the first, decided from the conditions
  alone: choose for each earlier rule a condition that fails, and check field by field that
  what then has to hold and to fail can do so together.
 */
module RuleOverlap {
  import opened Options
  import opened SamplingRules

  // ---------------------------------------------------------------------------
  // Literals
  // ---------------------------------------------------------------------------

  /** A condition that has to hold, or has to fail. */
  datatype Literal = Literal(c: Condition, wanted: bool)

  predicate Agrees(l: Literal, text: string, number: Option<real>) { Compare(l.c, text, number) == l.wanted }

  predicate Satisfies(r: Record, ls: seq<Literal>, conv: Conversions) {
    forall n | 0 <= n < |ls| :: Holds(ls[n].c, r, conv) == ls[n].wanted
  }

  function Wanted(cs: seq<Condition>): seq<Literal> { seq(|cs|, n requires 0 <= n < |cs| => Literal(cs[n], true)) }

  predicate Numeric(op: Operator) { op.Gt? || op.Lt? || op.Gte? || op.Lte? }

  predicate Spare(ls: seq<Literal>, spare: char) { forall n | 0 <= n < |ls| :: spare !in ls[n].c.expected }

  predicate AllAgree(ls: seq<Literal>, f: Field, text: string, number: Option<real>) {
    forall n | 0 <= n < |ls| && ls[n].c.field == f :: Agrees(ls[n], text, number)
  }

  // ---------------------------------------------------------------------------
  // Texts
  // ---------------------------------------------------------------------------

  lemma IncludesTransitive(s: string, t: string, u: string)
    requires Includes(s, t) && Includes(t, u)
    ensures Includes(s, u)
  {
    var i :| 0 <= i <= |s| && t <= s[i..];
    var j :| 0 <= j <= |t| && u <= t[j..];
    assert s[i + j..] == s[i..][j..];
    assert u <= s[i + j..];
  }

  lemma IncludesWider(before: string, s: string, t: string)
    requires Includes(s, t)
    ensures Includes(s + before, t) && Includes(before + s, t)
  {
    var i :| 0 <= i <= |s| && t <= s[i..];
    assert (s + before)[i..] == s[i..] + before;
    assert (before + s)[|before| + i..] == s[i..];
  }

  lemma PrefixReaches(s: string, i: nat, t: string, k: nat)
    requires i <= k < |s| && t <= s[i..] && k < i + |t|
    ensures s[k] in t
  {
    assert t[k - i] == s[k];
  }

  lemma SplitAtSpare(a: string, b: string, t: string, spare: char)
    requires Includes(a + [spare] + b, t) && spare !in t && t != ""
    ensures Includes(a, t) || Includes(b, t)
  {
    var s := a + [spare] + b;
    var i :| 0 <= i <= |s| && t <= s[i..];
    if i + |t| <= |a| {
      assert t <= a[i..];
    } else if i > |a| {
      assert t <= b[i - |a| - 1..];
    } else {
      PrefixReaches(s, i, t, |a|);
    }
  }

  /** The expected texts that have to be contained, each after a spare character. */
  function Woven(ls: seq<Literal>, f: Field, spare: char): string {
    if ls == [] then ""
    else
      var l := ls[|ls| - 1];
      Woven(ls[..|ls| - 1], f, spare) + [spare] + (if Required(l, f) then l.c.expected else "")
  }

  predicate Required(l: Literal, f: Field) { l.c.field == f && l.c.operator.Contains? && l.wanted }

  lemma IncludesItself(before: string, t: string)
    ensures Includes(before + t, t)
  {
    assert t <= t[0..];
    IncludesWider(before, t, t);
  }

  lemma {:induction false} WovenIncludes(ls: seq<Literal>, f: Field, spare: char, n: nat)
    requires n < |ls| && Required(ls[n], f)
    ensures Includes(Woven(ls, f, spare), ls[n].c.expected)
  {
    var m := |ls| - 1;
    var before := Woven(ls[..m], f, spare);
    if n < m {
      var tail := if Required(ls[m], f) then ls[m].c.expected else "";
      WovenIncludes(ls[..m], f, spare, n);
      IncludesWider([spare], before, ls[n].c.expected);
      IncludesWider(tail, before + [spare], ls[n].c.expected);
    } else {
      IncludesItself(before + [spare], ls[n].c.expected);
    }
  }

  lemma {:induction false} WovenOnlyIncludes(ls: seq<Literal>, f: Field, spare: char, t: string)
    requires Includes(Woven(ls, f, spare), t) && spare !in t && t != ""
    ensures exists n :: 0 <= n < |ls| && Required(ls[n], f) && Includes(ls[n].c.expected, t)
  {
    if ls != [] {
      var m := |ls| - 1;
      var tail := if Required(ls[m], f) then ls[m].c.expected else "";
      SplitAtSpare(Woven(ls[..m], f, spare), tail, t, spare);
      if Includes(Woven(ls[..m], f, spare), t) {
        WovenOnlyIncludes(ls[..m], f, spare, t);
      }
    }
  }

  function Padded(s: string, n: nat, spare: char): string {
    if n == 0 then s else Padded(s, n - 1, spare) + [spare] + ""
  }

  lemma {:induction false} PaddedIncludes(s: string, n: nat, spare: char, t: string)
    ensures Includes(s, t) ==> Includes(Padded(s, n, spare), t)
    ensures Includes(Padded(s, n, spare), t) && spare !in t && t != "" ==> Includes(s, t)
    ensures |Padded(s, n, spare)| == |s| + n
  {
    if n > 0 {
      var p := Padded(s, n - 1, spare);
      PaddedIncludes(s, n - 1, spare, t);
      if Includes(s, t) {
        IncludesWider([spare], p, t);
        assert p + [spare] + "" == p + [spare];
      }
      if Includes(Padded(s, n, spare), t) && spare !in t && t != "" {
        SplitAtSpare(p, "", t, spare);
      }
    }
  }

  function TotalLength(ls: seq<Literal>): nat {
    if ls == [] then 0 else TotalLength(ls[..|ls| - 1]) + |ls[|ls| - 1].c.expected|
  }

  lemma {:induction false} LengthWithin(ls: seq<Literal>, n: nat)
    requires n < |ls|
    ensures |ls[n].c.expected| <= TotalLength(ls)
  {
    if n < |ls| - 1 {
      LengthWithin(ls[..|ls| - 1], n);
    }
  }

  /** The literal leaves one text only. */
  predicate Fixes(l: Literal) { if l.wanted then l.c.operator.Eq? else l.c.operator.Ne? }

  /** Nothing that has to be contained contains what must not be. */
  predicate Free(ls: seq<Literal>, f: Field) {
    forall m | 0 <= m < |ls| && ls[m].c.field == f ::
      && !Fixes(ls[m])
      && (ls[m].c.operator.Unknown? ==> !ls[m].wanted)
      && (ls[m].c.operator.Contains? && !ls[m].wanted ==>
            && ls[m].c.expected != ""
            && forall n | 0 <= n < |ls| && Required(ls[n], f) :: !Includes(ls[n].c.expected, ls[m].c.expected))
  }

  predicate TextsConsistent(ls: seq<Literal>, f: Field) {
    || (exists n :: 0 <= n < |ls| && ls[n].c.field == f && Fixes(ls[n]) && AllAgree(ls, f, ls[n].c.expected, None))
    || Free(ls, f)
  }

  predicate Textual(ls: seq<Literal>, f: Field) {
    forall n | 0 <= n < |ls| && ls[n].c.field == f :: !Numeric(ls[n].c.operator)
  }

  /** A text for a free field: the required texts woven together, longer than any other. */
  lemma FreeText(ls: seq<Literal>, f: Field, spare: char) returns (text: string)
    requires Free(ls, f) && Spare(ls, spare) && Textual(ls, f)
    ensures AllAgree(ls, f, text, None)
  {
    var w := Woven(ls, f, spare);
    text := Padded(w, TotalLength(ls) + 1, spare);
    forall n | 0 <= n < |ls| && ls[n].c.field == f
      ensures Agrees(ls[n], text, None)
    {
      var t := ls[n].c.expected;
      LengthWithin(ls, n);
      PaddedIncludes(w, TotalLength(ls) + 1, spare, t);
      if Required(ls[n], f) {
        WovenIncludes(ls, f, spare, n);
      } else if ls[n].c.operator.Contains? && Includes(text, t) {
        WovenOnlyIncludes(ls, f, spare, t);
      }
    }
  }

  lemma NoFreeText(ls: seq<Literal>, f: Field, text: string, number: Option<real>)
    requires Textual(ls, f) && AllAgree(ls, f, text, number)
    requires forall n | 0 <= n < |ls| && ls[n].c.field == f :: !Fixes(ls[n])
    ensures Free(ls, f)
  {
    forall m | 0 <= m < |ls| && ls[m].c.field == f && ls[m].c.operator.Contains? && !ls[m].wanted
      ensures ls[m].c.expected != ""
      ensures forall n | 0 <= n < |ls| && Required(ls[n], f) :: !Includes(ls[n].c.expected, ls[m].c.expected)
    {
      assert Agrees(ls[m], text, number);
      assert "" <= text[0..];
      forall n | 0 <= n < |ls| && Required(ls[n], f) && Includes(ls[n].c.expected, ls[m].c.expected)
        ensures false
      {
        assert Agrees(ls[n], text, number);
        IncludesTransitive(text, ls[n].c.expected, ls[m].c.expected);
      }
    }
    forall m | 0 <= m < |ls| && ls[m].c.field == f && ls[m].c.operator.Unknown?
      ensures !ls[m].wanted
    {
      assert Agrees(ls[m], text, number);
    }
  }

  lemma TextsConsistentIff(ls: seq<Literal>, f: Field, spare: char)
    requires Spare(ls, spare) && Textual(ls, f)
    ensures (exists text, number :: AllAgree(ls, f, text, number)) <==> TextsConsistent(ls, f)
  {
    if text: string, number: Option<real> :| AllAgree(ls, f, text, number) {
      if n :| 0 <= n < |ls| && ls[n].c.field == f && Fixes(ls[n]) {
        assert Agrees(ls[n], text, number);
        assert text == ls[n].c.expected;
        forall m | 0 <= m < |ls| && ls[m].c.field == f ensures Agrees(ls[m], text, None) {
          assert Agrees(ls[m], text, number);
        }
      } else {
        NoFreeText(ls, f, text, number);
      }
    }
    if Free(ls, f) {
      var text := FreeText(ls, f, spare);
    }
  }

  // ---------------------------------------------------------------------------
  // Numbers
  // ---------------------------------------------------------------------------

  predicate OnNumber(l: Literal, f: Field) { l.c.field == f && l.c.number.Some? }

  /** The limit next below `x`, or next above it, among those of the literals on `f`. */
  function Below(ls: seq<Literal>, f: Field, x: real): Option<real> {
    if ls == [] then None
    else
      var b, l := Below(ls[..|ls| - 1], f, x), ls[|ls| - 1];
      if OnNumber(l, f) && l.c.number.value <= x && (b.None? || b.value < l.c.number.value) then l.c.number else b
  }

  function Above(ls: seq<Literal>, f: Field, x: real): Option<real> {
    if ls == [] then None
    else
      var b, l := Above(ls[..|ls| - 1], f, x), ls[|ls| - 1];
      if OnNumber(l, f) && l.c.number.value >= x && (b.None? || b.value > l.c.number.value) then l.c.number else b
  }

  lemma {:induction false} BelowNext(ls: seq<Literal>, f: Field, x: real)
    ensures var b := Below(ls, f, x);
            && (b.Some? ==> b.value <= x && exists n :: 0 <= n < |ls| && OnNumber(ls[n], f) && ls[n].c.number == b)
            && (forall n | 0 <= n < |ls| && OnNumber(ls[n], f) && ls[n].c.number.value <= x ::
                  b.Some? && ls[n].c.number.value <= b.value)
  {
    if ls != [] {
      BelowNext(ls[..|ls| - 1], f, x);
    }
  }

  lemma {:induction false} AboveNext(ls: seq<Literal>, f: Field, x: real)
    ensures var b := Above(ls, f, x);
            && (b.Some? ==> b.value >= x && exists n :: 0 <= n < |ls| && OnNumber(ls[n], f) && ls[n].c.number == b)
            && (forall n | 0 <= n < |ls| && OnNumber(ls[n], f) && ls[n].c.number.value >= x ::
                  b.Some? && ls[n].c.number.value >= b.value)
  {
    if ls != [] {
      AboveNext(ls[..|ls| - 1], f, x);
    }
  }

  /** The literals of a numeric field agree with no number at all, with a limit or a number one
      beside it, or with the middle of two limits. */
  predicate NumbersConsistent(ls: seq<Literal>, f: Field) {
    || AllAgree(ls, f, "", None)
    || AllAgree(ls, f, "", Some(0.0))
    || (exists m :: 0 <= m < |ls| && OnNumber(ls[m], f) && Near(ls, f, ls[m].c.number.value))
    || (exists m, n :: 0 <= m < |ls| && 0 <= n < |ls| && OnNumber(ls[m], f) && OnNumber(ls[n], f)
                       && AllAgree(ls, f, "", Some((ls[m].c.number.value + ls[n].c.number.value) / 2.0)))
  }

  predicate Near(ls: seq<Literal>, f: Field, x: real) {
    AllAgree(ls, f, "", Some(x - 1.0)) || AllAgree(ls, f, "", Some(x)) || AllAgree(ls, f, "", Some(x + 1.0))
  }

  /** Two numbers on the same side of every limit. */
  ghost predicate SameSide(ls: seq<Literal>, f: Field, x: real, y: real) {
    forall n | 0 <= n < |ls| && OnNumber(ls[n], f) ::
      && (x < ls[n].c.number.value <==> y < ls[n].c.number.value)
      && (x > ls[n].c.number.value <==> y > ls[n].c.number.value)
  }

  predicate AllNumeric(ls: seq<Literal>, f: Field) {
    forall n | 0 <= n < |ls| && ls[n].c.field == f :: Numeric(ls[n].c.operator)
  }

  lemma SameSideAgrees(ls: seq<Literal>, f: Field, x: real, y: real, text: string)
    requires AllNumeric(ls, f) && SameSide(ls, f, x, y) && AllAgree(ls, f, text, Some(x))
    ensures AllAgree(ls, f, "", Some(y))
  {
    forall n | 0 <= n < |ls| && ls[n].c.field == f
      ensures Agrees(ls[n], "", Some(y))
    {
      assert Agrees(ls[n], text, Some(x));
    }
  }

  lemma NumbersConsistentIff(ls: seq<Literal>, f: Field)
    requires AllNumeric(ls, f)
    ensures (exists text, number :: AllAgree(ls, f, text, number)) <==> NumbersConsistent(ls, f)
  {
    if text: string, number: Option<real> :| AllAgree(ls, f, text, number) {
      match number
      case None =>
        forall n | 0 <= n < |ls| && ls[n].c.field == f ensures Agrees(ls[n], "", None) {
          assert Agrees(ls[n], text, None);
        }
      case Some(x) => NumberFound(ls, f, text, x);
    }
  }

  /** A number on the same side of every limit as `x`, made from the limits next to it. */
  function Stand(ls: seq<Literal>, f: Field, x: real): real {
    match (Below(ls, f, x), Above(ls, f, x))
    case (Some(a), Some(b)) => if a == x then x else (a + b) / 2.0
    case (Some(a), None) => a + 1.0
    case (None, Some(b)) => b - 1.0
    case (None, None) => 0.0
  }

  lemma StandsIn(ls: seq<Literal>, f: Field, x: real)
    ensures SameSide(ls, f, x, Stand(ls, f, x))
  {
    BelowNext(ls, f, x);
    AboveNext(ls, f, x);
  }

  lemma NumberFound(ls: seq<Literal>, f: Field, text: string, x: real)
    requires AllNumeric(ls, f) && AllAgree(ls, f, text, Some(x))
    ensures NumbersConsistent(ls, f)
  {
    StandsIn(ls, f, x);
    SameSideAgrees(ls, f, x, Stand(ls, f, x), text);
    StandIsTried(ls, f, x);
  }

  lemma StandIsTried(ls: seq<Literal>, f: Field, x: real)
    requires AllAgree(ls, f, "", Some(Stand(ls, f, x)))
    ensures NumbersConsistent(ls, f)
  {
    BelowNext(ls, f, x);
    AboveNext(ls, f, x);
    match (Below(ls, f, x), Above(ls, f, x))
    case (Some(a), Some(b)) =>
      var m :| 0 <= m < |ls| && OnNumber(ls[m], f) && ls[m].c.number == Some(a);
      var n :| 0 <= n < |ls| && OnNumber(ls[n], f) && ls[n].c.number == Some(b);
      assert a == x ==> Near(ls, f, ls[m].c.number.value);
      assert a != x ==> AllAgree(ls, f, "", Some((ls[m].c.number.value + ls[n].c.number.value) / 2.0));
    case (Some(a), None) =>
      var m :| 0 <= m < |ls| && OnNumber(ls[m], f) && ls[m].c.number == Some(a);
      assert Near(ls, f, ls[m].c.number.value);
    case (None, Some(b)) =>
      var n :| 0 <= n < |ls| && OnNumber(ls[n], f) && ls[n].c.number == Some(b);
      assert Near(ls, f, ls[n].c.number.value);
    case (None, None) =>
  }

  // ---------------------------------------------------------------------------
  // Records
  // ---------------------------------------------------------------------------

  /** The value agrees with every literal on the field. */
  predicate Fits(ls: seq<Literal>, f: Field, v: Value, conv: Conversions) {
    AllAgree(ls, f, Shown(v, conv), NumberOf(v, conv))
  }

  /** Some value the field can have does; level and component are texts. */
  ghost predicate Fitting(ls: seq<Literal>, f: Field, conv: Conversions) {
    exists v: Value :: (f.Attr? || v.Text?) && Fits(ls, f, v, conv)
  }

  /** An attribute compared both as a text and as a number, or a component as a number. */
  predicate Mixed(ls: seq<Literal>, f: Field) {
    !f.Level? && !Textual(ls, f) && !(f.Attr? && AllNumeric(ls, f))
  }

  /** What the conditions themselves do not tell: how the library converts numbers, a character
      that occurs in no condition, and whether literals that mix the two kinds of comparison on
      one field can hold together. */
  datatype Setting = Setting(conv: Conversions, spare: char, mixed: (seq<Literal>, Field) -> bool)

  ghost predicate Answers(env: Setting, ls: seq<Literal>) {
    forall f {:trigger env.mixed(ls, f)} | Mixed(ls, f) :: env.mixed(ls, f) <==> Fitting(ls, f, env.conv)
  }

  /** The level is one of finitely many integers. */
  predicate LevelsConsistent(ls: seq<Literal>, conv: Conversions) {
    exists l: int :: -0x8000_0000_0000_0000 <= l < 0x8000_0000_0000_0000 && Fits(ls, Level, Text(LevelText(l)), conv)
  }

  predicate FieldConsistent(ls: seq<Literal>, f: Field, env: Setting) {
    if Mixed(ls, f) then env.mixed(ls, f)
    else if Textual(ls, f) then TextsConsistent(ls, f)
    else NumbersConsistent(ls, f)
  }

  predicate Consistent(ls: seq<Literal>, env: Setting) {
    && LevelsConsistent(ls, env.conv)
    && forall n | 0 <= n < |ls| && !ls[n].c.field.Level? :: FieldConsistent(ls, ls[n].c.field, env)
  }

  lemma FieldConsistentIff(ls: seq<Literal>, f: Field, env: Setting)
    requires Spare(ls, env.spare) && Answers(env, ls) && !f.Level?
    ensures Fitting(ls, f, env.conv) <==> FieldConsistent(ls, f, env)
  {
    if !Mixed(ls, f) {
      if Textual(ls, f) {
        TextsConsistentIff(ls, f, env.spare);
      } else {
        NumbersConsistentIff(ls, f);
      }
      if text: string, number: Option<real> :| AllAgree(ls, f, text, number) {
        ValueFits(ls, f, text, number, env.conv);
      }
    }
  }

  /** What a field is not compared as is free: a text, whatever number it stands for, or a
      number, whatever it prints. */
  lemma ValueFits(ls: seq<Literal>, f: Field, text: string, number: Option<real>, conv: Conversions)
    requires !f.Level? && !Mixed(ls, f) && AllAgree(ls, f, text, number)
    ensures Fitting(ls, f, conv)
  {
    var v :=
      if Textual(ls, f) then Text(text)
      else match number case Some(x) => Float(x, false) case None => Plain(text);
    forall n | 0 <= n < |ls| && ls[n].c.field == f
      ensures Agrees(ls[n], Shown(v, conv), NumberOf(v, conv))
    {
      assert Agrees(ls[n], text, number);
    }
    assert Fits(ls, f, v, conv);
  }

  lemma {:induction false} AttrsFor(ls: seq<Literal>, names: set<string>, conv: Conversions)
    returns (attrs: map<string, Value>)
    requires forall name | name in names :: Fitting(ls, Attr(name), conv)
    ensures attrs.Keys == names && forall name | name in names :: Fits(ls, Attr(name), attrs[name], conv)
  {
    if names == {} {
      attrs := map[];
    } else {
      var name :| name in names;
      var rest := AttrsFor(ls, names - {name}, conv);
      var v: Value :| Fits(ls, Attr(name), v, conv);
      attrs := rest[name := v];
    }
  }

  /** The record built from a level, a component and attributes that fit. */
  lemma RecordFits(ls: seq<Literal>, r: Record, conv: Conversions)
    requires Fits(ls, Level, Text(LevelText(r.level)), conv) && Fits(ls, Component, Text(r.component), conv)
    requires forall n | 0 <= n < |ls| && ls[n].c.field.Attr? ::
               ls[n].c.field.name in r.attrs && Fits(ls, ls[n].c.field, r.attrs[ls[n].c.field.name], conv)
    ensures Satisfies(r, ls, conv)
  {
    forall n | 0 <= n < |ls|
      ensures Holds(ls[n].c, r, conv) == ls[n].wanted
    {
      var f := ls[n].c.field;
      assert Fits(ls, f, FieldValue(r, f), conv);
    }
  }

  lemma RecordFor(ls: seq<Literal>, env: Setting) returns (r: Record)
    requires Spare(ls, env.spare) && Answers(env, ls) && Consistent(ls, env)
    ensures Satisfies(r, ls, env.conv)
  {
    var level: int :|
      -0x8000_0000_0000_0000 <= level < 0x8000_0000_0000_0000 && Fits(ls, Level, Text(LevelText(level)), env.conv);
    var component := ComponentFor(ls, env);
    var names := set n | 0 <= n < |ls| && ls[n].c.field.Attr? :: ls[n].c.field.name;
    forall name | name in names
      ensures Fitting(ls, Attr(name), env.conv)
    {
      FieldConsistentIff(ls, Attr(name), env);
    }
    var attrs := AttrsFor(ls, names, env.conv);
    r := Record(level, component, attrs);
    RecordFits(ls, r, env.conv);
  }

  lemma ComponentFor(ls: seq<Literal>, env: Setting) returns (text: string)
    requires Spare(ls, env.spare) && Answers(env, ls) && Consistent(ls, env)
    ensures Fits(ls, Component, Text(text), env.conv)
  {
    text := "";
    if n :| 0 <= n < |ls| && ls[n].c.field == Component {
      FieldConsistentIff(ls, Component, env);
      var v: Value :| v.Text? && Fits(ls, Component, v, env.conv);
      text := v.s;
    }
  }

  lemma ConsistentIff(ls: seq<Literal>, env: Setting)
    requires Spare(ls, env.spare) && Answers(env, ls)
    ensures (exists r :: Satisfies(r, ls, env.conv)) <==> Consistent(ls, env)
  {
    if r :| Satisfies(r, ls, env.conv) {
      RecordIsConsistent(ls, r, env);
    }
    if Consistent(ls, env) {
      var r := RecordFor(ls, env);
    }
  }

  lemma RecordIsConsistent(ls: seq<Literal>, r: Record, env: Setting)
    requires Spare(ls, env.spare) && Answers(env, ls) && Satisfies(r, ls, env.conv)
    ensures Consistent(ls, env)
  {
    forall f
      ensures Fits(ls, f, FieldValue(r, f), env.conv)
    {
      forall n | 0 <= n < |ls| && ls[n].c.field == f
        ensures Agrees(ls[n], Shown(FieldValue(r, f), env.conv), NumberOf(FieldValue(r, f), env.conv))
      {
        assert Holds(ls[n].c, r, env.conv) == ls[n].wanted;
      }
    }
    assert Fits(ls, Level, Text(LevelText(r.level)), env.conv) by {
      assert FieldValue(r, Level) == Text(LevelText(r.level));
    }
    forall n | 0 <= n < |ls| && !ls[n].c.field.Level?
      ensures FieldConsistent(ls, ls[n].c.field, env)
    {
      var f := ls[n].c.field;
      assert Fits(ls, f, FieldValue(r, f), env.conv);
      FieldConsistentIff(ls, f, env);
    }
  }

  // ---------------------------------------------------------------------------
  // Rules
  // ---------------------------------------------------------------------------

  /** The same literals, and the condition has to fail. */
  function Failing(ls: seq<Literal>, c: Condition): seq<Literal> { ls + [Literal(c, false)] }

  /** The literals can hold together with each of the rules from `k` to `i` failing, when
      `consistent` tells whether literals can hold together. */
  predicate Possible(consistent: seq<Literal> -> bool, ls: seq<Literal>, rules: seq<Rule>, k: nat, i: nat)
    requires k <= i <= |rules|
    decreases i - k
  {
    if k == i then consistent(ls)
    else
      var cs := rules[k].conditions;
      exists x :: 0 <= x < |cs| && Possible(consistent, Failing(ls, cs[x]), rules, k + 1, i)
  }

  predicate CanMeet(rules: seq<Rule>, i: nat, j: nat, env: Setting)
    requires i < j < |rules|
  {
    Possible(ls => Consistent(ls, env), Wanted(rules[i].conditions) + Wanted(rules[j].conditions), rules, 0, i)
  }

  /** Every condition of every rule. */
  function AllConditions(rules: seq<Rule>): set<Condition> {
    set k, x | 0 <= k < |rules| && 0 <= x < |rules[k].conditions| :: rules[k].conditions[x]
  }

  predicate SeparateConditions(cs: set<Condition>) {
    && (forall c, d | c in cs && d in cs && c.field == d.field && c.field.Attr? ::
          Numeric(c.operator) == Numeric(d.operator))
    && (forall c | c in cs && c.field.Component? :: !Numeric(c.operator))
  }

  predicate From(ls: seq<Literal>, cs: set<Condition>) { forall n | 0 <= n < |ls| :: ls[n].c in cs }

  ghost predicate SatisfiesBut(r: Record, ls: seq<Literal>, rules: seq<Rule>, k: nat, i: nat, conv: Conversions)
    requires i <= |rules|
  {
    Satisfies(r, ls, conv) && forall m | k <= m < i :: !Matches(rules[m], r, conv)
  }

  ghost predicate SomeRecord(ls: seq<Literal>, rules: seq<Rule>, k: nat, i: nat, conv: Conversions)
    requires i <= |rules|
  {
    exists r :: SatisfiesBut(r, ls, rules, k, i, conv)
  }

  lemma FailureDropped(r: Record, ls: seq<Literal>, rules: seq<Rule>, k: nat, i: nat, x: nat, conv: Conversions)
    requires k < i <= |rules| && x < |rules[k].conditions|
    requires SatisfiesBut(r, Failing(ls, rules[k].conditions[x]), rules, k + 1, i, conv)
    ensures SatisfiesBut(r, ls, rules, k, i, conv)
  {
    var more := Failing(ls, rules[k].conditions[x]);
    assert more[|ls|] == Literal(rules[k].conditions[x], false) && !Holds(rules[k].conditions[x], r, conv);
    forall n | 0 <= n < |ls| ensures Holds(ls[n].c, r, conv) == ls[n].wanted {
      assert more[n] == ls[n];
    }
  }

  /** The spare character occurs in no condition, and the questions about mixed fields that these
      conditions can raise are answered. */
  ghost predicate Decidable(rules: seq<Rule>, env: Setting) {
    && (forall ls, f {:trigger env.mixed(ls, f)} | From(ls, AllConditions(rules)) && Mixed(ls, f) ::
          env.mixed(ls, f) <==> Fitting(ls, f, env.conv))
    && forall c | c in AllConditions(rules) :: env.spare !in c.expected
  }

  /** If each attribute is compared in one way throughout and no component as a number, there
      are no such questions. */
  lemma SeparateDecidable(rules: seq<Rule>, env: Setting)
    requires SeparateConditions(AllConditions(rules))
    requires forall c | c in AllConditions(rules) :: env.spare !in c.expected
    ensures Decidable(rules, env)
  {
    forall ls: seq<Literal>, f: Field | From(ls, AllConditions(rules)) && !f.Level?
      ensures !Mixed(ls, f)
    {
      if !Textual(ls, f) {
        var m :| 0 <= m < |ls| && ls[m].c.field == f && Numeric(ls[m].c.operator);
        assert ls[m].c in AllConditions(rules);
      }
    }
  }

  /** All literals are about conditions of such rules. */
  ghost predicate Applies(ls: seq<Literal>, rules: seq<Rule>, env: Setting) {
    From(ls, AllConditions(rules)) && Decidable(rules, env)
  }

  lemma DecidableFrom(ls: seq<Literal>, rules: seq<Rule>, env: Setting)
    requires From(ls, AllConditions(rules)) && Decidable(rules, env)
    ensures Spare(ls, env.spare) && Answers(env, ls)
  {
  }

  lemma NothingLeftToFail(ls: seq<Literal>, rules: seq<Rule>, i: nat, env: Setting)
    requires i <= |rules|
    requires Applies(ls, rules, env)
    ensures SomeRecord(ls, rules, i, i, env.conv) <==> Consistent(ls, env)
  {
    DecidableFrom(ls, rules, env);
    ConsistentIff(ls, env);
    if r :| Satisfies(r, ls, env.conv) {
      assert SatisfiesBut(r, ls, rules, i, i, env.conv);
    }
  }

  lemma AppliesFailing(ls: seq<Literal>, rules: seq<Rule>, k: nat, x: nat, env: Setting)
    requires k < |rules| && x < |rules[k].conditions|
    requires Applies(ls, rules, env)
    ensures Applies(Failing(ls, rules[k].conditions[x]), rules, env)
  {
    assert Failing(ls, rules[k].conditions[x])[..|ls|] == ls;
  }

  /** `consistent` tells whether the literals of these rules can hold together. */
  ghost predicate Tells(consistent: seq<Literal> -> bool, rules: seq<Rule>, i: nat, env: Setting)
    requires i <= |rules|
  {
    forall ls {:trigger consistent(ls)} | Applies(ls, rules, env) ::
      consistent(ls) <==> SomeRecord(ls, rules, i, i, env.conv)
  }

  /** A rule that does not match has a condition that fails. */
  lemma FailureFound(r: Record, ls: seq<Literal>, rules: seq<Rule>, k: nat, i: nat, conv: Conversions) returns (x: nat)
    requires k < i <= |rules| && SatisfiesBut(r, ls, rules, k, i, conv)
    ensures x < |rules[k].conditions|
    ensures SatisfiesBut(r, Failing(ls, rules[k].conditions[x]), rules, k + 1, i, conv)
  {
    x :| 0 <= x < |rules[k].conditions| && !Holds(rules[k].conditions[x], r, conv);
  }

  /** So the literals that the record satisfies are possible, */
  lemma {:induction false} RecordPossible(r: Record, ls: seq<Literal>, rules: seq<Rule>, k: nat, i: nat,
                                          conv: Conversions)
    requires k <= i <= |rules|
    requires SatisfiesBut(r, ls, rules, k, i, conv)
    ensures Possible(ls => Satisfies(r, ls, conv), ls, rules, k, i)
    decreases i - k
  {
    if k < i {
      var x := FailureFound(r, ls, rules, k, i, conv);
      RecordPossible(r, Failing(ls, rules[k].conditions[x]), rules, k + 1, i, conv);
    }
  }

  /** and remain so under a condition that is weaker on the lists the choice runs through. */
  lemma {:induction false} PossibleWeaker(met: seq<Literal> -> bool, strong: seq<Literal> -> bool,
                                          weak: seq<Literal> -> bool, ls: seq<Literal>, rules: seq<Rule>,
                                          k: nat, i: nat)
    requires k <= i <= |rules| && met(ls)
    requires forall ls, m, x {:trigger met(Failing(ls, rules[m].conditions[x]))} |
               met(ls) && 0 <= m < |rules| && 0 <= x < |rules[m].conditions| :: met(Failing(ls, rules[m].conditions[x]))
    requires forall ls | met(ls) && strong(ls) :: weak(ls)
    requires Possible(strong, ls, rules, k, i)
    ensures Possible(weak, ls, rules, k, i)
    decreases i - k
  {
    if k < i {
      var x :| 0 <= x < |rules[k].conditions| && Possible(strong, Failing(ls, rules[k].conditions[x]), rules, k + 1, i);
      PossibleWeaker(met, strong, weak, Failing(ls, rules[k].conditions[x]), rules, k + 1, i);
    }
  }

  lemma {:induction false} PossibleRecord(consistent: seq<Literal> -> bool, ls: seq<Literal>, rules: seq<Rule>,
                                          k: nat, i: nat, env: Setting) returns (r: Record)
    requires k <= i <= |rules|
    requires Applies(ls, rules, env) && Tells(consistent, rules, i, env)
    requires Possible(consistent, ls, rules, k, i)
    ensures SatisfiesBut(r, ls, rules, k, i, env.conv)
    decreases i - k
  {
    if k == i {
      r :| SatisfiesBut(r, ls, rules, i, i, env.conv);
    } else {
      var cs := rules[k].conditions;
      var x :| 0 <= x < |cs| && Possible(consistent, Failing(ls, cs[x]), rules, k + 1, i);
      AppliesFailing(ls, rules, k, x, env);
      r := PossibleRecord(consistent, Failing(ls, cs[x]), rules, k + 1, i, env);
      FailureDropped(r, ls, rules, k, i, x, env.conv);
    }
  }

  lemma ConsistentTells(rules: seq<Rule>, i: nat, env: Setting)
    requires i <= |rules|
    ensures Tells(ls => Consistent(ls, env), rules, i, env)
  {
    forall ls | Applies(ls, rules, env)
      ensures Consistent(ls, env) <==> SomeRecord(ls, rules, i, i, env.conv)
    {
      NothingLeftToFail(ls, rules, i, env);
    }
  }

  lemma MeetingPossible(r: Record, ls: seq<Literal>, rules: seq<Rule>, i: nat, env: Setting)
    requires i <= |rules| && SatisfiesBut(r, ls, rules, 0, i, env.conv)
    requires Applies(ls, rules, env)
    ensures Possible(ls => Consistent(ls, env), ls, rules, 0, i)
  {
    RecordPossible(r, ls, rules, 0, i, env.conv);
    forall ls | Applies(ls, rules, env) && Satisfies(r, ls, env.conv)
      ensures Consistent(ls, env)
    {
      NothingLeftToFail(ls, rules, i, env);
      assert SatisfiesBut(r, ls, rules, i, i, env.conv);
    }
    forall ls, m, x | Applies(ls, rules, env) && 0 <= m < |rules| && 0 <= x < |rules[m].conditions|
      ensures Applies(Failing(ls, rules[m].conditions[x]), rules, env)
    {
      AppliesFailing(ls, rules, m, x, env);
    }
    PossibleWeaker(ls => Applies(ls, rules, env), ls => Satisfies(r, ls, env.conv), ls => Consistent(ls, env),
                   ls, rules, 0, i);
  }

  /** Whether two rules meet is decided by their conditions and those of the rules before them.
      Whatever they compare, only fields compared both as a text and as a number leave a question
      about a single field to the setting. */
  lemma MeetDecided(rules: seq<Rule>, i: nat, j: nat, env: Setting)
    requires i < j < |rules| && Decidable(rules, env)
    ensures Meet(rules, i, j, env.conv) <==> CanMeet(rules, i, j, env)
  {
    var a, b := rules[i].conditions, rules[j].conditions;
    var ls := Wanted(a) + Wanted(b);
    forall n | 0 <= n < |ls| ensures ls[n].c in AllConditions(rules) {
      assert ls[n].c == if n < |a| then a[n] else b[n - |a|];
    }
    ConsistentTells(rules, i, env);
    if r :| MeetOn(rules, i, j, r, env.conv) {
      BothWanted(a, b, rules[i], rules[j], r, env.conv);
      assert SatisfiesBut(r, ls, rules, 0, i, env.conv);
      MeetingPossible(r, ls, rules, i, env);
    }
    if CanMeet(rules, i, j, env) {
      var r := PossibleRecord(ls => Consistent(ls, env), ls, rules, 0, i, env);
      BothWanted(a, b, rules[i], rules[j], r, env.conv);
      assert MeetOn(rules, i, j, r, env.conv);
    }
  }

  lemma BothWanted(a: seq<Condition>, b: seq<Condition>, first: Rule, second: Rule, r: Record, conv: Conversions)
    requires a == first.conditions && b == second.conditions
    ensures Satisfies(r, Wanted(a) + Wanted(b), conv) <==> Matches(first, r, conv) && Matches(second, r, conv)
  {
    var ls := Wanted(a) + Wanted(b);
    assert forall n | 0 <= n < |a| :: ls[n] == Literal(a[n], true);
    assert forall n | 0 <= n < |b| :: ls[|a| + n] == Literal(b[n], true);
  }

  /** So the promise of the comment is a property of the rule list: no rule can meet a later one
      of higher priority. */
  lemma PriorityOrderDecided(rules: seq<Rule>, env: Setting)
    requires Decidable(rules, env)
    ensures (forall r :: HighestPriorityUsed(rules, r, env.conv))
       <==> (forall i: nat, j: nat | Misplaced(rules, i, j) :: !CanMeet(rules, i, j, env))
  {
    PriorityOrderIff(rules, env.conv);
    forall i: nat, j: nat | Misplaced(rules, i, j)
      ensures Meet(rules, i, j, env.conv) <==> CanMeet(rules, i, j, env)
    {
      MeetDecided(rules, i, j, env);
    }
  }

  /** Rules for different levels never meet, so their order does not matter. */
  lemma ExclusiveLevelsInAnyOrder(conv: Conversions, p: int, q: int)
    ensures var rules := [Rule([Condition(Level, Eq, "WARN", None)], 1.0, p, true),
                          Rule([Condition(Level, Eq, "ERROR", None)], 1.0, q, true)];
            forall r :: HighestPriorityUsed(rules, r, conv)
  {
    var rules := [Rule([Condition(Level, Eq, "WARN", None)], 1.0, p, true),
                  Rule([Condition(Level, Eq, "ERROR", None)], 1.0, q, true)];
    PriorityOrderIff(rules, conv);
    forall i: nat, j: nat | Misplaced(rules, i, j)
      ensures !Meet(rules, i, j, conv)
    {
      assert rules[0].conditions[0].expected[0] == 'W' && rules[1].conditions[0].expected[0] == 'E';
      forall r ensures !MeetOn(rules, i, j, r, conv) {
        assert Holds(rules[0].conditions[0], r, conv) ==> LevelText(r.level) == "WARN";
        assert Holds(rules[1].conditions[0], r, conv) ==> LevelText(r.level) == "ERROR";
      }
    }
  }

  lemma OnlyFivePrintsFive(n: int)
    ensures IntText(n) == "5" <==> n == 5
  {
    if n < 0 {
      assert IntText(n)[0] == '-';
    } else if n >= 10 {
      assert |Digits(n / 10)| >= 1;
    } else {
      assert IntText(n)[0] == ('0' as int + n) as char;
    }
  }

  /** Nor do these two, on one attribute, if the library takes "5" for a five: the text and the
      number compared belong to the same value. */
  lemma OneValueInAnyOrder(name: string, conv: Conversions, p: int, q: int)
    requires conv.parse("5") == Some(5.0) && forall x, single | conv.show(x, single) == "5" :: x == 5.0
    ensures var rules := [Rule([Condition(Attr(name), Eq, "5", Some(5.0))], 1.0, p, true),
                          Rule([Condition(Attr(name), Gt, "1000", Some(1000.0))], 1.0, q, true)];
            forall r :: HighestPriorityUsed(rules, r, conv)
  {
    var rules := [Rule([Condition(Attr(name), Eq, "5", Some(5.0))], 1.0, p, true),
                  Rule([Condition(Attr(name), Gt, "1000", Some(1000.0))], 1.0, q, true)];
    PriorityOrderIff(rules, conv);
    forall r | Holds(rules[0].conditions[0], r, conv)
      ensures !Holds(rules[1].conditions[0], r, conv)
    {
      var v := FieldValue(r, Attr(name));
      assert Shown(v, conv) == "5";
      if v.Int64? || v.OtherInt? {
        OnlyFivePrintsFive(v.n);
      }
    }
    forall i: nat, j: nat | Misplaced(rules, i, j)
      ensures !Meet(rules, i, j, conv)
    {
      forall r ensures !MeetOn(rules, i, j, r, conv) {
        assert !Holds(rules[0].conditions[0], r, conv) || !Holds(rules[1].conditions[0], r, conv);
      }
    }
  }
}
