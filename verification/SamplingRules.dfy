/**
  The rules of the priority strategy: conditions on a log record, tried in list order.  The
  source's comment promises that the rule of highest priority is used.  Here that promise is
  reduced to a question about pairs of rules, and the question to one about the conditions
  alone.
 */
module SamplingRules {
  import opened Options

  type int64 = x: int | -0x8000_0000_0000_0000 <= x < 0x8000_0000_0000_0000 witness 0

  datatype Field = Level | Component | Attr(name: string)

  /** An operator text that the source does not list compares as false. */
  datatype Operator = Eq | Ne | Contains | Gt | Lt | Gte | Lte | Unknown(text: string)

  /** `expected` is what %v prints for the condition's value, `number` what toFloat64 makes of
      it. */
  datatype Condition = Condition(field: Field, operator: Operator, expected: string, number: Option<real>)

  datatype Rule = Rule(conditions: seq<Condition>, sampleRate: real, priority: int, alwaysSample: bool)

  /** An attribute: an int64, an int or int32, a float64 or (`single`) float32, a string, or a
      value that toFloat64 takes for no number, of which only what %v prints matters. */
  datatype Value =
    | Int64(n: int64)
    | OtherInt(n: int64)
    | Float(x: real, single: bool)
    | Text(s: string)
    | Plain(shown: string)

  /** What the library makes of a text, strconv.ParseFloat, and of a number, %v. */
  datatype Conversions = Conversions(parse: string -> Option<real>, show: (real, bool) -> string)

  datatype Record = Record(level: int64, component: string, attrs: map<string, Value>)

  // ---------------------------------------------------------------------------
  // Evaluating a condition
  // ---------------------------------------------------------------------------

  function Digits(n: nat): string {
    if n < 10 then [('0' as int + n) as char] else Digits(n / 10) + [('0' as int + n % 10) as char]
  }

  function IntText(n: int): string { if n < 0 then "-" + Digits(-n) else Digits(n) }

  /** slog.Level.String: the nearest named level below, with the distance. */
  function LevelText(level: int64): string {
    if level < 0 then Offset("DEBUG", level + 4)
    else if level < 4 then Offset("INFO", level)
    else if level < 8 then Offset("WARN", level - 4)
    else Offset("ERROR", level - 8)
  }

  function Offset(base: string, n: int): string {
    if n == 0 then base else base + (if n > 0 then "+" else "") + IntText(n)
  }

  /** %v */
  function Shown(v: Value, conv: Conversions): string {
    match v
    case Int64(n) => IntText(n)
    case OtherInt(n) => IntText(n)
    case Float(x, single) => conv.show(x, single)
    case Text(s) => s
    case Plain(shown) => shown
  }

  /** toFloat64 */
  function NumberOf(v: Value, conv: Conversions): Option<real> {
    match v
    case Int64(n) => Some(n as real)
    case OtherInt(n) => Some(n as real)
    case Float(x, _) => Some(x)
    case Text(s) => conv.parse(s)
    case Plain(_) => None
  }

  /** The value a condition looks at; a missing attribute is nil. */
  function FieldValue(r: Record, f: Field): Value {
    match f
    case Level => Text(LevelText(r.level))
    case Component => Text(r.component)
    case Attr(name) => if name in r.attrs then r.attrs[name] else Plain("<nil>")
  }

  // ---------------------------------------------------------------------------
  // What texts and operators mean
  // ---------------------------------------------------------------------------

  /** The number a string of digits stands for. */
  function Decimal(s: string): nat {
    if s == [] then 0
    else Decimal(s[..|s| - 1]) * 10 + if '0' <= s[|s| - 1] <= '9' then s[|s| - 1] as int - '0' as int else 0
  }

  lemma {:induction false} DigitsAreDecimal(n: nat)
    ensures Digits(n) != [] && Decimal(Digits(n)) == n
    ensures forall k | 0 <= k < |Digits(n)| :: '0' <= Digits(n)[k] <= '9'
    ensures n > 0 ==> Digits(n)[0] != '0'
  {
    var last := ('0' as int + n % 10) as char;
    if n < 10 {
      assert Digits(n) == [last] && [last][..0] == [];
    } else {
      DigitsAreDecimal(n / 10);
      assert (Digits(n / 10) + [last])[..|Digits(n / 10)|] == Digits(n / 10);
    }
  }

  lemma SignShows(n: int)
    ensures IntText(n) != [] && (IntText(n)[0] == '-' <==> n < 0)
    ensures n < 0 ==> IntText(n)[1..] == Digits(-n)
  {
    DigitsAreDecimal(if n < 0 then -n else n);
  }

  lemma IntTextInjective(m: int, n: int)
    requires IntText(m) == IntText(n)
    ensures m == n
  {
    SignShows(m);
    SignShows(n);
    DigitsAreDecimal(if m < 0 then -m else m);
    DigitsAreDecimal(if n < 0 then -n else n);
  }

  lemma OffsetInjective(base: string, m: int, n: int)
    requires Offset(base, m) == Offset(base, n)
    ensures m == n
  {
    SignShows(m);
    SignShows(n);
    var a, b := Offset(base, m)[|base|..], Offset(base, n)[|base|..];
    OffsetTail(base, m);
    OffsetTail(base, n);
    if m > 0 && n > 0 {
      assert a[1..] == IntText(m) && b[1..] == IntText(n);
      IntTextInjective(m, n);
    } else if m < 0 && n < 0 {
      IntTextInjective(m, n);
    }
  }

  lemma OffsetTail(base: string, n: int)
    ensures |Offset(base, n)| >= |base|
    ensures Offset(base, n)[|base|..] == if n == 0 then "" else if n > 0 then "+" + IntText(n) else IntText(n)
  {
    if n > 0 {
      assert base + "+" + IntText(n) == base + ("+" + IntText(n));
    } else if n < 0 {
      assert base + "" + IntText(n) == base + IntText(n);
    }
  }

  /** The four named levels, and two between them. */
  lemma LevelNames()
    ensures LevelText(-4) == "DEBUG" && LevelText(0) == "INFO" && LevelText(4) == "WARN" && LevelText(8) == "ERROR"
    ensures LevelText(-6) == "DEBUG-2" && LevelText(2) == "INFO+2"
  {
    assert Digits(2) == "2" && IntText(-2) == "-2" && IntText(2) == "2";
    assert "DEBUG" + "" + "-2" == "DEBUG-2" && "INFO" + "+" + "2" == "INFO+2";
  }

  /** The name is that of the next level below, debug reaching down to the lowest, and no two
      levels have one text. */
  lemma LevelTextInjective(k: int64, l: int64)
    ensures LevelText(k) != [] && LevelText(l) != []
    ensures LevelText(k)[0] == if k < 0 then 'D' else if k < 4 then 'I' else if k < 8 then 'W' else 'E'
    ensures LevelText(k) == LevelText(l) ==> k == l
  {
    assert LevelText(l)[0] == if l < 0 then 'D' else if l < 4 then 'I' else if l < 8 then 'W' else 'E';
    if LevelText(k) == LevelText(l) {
      if k < 0 { OffsetInjective("DEBUG", k + 4, l + 4); }
      else if k < 4 { OffsetInjective("INFO", k, l); }
      else if k < 8 { OffsetInjective("WARN", k - 4, l - 4); }
      else { OffsetInjective("ERROR", k - 8, l - 8); }
    }
  }

  /** The number a value is compared as is the one its text reads as, provided the library reads
      back what it prints; only values that are no number have none. */
  lemma TextAndNumberAgree(v: Value, conv: Conversions)
    requires forall n: int64 :: conv.parse(IntText(n)) == Some(n as real)
    requires forall x, single :: conv.parse(conv.show(x, single)) == Some(x)
    ensures NumberOf(v, conv) == if v.Plain? then None else conv.parse(Shown(v, conv))
  {
  }

  /** A missing attribute equals the text <nil> and no number. */
  lemma MissingAttribute(r: Record, name: string, c: Condition, conv: Conversions)
    requires name !in r.attrs && c.field == Attr(name)
    ensures c.operator.Eq? ==> (Holds(c, r, conv) <==> c.expected == "<nil>")
    ensures c.operator.Gt? || c.operator.Lt? || c.operator.Gte? || c.operator.Lte? ==> !Holds(c, r, conv)
  {
  }

  /** The number comparisons are those of the numbers, and without a number on both sides none of
      them holds. */
  lemma NumbersCompare(c: Condition, text: string, number: Option<real>)
    ensures var op := (o: Operator) => Compare(c.(operator := o), text, number);
            if number.Some? && c.number.Some? then
              && (op(Gte) <==> !op(Lt)) && (op(Lte) <==> !op(Gt))
              && (op(Gte) && op(Lte) <==> number == c.number)
              && (op(Gt) <==> number.value - c.number.value > 0.0)
            else !op(Gt) && !op(Gte) && !op(Lt) && !op(Lte)
  {
  }

  /** The others compare the texts. */
  lemma TextsCompare(c: Condition, text: string, number: Option<real>)
    ensures Compare(c.(operator := Eq), text, number) <==> text == c.expected
    ensures Compare(c.(operator := Ne), text, number) <==> text != c.expected
    ensures Compare(c.(operator := Contains), text, number)
       <==> exists before, after :: text == before + c.expected + after
  {
    IncludesIff(text, c.expected);
  }

  lemma IncludesIff(s: string, t: string)
    ensures Includes(s, t) <==> exists before, after :: s == before + t + after
  {
    if i :| 0 <= i <= |s| && t <= s[i..] {
      assert s == s[..i] + t + s[i + |t|..];
    }
    if before, after :| s == before + t + after {
      assert s[|before|..] == t + after;
    }
  }

  /** strings.Contains */
  predicate Includes(s: string, t: string) {
    exists i :: 0 <= i <= |s| && t <= s[i..]
  }

  /** compareValues */
  predicate Compare(c: Condition, text: string, number: Option<real>) {
    match c.operator
    case Eq => text == c.expected
    case Ne => text != c.expected
    case Contains => Includes(text, c.expected)
    case Gt => number.Some? && c.number.Some? && number.value > c.number.value
    case Lt => number.Some? && c.number.Some? && number.value < c.number.value
    case Gte => number.Some? && c.number.Some? && number.value >= c.number.value
    case Lte => number.Some? && c.number.Some? && number.value <= c.number.value
    case Unknown(_) => false
  }

  predicate Holds(c: Condition, r: Record, conv: Conversions) {
    var v := FieldValue(r, c.field);
    Compare(c, Shown(v, conv), NumberOf(v, conv))
  }

  predicate Matches(rule: Rule, r: Record, conv: Conversions) {
    forall i | 0 <= i < |rule.conditions| :: Holds(rule.conditions[i], r, conv)
  }

  function FirstThat(rules: seq<Rule>, matches: Rule -> bool): (i: nat)
    ensures i <= |rules|
    ensures forall k | 0 <= k < i :: !matches(rules[k])
    ensures i < |rules| ==> matches(rules[i])
  {
    if rules == [] || matches(rules[0]) then 0 else 1 + FirstThat(rules[1..], matches)
  }

  /** The first rule in list order that matches, or the length. */
  function FirstMatch(rules: seq<Rule>, r: Record, conv: Conversions): (i: nat)
    ensures i <= |rules|
    ensures forall k | 0 <= k < i :: !Matches(rules[k], r, conv)
    ensures i < |rules| ==> Matches(rules[i], r, conv)
  {
    FirstThat(rules, rule => Matches(rule, r, conv))
  }

  // ---------------------------------------------------------------------------
  // Which rule is used
  // ---------------------------------------------------------------------------

  /** The rule used has the highest priority among those that match. */
  ghost predicate HighestPriorityUsed(rules: seq<Rule>, r: Record, conv: Conversions) {
    var i := FirstMatch(rules, r, conv);
    forall k | 0 <= k < |rules| && Matches(rules[k], r, conv) :: rules[k].priority <= rules[i].priority
  }

  /** A record that both rules match, and none before the first of them. */
  ghost predicate MeetOn(rules: seq<Rule>, i: nat, j: nat, r: Record, conv: Conversions)
    requires i < j < |rules|
  {
    Matches(rules[i], r, conv) && Matches(rules[j], r, conv) && forall k | 0 <= k < i :: !Matches(rules[k], r, conv)
  }

  ghost predicate Meet(rules: seq<Rule>, i: nat, j: nat, conv: Conversions)
    requires i < j < |rules|
  {
    exists r :: MeetOn(rules, i, j, r, conv)
  }

  predicate Misplaced(rules: seq<Rule>, i: nat, j: nat) {
    i < j < |rules| && rules[j].priority > rules[i].priority
  }

  lemma MeetingMisorders(rules: seq<Rule>, i: nat, j: nat, r: Record, conv: Conversions)
    requires Misplaced(rules, i, j) && MeetOn(rules, i, j, r, conv)
    ensures FirstMatch(rules, r, conv) == i && !HighestPriorityUsed(rules, r, conv)
  {
    assert FirstMatch(rules, r, conv) == i;
  }

  lemma MisorderedMeets(rules: seq<Rule>, r: Record, conv: Conversions) returns (i: nat, j: nat)
    requires !HighestPriorityUsed(rules, r, conv)
    ensures Misplaced(rules, i, j) && MeetOn(rules, i, j, r, conv)
  {
    i := FirstMatch(rules, r, conv);
    j :| 0 <= j < |rules| && Matches(rules[j], r, conv) && rules[j].priority > rules[i].priority;
  }

  /** The promise holds on every record exactly when no rule meets a later rule of higher
      priority. */
  lemma PriorityOrderIff(rules: seq<Rule>, conv: Conversions)
    ensures (forall r :: HighestPriorityUsed(rules, r, conv))
       <==> (forall i: nat, j: nat | Misplaced(rules, i, j) :: !Meet(rules, i, j, conv))
  {
    if i: nat, j: nat :| Misplaced(rules, i, j) && Meet(rules, i, j, conv) {
      var r :| MeetOn(rules, i, j, r, conv);
      MeetingMisorders(rules, i, j, r, conv);
    } else if r :| !HighestPriorityUsed(rules, r, conv) {
      var i, j := MisorderedMeets(rules, r, conv);
      assert Meet(rules, i, j, conv);
    }
  }

  /** The rules of the default configuration. */
  function DefaultRules(): seq<Rule> {
    [Rule([Condition(Level, Eq, "ERROR", None)], 0.0, 1, true),
     Rule([Condition(Attr("duration_ms"), Gt, "1000", Some(1000.0))], 0.5, 2, false)]
  }

  /** An error that took longer than a second matches both of them and is treated by the one of
      lower priority. */
  lemma DefaultRulesMisordered(component: string, duration: int64, conv: Conversions)
    requires duration > 1000
    ensures var r := Record(8, component, map["duration_ms" := Int64(duration)]);
            FirstMatch(DefaultRules(), r, conv) == 0 && !HighestPriorityUsed(DefaultRules(), r, conv)
  {
    var r := Record(8, component, map["duration_ms" := Int64(duration)]);
    assert LevelText(8) == "ERROR";
    assert Matches(DefaultRules()[0], r, conv) && Matches(DefaultRules()[1], r, conv);
  }
}
