/**
  The traceparent header of W3C Trace Context (section 3.2.2): two parsers and two printers.
  Strings are sequences of one-byte characters.
 */
module TraceParent {
  import opened Options

  datatype Result<+T> = Success(value: T) | Failure(message: string)

  datatype TraceContext = TraceContext(traceID: string, spanID: string, sampled: bool)

  // ---------------------------------------------------------------------------
  // Library functions used by the source
  // ---------------------------------------------------------------------------

  /** strings.Split(s, "-") */
  function Split(s: string): (parts: seq<string>)
    ensures parts != []
  {
    if s == "" then [""]
    else
      var rest := Split(s[1..]);
      if s[0] == '-' then [""] + rest else [[s[0]] + rest[0]] + rest[1..]
  }

  function Join(parts: seq<string>): string
    requires parts != []
  {
    if |parts| == 1 then parts[0] else parts[0] + "-" + Join(parts[1..])
  }

  predicate DashFree(s: string) { '-' !in s }

  predicate IsHexDigit(c: char) { '0' <= c <= '9' || 'a' <= c <= 'f' || 'A' <= c <= 'F' }

  function DigitValue(c: char): (d: nat)
    requires IsHexDigit(c)
    ensures d < 16 && (d == 0 <==> c == '0')
  {
    if '0' <= c <= '9' then c as int - '0' as int
    else if 'a' <= c <= 'f' then c as int - 'a' as int + 10
    else c as int - 'A' as int + 10
  }

  predicate IsHex(s: string) { forall i | 0 <= i < |s| :: IsHexDigit(s[i]) }

  function HexValue(s: string): nat
    requires IsHex(s)
  {
    if s == "" then 0 else HexValue(s[..|s| - 1]) * 16 + DigitValue(s[|s| - 1])
  }

  /** strconv.ParseUint(s, 16, 64) returns no error. */
  predicate IsUint64(s: string) { s != "" && IsHex(s) && HexValue(s) < 0x1_0000_0000_0000_0000 }

  /** strconv.ParseInt(s, 16, 8): an optional sign, hex digits, and the range of int8. */
  function ParseInt8(s: string): Option<int> {
    var digits := if s != "" && (s[0] == '+' || s[0] == '-') then s[1..] else s;
    if digits == "" || !IsHex(digits) then None
    else
      var v: int := HexValue(digits);
      var n := if s[0] == '-' then -v else v;
      if -128 <= n <= 127 then Some(n) else None
  }

  function Zeros(n: nat): string { seq(n, _ => '0') }

  // ---------------------------------------------------------------------------
  // The four functions of the source
  // ---------------------------------------------------------------------------

  function Flags(sampled: bool): string { if sampled then "01" else "00" }

  function FormatTraceParent(c: TraceContext): string {
    "00-" + c.traceID + "-" + c.spanID + "-" + Flags(c.sampled)
  }

  function ParseTraceParent(header: string): TraceContext {
    if |header| < 55 || header[0..3] != "00-" then TraceContext("", "", false)
    else TraceContext(header[3..35], header[36..52], header[53..55] == "01")
  }

  function FormatTraceParentAdvanced(c: TraceContext): Result<string> {
    if |c.traceID| != 32 then Failure("invalid trace ID length")
    else if |c.spanID| != 16 then Failure("invalid span ID length")
    else if !IsUint64(c.traceID) then Failure("invalid trace ID format")
    else if !IsUint64(c.spanID) then Failure("invalid span ID format")
    else Success("00-" + c.traceID + "-" + c.spanID + "-" + Flags(c.sampled))
  }

  function ParseTraceParentAdvanced(header: string): Option<TraceContext> {
    if |header| != 55 then None
    else
      var parts := Split(header);
      if |parts| != 4 then None
      else if parts[0] != "00" then None
      else if |parts[1]| != 32 || parts[1] == Zeros(32) then None
      else if |parts[2]| != 16 || parts[2] == Zeros(16) then None
      else if |parts[3]| != 2 then None
      else
        var sampled := match ParseInt8(parts[3]) case Some(n) => n % 2 == 1 case None => false;
        Some(TraceContext(parts[1], parts[2], sampled))
  }

  // ---------------------------------------------------------------------------
  // Splitting
  // ---------------------------------------------------------------------------

  lemma JoinAfterDash(rest: seq<string>)
    requires rest != []
    ensures Join([""] + rest) == "-" + Join(rest)
  {
    assert ([""] + rest)[1..] == rest;
  }

  lemma JoinLonger(c: char, rest: seq<string>)
    requires rest != []
    ensures Join([[c] + rest[0]] + rest[1..]) == [c] + Join(rest)
  {
    var longer := [[c] + rest[0]] + rest[1..];
    assert longer[1..] == rest[1..];
    if |rest| > 1 {
      assert [c] + rest[0] + "-" + Join(rest[1..]) == [c] + (rest[0] + "-" + Join(rest[1..]));
    }
  }

  predicate AllDashFree(parts: seq<string>) { forall i | 0 <= i < |parts| :: DashFree(parts[i]) }

  lemma DashFreeLonger(c: char, rest: seq<string>)
    requires rest != [] && AllDashFree(rest) && c != '-'
    ensures AllDashFree([[c] + rest[0]] + rest[1..])
  {
    assert DashFree(rest[0]);
  }

  /** The parts of a split contain no separator and join back to the string. */
  lemma {:induction false} SplitJoins(s: string)
    ensures Join(Split(s)) == s && AllDashFree(Split(s))
  {
    if s != "" {
      var rest := Split(s[1..]);
      SplitJoins(s[1..]);
      if s[0] == '-' {
        JoinAfterDash(rest);
      } else {
        JoinLonger(s[0], rest);
        DashFreeLonger(s[0], rest);
      }
      assert s == [s[0]] + s[1..];
    }
  }

  lemma {:induction false} SplitFirst(a: string, rest: string)
    requires DashFree(a)
    ensures Split(a + "-" + rest) == [a] + Split(rest)
  {
    if a == "" {
      assert (a + "-" + rest)[1..] == rest;
    } else {
      SplitFirst(a[1..], rest);
      assert (a + "-" + rest)[1..] == a[1..] + "-" + rest;
      assert [a[0]] + a[1..] == a;
    }
  }

  lemma {:induction false} SplitLast(a: string)
    requires DashFree(a)
    ensures Split(a) == [a]
  {
    if a != "" {
      SplitLast(a[1..]);
      assert [a[0]] + a[1..] == a;
    }
  }

  function Header(a: string, t: string, s: string, f: string): string { a + "-" + t + "-" + s + "-" + f }

  lemma HeaderNests(a: string, t: string, s: string, f: string)
    ensures Header(a, t, s, f) == a + "-" + (t + "-" + (s + "-" + f))
  {
  }

  lemma SplitHeader(a: string, t: string, s: string, f: string)
    requires DashFree(a) && DashFree(t) && DashFree(s) && DashFree(f)
    ensures Split(Header(a, t, s, f)) == [a, t, s, f]
  {
    HeaderNests(a, t, s, f);
    SplitFirst(a, t + "-" + (s + "-" + f));
    SplitFirst(t, s + "-" + f);
    SplitFirst(s, f);
    SplitLast(f);
  }

  lemma JoinFour(parts: seq<string>)
    requires |parts| == 4
    ensures Join(parts) == Header(parts[0], parts[1], parts[2], parts[3])
  {
    assert Join(parts[1..][1..][1..]) == parts[3];
    assert Join(parts[1..][1..]) == parts[2] + "-" + parts[3];
    assert Join(parts[1..]) == parts[1] + "-" + (parts[2] + "-" + parts[3]);
  }

  // ---------------------------------------------------------------------------
  // Hexadecimal values
  // ---------------------------------------------------------------------------

  /** The hexadecimal digits in order, in either case. */
  lemma DigitsInOrder(c: char)
    ensures IsHexDigit(c) <==> c in "0123456789abcdef" || c in "0123456789ABCDEF"
    ensures forall i | 0 <= i < 16 :: IsHexDigit("0123456789abcdef"[i]) && DigitValue("0123456789abcdef"[i]) == i
    ensures forall i | 0 <= i < 16 :: IsHexDigit("0123456789ABCDEF"[i]) && DigitValue("0123456789ABCDEF"[i]) == i
  {
    if IsHexDigit(c) {
      var d := DigitValue(c);
      assert c == "0123456789abcdef"[d] || c == "0123456789ABCDEF"[d];
    }
  }

  function Pow16(n: nat): nat { if n == 0 then 1 else 16 * Pow16(n - 1) }

  lemma {:induction false} HexBound(s: string)
    requires IsHex(s)
    ensures HexValue(s) < Pow16(|s|)
    ensures HexValue(s) == 0 <==> s == Zeros(|s|)
  {
    if s != "" {
      var n := |s| - 1;
      HexBound(s[..n]);
      assert s == Zeros(n + 1) <==> s[..n] == Zeros(n) && s[n] == '0';
    }
  }

  /** The value is at least 16^k exactly when some digit above the last k is non-zero. */
  lemma {:induction false} HexSmall(s: string, k: nat)
    requires IsHex(s) && k <= |s|
    ensures HexValue(s) < Pow16(k) <==> s[..|s| - k] == Zeros(|s| - k)
  {
    if k == 0 {
      HexBound(s);
      assert s[..|s|] == s;
    } else {
      var n := |s| - 1;
      HexSmall(s[..n], k - 1);
      assert s[..n][..n - (k - 1)] == s[..|s| - k];
    }
  }

  lemma Pow16Of16()
    ensures Pow16(16) == 0x1_0000_0000_0000_0000
  {
    assert Pow16(4) == 0x1_0000;
    assert Pow16(8) == 0x1_0000_0000;
    assert Pow16(12) == 0x1_0000_0000_0000;
  }

  // ---------------------------------------------------------------------------
  // Results
  // ---------------------------------------------------------------------------

  lemma Middle(a: string, b: string, c: string)
    ensures (a + b + c)[|a|..|a| + |b|] == b
  {
  }

  /** Where the parts of a printed header stand. */
  lemma PrintedParts(c: TraceContext)
    requires |c.traceID| == 32 && |c.spanID| == 16
    ensures var h := FormatTraceParent(c);
            && |h| == 55 && h[0..3] == "00-"
            && h[3..35] == c.traceID && h[36..52] == c.spanID && h[53..55] == Flags(c.sampled)
  {
    var f, h := Flags(c.sampled), FormatTraceParent(c);
    Middle("00-", c.traceID, "-" + c.spanID + "-" + f);
    assert h == "00-" + c.traceID + ("-" + c.spanID + "-" + f);
    Middle("00-" + c.traceID + "-", c.spanID, "-" + f);
    assert h == "00-" + c.traceID + "-" + c.spanID + ("-" + f);
    Middle("00-" + c.traceID + "-" + c.spanID + "-", f, "");
    assert h == "00-" + c.traceID + "-" + c.spanID + "-" + f + "";
  }

  /** Printing then parsing gives the ids back for any ids of the right lengths. */
  lemma ParseInvertsFormat(c: TraceContext)
    requires |c.traceID| == 32 && |c.spanID| == 16
    ensures ParseTraceParent(FormatTraceParent(c)) == c
  {
    PrintedParts(c);
  }

  lemma Recompose(h: string)
    requires |h| == 55
    ensures h == h[0..3] + h[3..35] + [h[35]] + h[36..52] + [h[52]] + h[53..]
    ensures h[53..55] == h[53..]
  {
    assert h[0..3] + h[3..35] == h[..35];
    assert h[..35] + [h[35]] == h[..36];
    assert h[..36] + h[36..52] == h[..52];
    assert h[..52] + [h[52]] == h[..53];
    assert h[..53] + h[53..] == h;
  }

  lemma EmptyPrint()
    ensures FormatTraceParent(TraceContext("", "", false)) == "00---00"
  {
    assert "00-" + "" + "-" == "00--";
    assert "00--" + "" + "-" == "00---";
    assert "00---" + "00" == "00---00";
  }

  lemma ShortPrintParts(c: TraceContext)
    requires |c.traceID| == 32 && |c.spanID| == 16
    ensures var p := FormatTraceParent(c);
            |p| == 55 && p[..3] == "00-" && p[35] == '-' && p[52] == '-' && p[53..] == Flags(c.sampled)
  {
  }

  /** Parsing then printing gives the header back exactly for 55-character version-00 headers
      with dashes at the two inner offsets and flags 00 or 01; and for the one short header
      that is the print of the empty context a failed parse returns. */
  lemma FormatInvertsParse(h: string)
    ensures FormatTraceParent(ParseTraceParent(h)) == h
       <==> (|h| == 55 && h[..3] == "00-" && h[35] == '-' && h[52] == '-' && (h[53..] == "00" || h[53..] == "01"))
            || h == "00---00"
  {
    var c := ParseTraceParent(h);
    var p := FormatTraceParent(c);
    if |h| >= 55 && h[0..3] == "00-" {
      ShortPrintParts(c);
      if |h| == 55 && h[35] == '-' && h[52] == '-' && (h[53..] == "00" || h[53..] == "01") {
        Recompose(h);
      }
    } else {
      EmptyPrint();
    }
  }

  /** The advanced printer succeeds exactly on hex ids of the right lengths whose trace id has
      a zero upper half: strconv.ParseUint is asked for 64 bits of a 128-bit id. */
  lemma AdvancedFormatSucceedsIff(c: TraceContext)
    ensures FormatTraceParentAdvanced(c).Success?
       <==> && |c.traceID| == 32 && IsHex(c.traceID) && c.traceID[..16] == Zeros(16)
            && |c.spanID| == 16 && IsHex(c.spanID)
  {
    Pow16Of16();
    if |c.traceID| == 32 && IsHex(c.traceID) {
      HexSmall(c.traceID, 16);
    }
    if |c.spanID| == 16 && IsHex(c.spanID) {
      HexBound(c.spanID);
    }
  }

  /** And its message names the first thing wrong. */
  lemma AdvancedFormatBlames(c: TraceContext, message: string)
    requires FormatTraceParentAdvanced(c) == Failure(message)
    ensures |c.traceID| != 32 <==> message == "invalid trace ID length"
    ensures |c.traceID| == 32 && |c.spanID| != 16 <==> message == "invalid span ID length"
    ensures message == "invalid trace ID format"
       <==> |c.traceID| == 32 && |c.spanID| == 16 && !(IsHex(c.traceID) && c.traceID[..16] == Zeros(16))
    ensures message == "invalid span ID format"
       <==> && |c.traceID| == 32 && |c.spanID| == 16 && IsHex(c.traceID) && c.traceID[..16] == Zeros(16)
            && !IsHex(c.spanID)
  {
    MessagesDiffer();
    Pow16Of16();
    if |c.traceID| == 32 && IsHex(c.traceID) {
      HexSmall(c.traceID, 16);
    }
    if |c.spanID| == 16 && IsHex(c.spanID) {
      HexBound(c.spanID);
    }
  }

  lemma MessagesDiffer()
    ensures "invalid trace ID length" != "invalid trace ID format"
    ensures "invalid span ID length" != "invalid span ID format"
  {
    assert "invalid trace ID length"[17] == 'l' && "invalid trace ID format"[17] == 'f';
    assert "invalid span ID length"[16] == 'l' && "invalid span ID format"[16] == 'f';
  }

  /** What the advanced parser accepts: the split parts sit at fixed offsets. */
  predicate WellShaped(h: string) {
    && |h| == 55 && h[..3] == "00-" && h[35] == '-' && h[52] == '-'
    && DashFree(h[3..35]) && DashFree(h[36..52]) && DashFree(h[53..])
    && h[3..35] != Zeros(32) && h[36..52] != Zeros(16)
  }

  lemma WellShapedSplits(h: string)
    requires WellShaped(h)
    ensures Split(h) == ["00", h[3..35], h[36..52], h[53..]]
  {
    assert h == Header("00", h[3..35], h[36..52], h[53..]) by {
      Recompose(h);
      assert h[0..3] == h[..3];
      assert h[..3] == "00" + "-";
    }
    SplitHeader("00", h[3..35], h[36..52], h[53..]);
  }

  lemma AdvancedAcceptsIff(h: string)
    ensures ParseTraceParentAdvanced(h).Some? <==> WellShaped(h)
    ensures WellShaped(h) ==> var c := ParseTraceParentAdvanced(h).value;
                              c.traceID == h[3..35] && c.spanID == h[36..52]
  {
    if WellShaped(h) {
      WellShapedSplits(h);
    }
    if ParseTraceParentAdvanced(h).Some? {
      var p := Split(h);
      SplitJoins(h);
      JoinFour(p);
      assert h == Header(p[0], p[1], p[2], p[3]);
      assert h[..3] == "00-" && h[3..35] == p[1] && h[36..52] == p[2] && h[53..] == p[3];
      assert DashFree(p[1]) && DashFree(p[2]) && DashFree(p[3]);
    }
  }

  /** When the advanced printer succeeds, the advanced parser gives the context back exactly
      if neither id is all zero. */
  lemma AdvancedRoundTrip(c: TraceContext)
    requires FormatTraceParentAdvanced(c).Success?
    ensures ParseTraceParentAdvanced(FormatTraceParentAdvanced(c).value)
            == if c.traceID == Zeros(32) || c.spanID == Zeros(16) then None else Some(c)
  {
    var f := Flags(c.sampled);
    var h := FormatTraceParentAdvanced(c).value;
    assert h == Header("00", c.traceID, c.spanID, f);
    HexIsDashFree(c.traceID);
    HexIsDashFree(c.spanID);
    SplitHeader("00", c.traceID, c.spanID, f);
    assert f[..1] == "0" && f[..1][..0] == "";
    assert HexValue("") == 0 && HexValue(f[..1]) == 0;
    assert ParseInt8(f) == Some(if c.sampled then 1 else 0);
  }

  lemma HexIsDashFree(s: string)
    requires IsHex(s)
    ensures DashFree(s)
  {
    assert !IsHexDigit('-');
  }

  /** What the advanced parser takes for a set flag: a hexadecimal field with bit 0 set and bit
      7 clear, or a plus sign before an odd digit. */
  predicate SampledFlags(f: string)
    requires |f| == 2
  {
    if f[0] == '+' then IsHexDigit(f[1]) && DigitValue(f[1]) % 2 == 1
    else IsHex(f) && HexValue(f) < 128 && HexValue(f) % 2 == 1
  }

  lemma TwoDigits(f: string)
    requires |f| == 2 && IsHex(f)
    ensures HexValue(f) == 16 * DigitValue(f[0]) + DigitValue(f[1])
  {
    assert f[..1][..0] == "";
    assert HexValue(f[..1]) == DigitValue(f[0]);
  }

  lemma FlagsParsed(f: string)
    requires |f| == 2 && f[0] != '-'
    ensures (match ParseInt8(f) case Some(n) => n % 2 == 1 case None => false) <==> SampledFlags(f)
  {
    if f[0] == '+' {
      assert f[1..][..0] == "" && f[1..] == [f[1]];
      assert IsHexDigit(f[1]) ==> HexValue(f[1..]) == DigitValue(f[1]);
    } else if IsHex(f) {
      TwoDigits(f);
    }
  }

  /** On every header the advanced parser accepts, both parsers return the same ids.  Their
      sampled flags are read off the flags field, and differ exactly when the field counts as
      set without being "01". */
  lemma ParsersAgree(h: string)
    requires ParseTraceParentAdvanced(h).Some?
    ensures var a, b := ParseTraceParentAdvanced(h).value, ParseTraceParent(h);
            |h| == 55 && a.traceID == b.traceID && a.spanID == b.spanID
    ensures ParseTraceParentAdvanced(h).value.sampled <==> SampledFlags(h[53..])
    ensures ParseTraceParent(h).sampled <==> h[53..] == "01"
    ensures ParseTraceParentAdvanced(h).value.sampled != ParseTraceParent(h).sampled
       <==> SampledFlags(h[53..]) && h[53..] != "01"
  {
    AdvancedAcceptsIff(h);
    WellShapedSplits(h);
    var f := h[53..];
    assert h[53..55] == f && h[0..3] == h[..3];
    FlagsParsed(f);
    if f == "01" {
      TwoDigits(f);
    }
  }

  /** The source's comment promises bit 0 of the flags.  On hexadecimal flags the advanced
      parser reports bit 0 exactly unless bit 7 is set with it: the field is parsed as a signed
      byte, which rejects 80 to ff. */
  lemma BitZeroReportedIff(h: string)
    requires ParseTraceParentAdvanced(h).Some? && IsHex(h[53..])
    ensures (ParseTraceParentAdvanced(h).value.sampled <==> HexValue(h[53..]) % 2 == 1)
       <==> !(HexValue(h[53..]) % 2 == 1 && HexValue(h[53..]) >= 128)
  {
    ParsersAgree(h);
    assert h[53..][0] != '+';
  }

  /** A header with ids of ones. */
  function OnesWith(flags: string): string { Header("00", seq(32, _ => '1'), seq(16, _ => '1'), flags) }

  lemma OnesAccepted(flags: string)
    requires |flags| == 2 && DashFree(flags)
    ensures ParseTraceParentAdvanced(OnesWith(flags)).Some? && OnesWith(flags)[53..] == flags
  {
    var t, s, h := seq(32, _ => '1'), seq(16, _ => '1'), OnesWith(flags);
    assert h[..3] == "00-" && h[3..35] == t && h[36..52] == s && h[53..] == flags;
    assert t[0] == '1' && s[0] == '1' && Zeros(32)[0] == '0' && Zeros(16)[0] == '0';
    AdvancedAcceptsIff(h);
  }

  lemma OnesRead(flags: string, value: nat)
    requires |flags| == 2 && IsHex(flags) && value == 16 * DigitValue(flags[0]) + DigitValue(flags[1])
    ensures ParseTraceParentAdvanced(OnesWith(flags)).Some?
    ensures ParseTraceParentAdvanced(OnesWith(flags)).value.sampled <==> value < 128 && value % 2 == 1
    ensures ParseTraceParent(OnesWith(flags)).sampled <==> flags == "01"
  {
    HexIsDashFree(flags);
    OnesAccepted(flags);
    ParsersAgree(OnesWith(flags));
    TwoDigits(flags);
  }

  /** Flags 03: the parsers differ.  Flags 81: both say not sampled although bit 0 is set. */
  lemma FlagsMisread()
    ensures ParseTraceParentAdvanced(OnesWith("03")).Some? && ParseTraceParentAdvanced(OnesWith("81")).Some?
    ensures ParseTraceParentAdvanced(OnesWith("03")).value.sampled && !ParseTraceParent(OnesWith("03")).sampled
    ensures !ParseTraceParentAdvanced(OnesWith("81")).value.sampled && !ParseTraceParent(OnesWith("81")).sampled
    ensures DigitValue("81"[1]) % 2 == 1
  {
    OnesRead("03", 3);
    OnesRead("81", 129);
  }

  /** The advanced parser does not check that the ids are hexadecimal, although section 3.2.2.3
      and 3.2.2.4 require it. */
  lemma AdvancedAcceptsNonHex()
    ensures exists h :: ParseTraceParentAdvanced(h).Some? && !IsHex(ParseTraceParentAdvanced(h).value.traceID)
  {
    var t, s := seq(32, _ => 'z'), seq(16, _ => 'z');
    var h := Header("00", t, s, "00");
    assert h[..3] == "00-" && h[3..35] == t && h[36..52] == s && h[53..] == "00";
    assert t[0] == 'z' && s[0] == 'z' && Zeros(32)[0] == '0' && Zeros(16)[0] == '0';
    AdvancedAcceptsIff(h);
    assert !IsHexDigit(t[0]);
  }
}
