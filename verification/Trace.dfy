/** W3C traceparent printing and parsing (internal/pkg/trace/trace.go). Strings are byte strings. */
module Trace {
  import opened Collections
  import opened Text

  datatype TraceContext = TraceContext(traceId: string, parentSpanId: string, sampled: bool) {

    /** The format 00-%s-%s-%s. */
    function Traceparent(spanId: string): string
    {
      Join(["00", traceId, spanId, if sampled then "01" else "00"], '-')
    }
  }

  lemma JoinFour(a: string, b: string, c: string)
    ensures Join(["00", a, b, c], '-') == "00-" + a + "-" + b + "-" + c
  {
    assert Join([c], '-') == c && [b, c][1..] == [c];
    assert Join([b, c], '-') == b + ['-'] + c && [a, b, c][1..] == [b, c];
    assert Join([a, b, c], '-') == a + ['-'] + (b + ['-'] + c) && ["00", a, b, c][1..] == [a, b, c];
    assert Join(["00", a, b, c], '-') == "00" + ['-'] + (a + ['-'] + (b + ['-'] + c));
    assert "00" + ['-'] == "00-" && ['-'] == "-";
  }

  lemma TraceparentFormat(tc: TraceContext, spanId: string)
    ensures tc.Traceparent(spanId) == "00-" + tc.traceId + "-" + spanId + if tc.sampled then "-01" else "-00"
  {
    JoinFour(tc.traceId, spanId, if tc.sampled then "01" else "00");
  }

  predicate IsHexDigit(c: char)
  {
    '0' <= c <= '9' || 'a' <= c <= 'f' || 'A' <= c <= 'F'
  }

  /** hex.DecodeString succeeds: pairs of hex digits of either case. */
  predicate IsHex(s: string)
  {
    |s| % 2 == 0 && forall i :: 0 <= i < |s| ==> IsHexDigit(s[i])
  }

  function ParseTraceparent(tp: string): Option<TraceContext>
  {
    var parts := Split(tp, '-');
    if |parts| != 4 then None
    else if parts[0] != "00" then None
    else if |parts[1]| != 32 || !IsHex(parts[1]) then None
    else if |parts[2]| != 16 || !IsHex(parts[2]) then None
    else if |parts[3]| != 2 then None
    else Some(TraceContext(parts[1], parts[2], parts[3] == "01"))
  }

  /** Pairs of these 22 digits, and nothing else. */
  lemma HexMeans(s: string)
    ensures IsHex(s) <==> |s| % 2 == 0 && forall i :: 0 <= i < |s| ==> s[i] in "0123456789abcdefABCDEF"
  {
    var digits := "0123456789abcdefABCDEF";
    forall c: char ensures IsHexDigit(c) <==> c in digits {
      DigitMeans(c);
    }
  }

  lemma DigitMeans(c: char)
    ensures IsHexDigit(c) <==> c in "0123456789abcdefABCDEF"
  {
    var digits := "0123456789abcdefABCDEF";
    if '0' <= c <= '9' {
      assert digits[c as int - '0' as int] == c;
    } else if 'a' <= c <= 'f' {
      assert digits[10 + c as int - 'a' as int] == c;
    } else if 'A' <= c <= 'F' {
      assert digits[16 + c as int - 'A' as int] == c;
    }
  }

  lemma HexHasNoDash(s: string)
    requires IsHex(s)
    ensures '-' !in s
  {}

  /**
   * The header the producer writes parses iff the stored trace id, an arbitrary string, is exactly
   * 32 hex digits, and parsing then gives back all that was written.
   */
  lemma ProducerHeaderRoundTrip(tc: TraceContext, spanId: string)
    requires |spanId| == 16 && IsHex(spanId)
    ensures ParseTraceparent(tc.Traceparent(spanId)) ==
            if |tc.traceId| == 32 && IsHex(tc.traceId) then Some(tc.(parentSpanId := spanId)) else None
  {
    HexHasNoDash(spanId);
    SplitJoin(["00", tc.traceId, spanId, if tc.sampled then "01" else "00"], '-');
    if IsHex(tc.traceId) {
      HexHasNoDash(tc.traceId);
    }
  }

  ghost predicate WellFormedHeader(tp: string, tc: TraceContext, flags: string)
  {
    && tp == Join(["00", tc.traceId, tc.parentSpanId, flags], '-')
    && |tc.traceId| == 32 && IsHex(tc.traceId)
    && |tc.parentSpanId| == 16 && IsHex(tc.parentSpanId)
    && |flags| == 2 && '-' !in flags
    && tc.sampled == (flags == "01")
  }

  /** Exactly which headers are accepted, and what they are read as. */
  lemma ParseExact(tp: string, tc: TraceContext)
    ensures ParseTraceparent(tp) == Some(tc) <==> exists flags :: WellFormedHeader(tp, tc, flags)
    ensures ParseTraceparent(tp) == Some(tc) ==>
            && |tc.traceId| == 32 && IsHex(tc.traceId) && |tc.parentSpanId| == 16 && IsHex(tc.parentSpanId)
            && exists flags :: |flags| == 2 && '-' !in flags && tc.sampled == (flags == "01")
                               && tp == "00-" + tc.traceId + "-" + tc.parentSpanId + "-" + flags
    ensures forall flags ::
              && |tc.traceId| == 32 && IsHex(tc.traceId) && |tc.parentSpanId| == 16 && IsHex(tc.parentSpanId)
              && |flags| == 2 && '-' !in flags && tc.sampled == (flags == "01")
              && tp == "00-" + tc.traceId + "-" + tc.parentSpanId + "-" + flags
              ==> ParseTraceparent(tp) == Some(tc)
  {
    forall flags ensures
        WellFormedHeader(tp, tc, flags) <==>
        && |tc.traceId| == 32 && IsHex(tc.traceId) && |tc.parentSpanId| == 16 && IsHex(tc.parentSpanId)
        && |flags| == 2 && '-' !in flags && tc.sampled == (flags == "01")
        && tp == "00-" + tc.traceId + "-" + tc.parentSpanId + "-" + flags
    {
      JoinFour(tc.traceId, tc.parentSpanId, flags);
    }
    if ParseTraceparent(tp) == Some(tc) {
      var parts := Split(tp, '-');
      JoinSplit(tp, '-');
      SplitPartsClean(tp, '-');
      assert parts == ["00", tc.traceId, tc.parentSpanId, parts[3]];
      assert WellFormedHeader(tp, tc, parts[3]);
    }
    if flags :| WellFormedHeader(tp, tc, flags) {
      HexHasNoDash(tc.traceId);
      HexHasNoDash(tc.parentSpanId);
      SplitJoin(["00", tc.traceId, tc.parentSpanId, flags], '-');
    }
  }

  /** Printing what was parsed gives the header back exactly when its flags are 00 or 01. */
  lemma ReprintExact(tp: string)
    requires ParseTraceparent(tp).Some?
    ensures var tc := ParseTraceparent(tp).value;
            tc.Traceparent(tc.parentSpanId) == tp <==> Split(tp, '-')[3] == "00" || Split(tp, '-')[3] == "01"
  {
    var tc := ParseTraceparent(tp).value;
    var parts := Split(tp, '-');
    JoinSplit(tp, '-');
    assert parts == ["00", tc.traceId, tc.parentSpanId, parts[3]];
    var printed := ["00", tc.traceId, tc.parentSpanId, if tc.sampled then "01" else "00"];
    HexHasNoDash(tc.traceId);
    HexHasNoDash(tc.parentSpanId);
    SplitJoin(printed, '-');
  }
}
