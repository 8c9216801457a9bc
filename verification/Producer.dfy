/** The Kafka producer (internal/infrastructure/kafka/producer.go) and the consumer's reading of its headers. */
module Producer {
  import opened Collections
  import opened Events
  import opened Topics
  import opened Trace

  datatype Header = Header(key: string, value: string)

  datatype Message = Message(topic: string, key: string, headers: seq<Header>, e: Event)

  function HeadersOf(e: Event, spanId: string): seq<Header>
  {
    [Header("event_id", e.id), Header("event_type", e.kind), Header("source", e.source)]
    + (if e.traceId == "" then []
       else [Header("traceparent", TraceContext(e.traceId, "", true).Traceparent(spanId))])
    + (if e.correlationId == "" then [] else [Header("correlation_id", e.correlationId)])
  }

  function MessageWith(resolver: Resolver, e: Event, headers: seq<Header>): Message
  {
    Message(resolver.Resolve(e.streamId), e.streamId, headers, e)
  }

  function MessageOf(resolver: Resolver, e: Event, spanId: string): Message
  {
    MessageWith(resolver, e, HeadersOf(e, spanId))
  }

  class Producer {
    const resolver: Resolver
    var sent: seq<Message>

    constructor (resolver: Resolver)
      ensures this.resolver == resolver && sent == []
    {
      this.resolver := resolver;
      sent := [];
    }

    /** `written` and `acked` say whether the broker stored the message and whether its reply arrived. */
    method Publish(e: Event, spanId: string, written: bool, acked: bool) returns (ok: bool)
      modifies this
      ensures ok == acked
      ensures sent == old(sent) + if written || acked then [MessageOf(resolver, e, spanId)] else []
      ensures written || acked ==>
                var m := sent[|sent| - 1];
                && sent == old(sent) + [m] && m.key == e.streamId && m.e == e && m.topic == resolver.Resolve(e.streamId)
                && m.headers ==
                   [Header("event_id", e.id), Header("event_type", e.kind), Header("source", e.source)]
                   + (if e.traceId == "" then [] else [Header("traceparent", "00-" + e.traceId + "-" + spanId + "-01")])
                   + (if e.correlationId == "" then [] else [Header("correlation_id", e.correlationId)])
    {
      var headers := [Header("event_id", e.id), Header("event_type", e.kind), Header("source", e.source)];
      if e.traceId != "" {
        var tc := TraceContext(e.traceId, "", true);
        headers := headers + [Header("traceparent", tc.Traceparent(spanId))];
      }
      if e.correlationId != "" {
        headers := headers + [Header("correlation_id", e.correlationId)];
      }
      assert headers == HeadersOf(e, spanId);
      TraceparentFormat(TraceContext(e.traceId, "", true), spanId);
      if written || acked {
        sent := sent + [Message(resolver.Resolve(e.streamId), e.streamId, headers, e)];
      }
      ok := acked;
    }
  }

  /** What the consumer attaches to its handler's context. */
  datatype MessageContext = MessageContext(trace: Option<TraceContext>, correlationId: Option<string>)

  /** A header that sets the trace: it is named traceparent and parses. */
  predicate SetsTrace(h: Header)
  {
    h.key == "traceparent" && ParseTraceparent(h.value).Some?
  }

  predicate SetsCorrelation(h: Header)
  {
    h.key == "correlation_id" && h.value != ""
  }

  /** Header `i` is the last one that satisfies `p`. */
  ghost predicate IsLast(headers: seq<Header>, p: Header -> bool, i: nat)
  {
    i < |headers| && p(headers[i]) && forall j :: i < j < |headers| ==> !p(headers[j])
  }

  ghost predicate HasNone(headers: seq<Header>, p: Header -> bool)
  {
    forall j :: 0 <= j < |headers| ==> !p(headers[j])
  }

  /** None exactly if no traceparent header parses, and otherwise what the last one that does is read as. */
  ghost predicate IsTraceOf(headers: seq<Header>, trace: Option<TraceContext>)
  {
    if trace.None? then HasNone(headers, SetsTrace)
    else exists i: nat :: IsLast(headers, SetsTrace, i) && trace == ParseTraceparent(headers[i].value)
  }

  /** None exactly if no correlation id is given, and otherwise the last one that is not empty. */
  ghost predicate IsCorrelationOf(headers: seq<Header>, correlationId: Option<string>)
  {
    if correlationId.None? then HasNone(headers, SetsCorrelation)
    else exists i: nat :: IsLast(headers, SetsCorrelation, i) && correlationId == Some(headers[i].value)
  }

  /** The header loop of Consumer.Run: of several headers that set a value, the last one counts. */
  method ReadHeaders(headers: seq<Header>) returns (ctx: MessageContext)
    ensures IsTraceOf(headers, ctx.trace) && IsCorrelationOf(headers, ctx.correlationId)
    ensures forall i :: && 0 <= i < |headers| && headers[i].key == "correlation_id" && headers[i].value != ""
                        && (forall j :: i < j < |headers| && headers[j].key == "correlation_id" ==>
                              headers[j].value == "")
                        ==> ctx.correlationId == Some(headers[i].value)
    ensures forall i :: && 0 <= i < |headers| && headers[i].key == "traceparent"
                        && ParseTraceparent(headers[i].value).Some?
                        && (forall j :: i < j < |headers| && headers[j].key == "traceparent" ==>
                              ParseTraceparent(headers[j].value).None?)
                        ==> ctx.trace == ParseTraceparent(headers[i].value)
  {
    ctx := MessageContext(None, None);
    for i := 0 to |headers|
      invariant IsTraceOf(headers[..i], ctx.trace) && IsCorrelationOf(headers[..i], ctx.correlationId)
    {
      var h := headers[i];
      TraceGrows(headers[..i], h, ctx.trace);
      CorrelationGrows(headers[..i], h, ctx.correlationId);
      if h.key == "traceparent" {
        var tc := ParseTraceparent(h.value);
        if tc.Some? {
          ctx := ctx.(trace := tc);
        }
      } else if h.key == "correlation_id" {
        if h.value != "" {
          ctx := ctx.(correlationId := Some(h.value));
        }
      }
      assert headers[..i + 1] == headers[..i] + [h];
    }
    assert headers[..|headers|] == headers;
  }

  lemma LastKept(headers: seq<Header>, h: Header, p: Header -> bool, i: nat)
    requires IsLast(headers, p, i) && !p(h)
    ensures IsLast(headers + [h], p, i) && (headers + [h])[i] == headers[i]
  {}

  lemma LastAdded(headers: seq<Header>, h: Header, p: Header -> bool)
    requires p(h)
    ensures IsLast(headers + [h], p, |headers|) && (headers + [h])[|headers|] == h
  {}

  lemma TraceGrows(headers: seq<Header>, h: Header, trace: Option<TraceContext>)
    requires IsTraceOf(headers, trace)
    ensures IsTraceOf(headers + [h], if SetsTrace(h) then ParseTraceparent(h.value) else trace)
  {
    if SetsTrace(h) {
      LastAdded(headers, h, SetsTrace);
    } else if trace.Some? {
      var i: nat :| IsLast(headers, SetsTrace, i) && trace == ParseTraceparent(headers[i].value);
      LastKept(headers, h, SetsTrace, i);
    }
  }

  lemma CorrelationGrows(headers: seq<Header>, h: Header, correlationId: Option<string>)
    requires IsCorrelationOf(headers, correlationId)
    ensures IsCorrelationOf(headers + [h], if SetsCorrelation(h) then Some(h.value) else correlationId)
  {
    if SetsCorrelation(h) {
      LastAdded(headers, h, SetsCorrelation);
    } else if correlationId.Some? {
      var i: nat :| IsLast(headers, SetsCorrelation, i) && correlationId == Some(headers[i].value);
      LastKept(headers, h, SetsCorrelation, i);
    }
  }

  /** Of the producer's headers, where the trace and the correlation id are. */
  lemma HeaderPlaces(e: Event, spanId: string)
    requires |spanId| == 16 && IsHex(spanId)
    ensures var headers, parent := HeadersOf(e, spanId), TraceContext(e.traceId, "", true).Traceparent(spanId);
            && (if |e.traceId| == 32 && IsHex(e.traceId)
                then IsLast(headers, SetsTrace, 3) && headers[3].value == parent
                else HasNone(headers, SetsTrace))
            && (if e.correlationId != ""
                then IsLast(headers, SetsCorrelation, |headers| - 1) && headers[|headers| - 1].value == e.correlationId
                else HasNone(headers, SetsCorrelation))
  {
    ProducerHeaderRoundTrip(TraceContext(e.traceId, "", true), spanId);
  }

  /**
   * The consumer of a published event gets its correlation id whenever it has one, and its trace id
   * with the producer's span exactly when the stored trace id is 32 hex digits.
   */
  lemma ContextCrossesTheLog(e: Event, spanId: string, ctx: MessageContext)
    requires |spanId| == 16 && IsHex(spanId)
    requires IsTraceOf(HeadersOf(e, spanId), ctx.trace) && IsCorrelationOf(HeadersOf(e, spanId), ctx.correlationId)
    ensures ctx.correlationId == if e.correlationId == "" then None else Some(e.correlationId)
    ensures ctx.trace == if |e.traceId| == 32 && IsHex(e.traceId)
                         then Some(TraceContext(e.traceId, spanId, true)) else None
  {
    HeaderPlaces(e, spanId);
    ProducerHeaderRoundTrip(TraceContext(e.traceId, "", true), spanId);
  }
}
