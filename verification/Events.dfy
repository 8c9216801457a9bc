/** The event record and its constructor (internal/domain/event/event.go). */
module Events {
  import opened Collections

  /** Nanoseconds since Go's zero time; the zero time itself means "not set". */
  type Time = int

  const ZERO_TIME: Time := 0

  datatype Event = Event(
    id: string,              // canonical text of the UUID
    tenantId: string,
    streamId: string,
    kind: string,            // the source's field Type
    source: string,
    version: int,
    eventVersion: int,
    occurredAt: Time,
    correlationId: string,
    causationId: string,
    actorId: string,
    traceId: string,
    sourceVersion: string,
    isReplay: bool,
    replayId: string,
    replayedAt: Option<Time>,
    replayReason: string,
    replaySourceEventId: string,
    payload: string,
    metadata: map<string, string>)

  datatype Error =
    | Unauthenticated
    | InvalidArgument
    | NotFound
    | LimitExceeded
    | VersionGap(missing: int, found: int)
    | Unavailable

  /** `event.New`: `id` and `now` stand for uuid.New() and time.Now(). */
  function New(streamId: string, kind: string, source: string, correlationId: string,
               payload: string, metadata: Option<map<string, string>>, id: string, now: Time): Event
  {
    Event(id, "", streamId, kind, source, 0, 1, now, correlationId, "", "", "", "",
          false, "", None, "", "",
          if payload == "" then "null" else payload,
          if metadata.None? then map[] else metadata.value)
  }

  /** The request's identity: present only with a non-empty tenant, as every service demands. */
  predicate Authenticated(identity: Option<string>)
  {
    identity.Some? && identity.value != ""
  }
}
