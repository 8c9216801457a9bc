/** Service.Ingest (internal/application/ingest/service.go): store first, then best-effort publish. */
module Ingest {
  import opened Collections
  import opened Events
  import opened Postgres
  import opened Producer
  import opened Versions
  import opened Writers

  /**
   * The values one call draws from its surroundings, what happens to its two remote calls, and what
   * other clients commit between its snapshot and its own commit.
   */
  datatype Env = Env(
    id: string, now: Time, freshCorrelation: string, spanId: string,
    fault: Fault, written: bool, acked: bool, meanwhile: seq<Statement>)

  predicate Acceptable(identity: Option<string>, cmd: Command)
  {
    Authenticated(identity) && cmd.streamId != "" && cmd.kind != "" && cmd.source != ""
  }

  /** The row states the command, for the caller's tenant, as an original event. */
  predicate Records(row: Event, tenantId: string, cmd: Command, env: Env)
  {
    && row.id == env.id && row.occurredAt == env.now
    && !row.isReplay && row.replayId == "" && row.replayedAt == None && row.replayReason == ""
    && row.replaySourceEventId == ""
    && row.tenantId == tenantId && row.streamId == cmd.streamId
    && row.kind == cmd.kind && row.source == cmd.source
    && row.correlationId == (if cmd.correlationId == "" then env.freshCorrelation else cmd.correlationId)
    && row.causationId == cmd.causationId && row.actorId == cmd.actorId
    && row.traceId == cmd.traceId && row.sourceVersion == cmd.sourceVersion
    && row.eventVersion == Max(1, cmd.eventVersion)
    && row.payload == (if cmd.payload == "" then "null" else cmd.payload)
    && row.metadata == (if cmd.metadata.Some? then cmd.metadata.value else map[])
  }

  lemma RecordsAnyVersion(e: Event, v: int, tenantId: string, cmd: Command, env: Env)
    requires Records(e, tenantId, cmd, env)
    ensures Records(e.(version := v), tenantId, cmd, env)
  {}

  lemma RecordFields(row: Event, tenantId: string, cmd: Command, env: Env)
    requires Records(row, tenantId, cmd, env)
    ensures row == Event(env.id, tenantId, cmd.streamId, cmd.kind, cmd.source, row.version,
                         if cmd.eventVersion > 0 then cmd.eventVersion else 1, env.now,
                         if cmd.correlationId == "" then env.freshCorrelation else cmd.correlationId,
                         cmd.causationId, cmd.actorId, cmd.traceId, cmd.sourceVersion, false, "", None, "", "",
                         if cmd.payload == "" then "null" else cmd.payload,
                         if cmd.metadata.Some? then cmd.metadata.value else map[])
  {}

  /** Supplies a correlation id when the command has none, and builds the event. */
  method Build(tenantId: string, cmd: Command, env: Env) returns (e: Event)
    ensures Records(e, tenantId, cmd, env)
  {
    var c := if cmd.correlationId == "" then cmd.(correlationId := env.freshCorrelation) else cmd;
    e := Ingested(c, tenantId, env.id, env.now);
  }

  class Service {
    const store: EventStore
    const publisher: Producer

    constructor (store: EventStore, publisher: Producer)
      ensures this.store == store && this.publisher == publisher
    {
      this.store, this.publisher := store, publisher;
    }

    /** Builds the event and appends it while others commit `env.meanwhile`, which leads to the table `met`. */
    method Store(tenantId: string, cmd: Command, env: Env) returns (r: Result<Event, Error>, ghost met: seq<Event>)
      requires Valid(store.rows) && env.id !in RowIds(store.rows) && env.id !in StatementIds(env.meanwhile)
      modifies store
      ensures Valid(store.rows)
      ensures met == Meanwhile(old(store.rows), env.meanwhile) && old(store.rows) <= met
      ensures r.Ok? <==> env.fault == NoFault && !Overtaken(met, |old(store.rows)|, cmd.streamId)
      ensures if Lands(met, |old(store.rows)|, cmd.streamId, env.fault)
              then && |store.rows| == |met| + 1 && met <= store.rows
                   && Records(store.rows[|met|], tenantId, cmd, env)
                   && store.rows[|met|].version == |StreamRows(met, cmd.streamId)| + 1
              else store.rows == met
      ensures r.Ok? ==> store.rows == met + [r.value]
    {
      MeanwhileFacts(store.rows, env.meanwhile);
      var e := Build(tenantId, cmd, env);
      NotAmongOthers(store.rows, env.meanwhile, e.id);
      var snap := |store.rows|;
      store.Elapse(env.meanwhile);
      met := store.rows;
      RecordsAnyVersion(e, |StreamRows(met, e.streamId)| + 1, tenantId, cmd, env);
      ValidIsConstrained(store.rows);
      r := store.Append(e, snap, env.fault);
    }

    /**
     * The event is stored exactly when the request is acceptable, its statement ran, and no row of its
     * stream was committed meanwhile; it is published only if storing was acknowledged, and a failed
     * publish does not fail the call. Meanwhile others led the table to `met`.
     */
    method Ingest(identity: Option<string>, cmd: Command, env: Env)
      returns (r: Result<Event, Error>, ghost met: seq<Event>)
      requires Valid(store.rows) && env.id !in RowIds(store.rows) && env.id !in StatementIds(env.meanwhile)
      requires env.freshCorrelation != ""
      modifies store, publisher
      ensures Valid(store.rows)
      ensures met == Meanwhile(old(store.rows), env.meanwhile) && old(store.rows) <= met
      ensures r == Err(Unauthenticated) <==> identity.None? || identity.value == ""
      ensures r == Err(InvalidArgument) <==>
              identity.Some? && identity.value != "" && (cmd.streamId == "" || cmd.kind == "" || cmd.source == "")
      ensures Acceptable(identity, cmd) <==> r != Err(Unauthenticated) && r != Err(InvalidArgument)
      ensures r == Err(Unavailable) <==>
              && Acceptable(identity, cmd)
              && (env.fault != NoFault || Overtaken(met, |old(store.rows)|, cmd.streamId))
      ensures r.Ok? <==>
              && Acceptable(identity, cmd)
              && env.fault == NoFault && !Overtaken(met, |old(store.rows)|, cmd.streamId)
      ensures !Acceptable(identity, cmd) ==> store.rows == old(store.rows)
      ensures Acceptable(identity, cmd) ==>
              if Lands(met, |old(store.rows)|, cmd.streamId, env.fault)
              then && |store.rows| == |met| + 1 && met <= store.rows
                   && store.rows[|met|] ==
                Event(env.id, identity.value, cmd.streamId, cmd.kind, cmd.source, |StreamRows(met, cmd.streamId)| + 1,
                      if cmd.eventVersion > 0 then cmd.eventVersion else 1, env.now,
                      if cmd.correlationId == "" then env.freshCorrelation else cmd.correlationId,
                      cmd.causationId, cmd.actorId, cmd.traceId, cmd.sourceVersion, false, "", None, "", "",
                      if cmd.payload == "" then "null" else cmd.payload,
                      if cmd.metadata.Some? then cmd.metadata.value else map[])
              else store.rows == met
      ensures r.Ok? ==> store.rows == met + [r.value]
      ensures publisher.sent == old(publisher.sent) +
              if r.Ok? && (env.written || env.acked) then [MessageOf(publisher.resolver, r.value, env.spanId)] else []
      ensures r.Ok? && (env.written || env.acked) ==>
              var m := publisher.sent[|publisher.sent| - 1];
              && publisher.sent == old(publisher.sent) + [m] && m.e == r.value && m.key == cmd.streamId
              && m.topic == publisher.resolver.Resolve(cmd.streamId)
    {
      met := Meanwhile(store.rows, env.meanwhile);
      MeanwhileFacts(store.rows, env.meanwhile);
      if !Authenticated(identity) {
        return Err(Unauthenticated), met;
      }
      if cmd.streamId == "" || cmd.kind == "" || cmd.source == "" {
        return Err(InvalidArgument), met;
      }
      var stored;
      stored, met := Store(identity.value, cmd, env);
      if Lands(met, |old(store.rows)|, cmd.streamId, env.fault) {
        RecordFields(store.rows[|met|], identity.value, cmd, env);
      }
      if stored.Err? {
        return Err(Unavailable), met;
      }
      var _ := publisher.Publish(stored.value, env.spanId, env.written, env.acked);
      r := stored;
    }
  }
}
