/** ReplayEngine.Execute (internal/application/replay/service.go, second half), on its batches of appends. */
module ReplayEngine {
  import opened Collections
  import opened Events
  import opened Postgres
  import opened Producer
  import opened QueryBuilder
  import opened ReplayBatch
  import opened Sql
  import opened Versions
  import opened Writers
  import Topics

  const DEFAULT_REPLAY_SAFETY_LIMIT := 1000

  datatype ReplayRequest = ReplayRequest(filter: ReplayFilter, dryRun: bool, reason: string, safetyLimit: int)

  datatype ReplayResult = ReplayResult(
    replayId: string, dryRun: bool, matchedCount: nat, replayedCount: nat, events: seq<Event>)

  function EffectiveLimit(safetyLimit: int): int
  {
    if safetyLimit <= 0 then DEFAULT_REPLAY_SAFETY_LIMIT else safetyLimit
  }

  /** The filter after scoping it to the caller's tenant. */
  function Scoped(f: ReplayFilter, tenantId: string): ReplayFilter
  {
    if f.tenantId == "" then f.(tenantId := tenantId) else f
  }

  predicate Acceptable(identity: Option<string>, req: ReplayRequest)
  {
    && Authenticated(identity)
    && (req.dryRun || req.reason != "")
    && (req.filter.tenantId == "" ==> req.filter.eventIds != [])
    && (req.filter.tenantId == "" || req.filter.tenantId == identity.value)
  }

  /** The request passes every check and its query answers: not too many rows match. */
  predicate QueryAnswers(rows: seq<Event>, identity: Option<string>, req: ReplayRequest, env: Env)
  {
    && Acceptable(identity, req) && env.queryUp
    && |Filter(rows, Matching(Scoped(req.filter, identity.value)))| <= EffectiveLimit(req.safetyLimit) < MAX_INT64
  }

  /** The request passes every check, but more rows match than may be replayed. */
  predicate LimitStops(rows: seq<Event>, identity: Option<string>, req: ReplayRequest, env: Env)
  {
    && Acceptable(identity, req) && env.queryUp && EffectiveLimit(req.safetyLimit) < MAX_INT64
    && EffectiveLimit(req.safetyLimit) < |Filter(rows, Matching(Scoped(req.filter, identity.value)))|
  }

  /** The messages of the events whose publish reached the broker, in order. */
  function PublishedMessages(p: Topics.Resolver, evts: seq<Event>, env: Env): seq<Message>
  {
    if evts == [] then [] else
    var n := |evts| - 1;
    PublishedMessages(p, evts[..n], env)
    + if env.written(n) || env.acked(n) then [MessageOf(p, evts[n], env.spans(n))] else []
  }

  /** The messages carry, in order, exactly the events whose write reached the broker. */
  lemma {:induction false} PublishedAre(p: Topics.Resolver, evts: seq<Event>, env: Env) returns (at: seq<nat>)
    ensures var sent := PublishedMessages(p, evts, env);
            && |sent| == |at| && (forall i :: 0 <= i < |evts| ==> (i in at <==> env.written(i) || env.acked(i)))
            && (forall k :: 0 <= k < |at| ==>
                  && at[k] < |evts| && sent[k].e == evts[at[k]] && sent[k].key == sent[k].e.streamId
                  && sent[k].topic == p.Resolve(sent[k].e.streamId))
    ensures forall k, l :: 0 <= k < l < |at| ==> at[k] < at[l]
  {
    at := [];
    if evts != [] {
      var n := |evts| - 1;
      at := PublishedAre(p, evts[..n], env);
      if env.written(n) || env.acked(n) {
        at := at + [n];
      }
    }
  }

  class Engine {
    const store: EventStore
    const publisher: Producer

    constructor (store: EventStore, publisher: Producer)
      ensures this.store == store && this.publisher == publisher
    {
      this.store, this.publisher := store, publisher;
    }

    /** One turn of the append loop: build the copy and append it while others commit `during`. */
    method AppendCopy(orig: Event, batch: Batch, id: string, now: Time, fault: Fault, during: seq<Statement>)
      returns (r: Result<Event, Error>)
      requires Valid(store.rows) && id !in RowIds(store.rows) && id !in StatementIds(during)
      modifies store
      ensures Valid(store.rows)
      ensures var snap, met := |old(store.rows)|, Meanwhile(old(store.rows), during);
              && old(store.rows) <= met
              && (if Lands(met, snap, orig.streamId, fault)
                  then |store.rows| == |met| + 1 && met <= store.rows
                       && IsCopy(store.rows[|met|], orig, batch, id, now)
                  else store.rows == met)
              && (r.Ok? <==> fault == NoFault && !Overtaken(met, snap, orig.streamId))
              && (r.Ok? ==> store.rows == met + [r.value])
    {
      var newEvent := ReplayCopy(orig, batch, id, now);
      var snap := |store.rows|;
      MeanwhileFacts(store.rows, during);
      NotAmongOthers(store.rows, during, id);
      store.Elapse(during);
      ValidIsConstrained(store.rows);
      r := store.Append(newEvent, snap, fault);
    }

    /** The next turn, given all turns so far; between two turns others commit as well. */
    method TakeTurn(matched: seq<Event>, batch: Batch, env: Env, i: nat, ghost rows: seq<Event>,
                    ghost turns: seq<Turn>, ghost replayed: seq<Event>)
      returns (r: Result<Event, Error>, ghost turn: Turn)
      requires i == |turns| < |matched| && Going(rows, store.rows, matched, turns, replayed, env, batch)
      requires Timed(rows, store.rows, matched, turns, env)
      modifies store
      ensures Valid(store.rows) && Timed(rows, store.rows, matched, turns + [turn], env)
      ensures r.Ok? ==> Going(rows, store.rows, matched, turns + [turn], replayed + [r.value], env, batch)
      ensures r.Err? ==> BatchRan(rows, store.rows, matched, turns + [turn], env, batch)
                         && !TurnAcked(matched, turns + [turn], env, i)
    {
      ghost var start := store.rows;
      TurnStarts(rows, start, matched, turns, replayed, env, batch);
      store.Elapse(env.before(i));
      ghost var snapped, met := store.rows, Meanwhile(store.rows, env.during(i));
      turn := Turn(|snapped|, met);
      r := AppendCopy(matched[i], batch, env.ids(i), env.clock(i), env.faults(i), env.during(i));
      NextTurnTaken(rows, snapped, store.rows, matched, turns, env, batch);
      TimedSnoc(rows, start, store.rows, matched, turns, env, batch, snapped, met);
      if r.Ok? {
        GoesOn(rows, snapped, met, matched, turns, replayed, r.value, env, batch);
      }
    }

    /** The append loop: stops at the first append that is not acknowledged. */
    method AppendCopies(matched: seq<Event>, batch: Batch, env: Env)
      returns (ok: bool, replayed: seq<Event>, ghost turns: seq<Turn>)
      requires Valid(store.rows) && FreshIds(env, store.rows)
      modifies store
      ensures Valid(store.rows)
      ensures BatchRan(old(store.rows), store.rows, matched, turns, env, batch)
      ensures Timed(old(store.rows), store.rows, matched, turns, env)
      ensures ok ==> AllAcked(matched, turns, env) && ListsCopies(store.rows, turns, replayed)
      ensures !ok ==> StoppedShort(matched, turns, env)
    {
      ghost var rows := store.rows;
      replayed, turns := [], [];
      for i := 0 to |matched|
        invariant |turns| == i && Going(rows, store.rows, matched, turns, replayed, env, batch)
        invariant Timed(rows, store.rows, matched, turns, env)
      {
        var stored, turn := TakeTurn(matched, batch, env, i, rows, turns, replayed);
        turns := turns + [turn];
        if stored.Err? {
          return false, [], turns;
        }
        replayed := replayed + [stored.value];
      }
      ok := true;
    }

    /** Publishes the last of these events, after the others. */
    method PublishNext(evts: seq<Event>, env: Env, ghost before: seq<Message>) returns (ok: bool)
      requires evts != []
      requires publisher.sent == before + PublishedMessages(publisher.resolver, evts[..|evts| - 1], env)
      modifies publisher
      ensures publisher.sent == before + PublishedMessages(publisher.resolver, evts, env)
    {
      var i := |evts| - 1;
      ok := publisher.Publish(evts[i], env.spans(i), env.written(i), env.acked(i));
    }

    /**
     * The publish loop: failures are counted for the log, never returned. `at` lists the events whose write
     * reached the broker; each is sent once, in order, keyed by its stream and on its stream's topic.
     */
    method PublishAll(replayed: seq<Event>, env: Env) returns (ghost at: seq<nat>)
      modifies publisher
      ensures publisher.sent == old(publisher.sent) + PublishedMessages(publisher.resolver, replayed, env)
      ensures |publisher.sent| == |old(publisher.sent)| + |at|
      ensures forall i :: 0 <= i < |replayed| ==> (i in at <==> env.written(i) || env.acked(i))
      ensures forall k :: 0 <= k < |at| ==>
                var m := publisher.sent[|old(publisher.sent)| + k];
                && at[k] < |replayed| && m.e == replayed[at[k]] && m.key == m.e.streamId
                && m.topic == publisher.resolver.Resolve(m.e.streamId)
      ensures forall k, l :: 0 <= k < l < |at| ==> at[k] < at[l]
    {
      var publishFailures := 0;
      for i := 0 to |replayed|
        invariant publisher.sent == old(publisher.sent) + PublishedMessages(publisher.resolver, replayed[..i], env)
      {
        assert replayed[..i + 1][..i] == replayed[..i];
        var ok := PublishNext(replayed[..i + 1], env, old(publisher.sent));
        if !ok {
          publishFailures := publishFailures + 1;
        }
      }
      assert replayed[..|replayed|] == replayed;
      at := PublishedAre(publisher.resolver, replayed, env);
    }

    /** The checks, the tenant scope, the default limit and the query; `asked` lists the rows asked for. */
    method FindMatches(identity: Option<string>, req: ReplayRequest, env: Env)
      returns (r: Result<seq<Event>, Error>, ghost asked: seq<Event>)
      requires UniqueIds(store.rows) && -MAX_INT64 - 1 <= req.safetyLimit <= MAX_INT64
      ensures r == Err(Unauthenticated) <==> identity.None? || identity.value == ""
      ensures r == Err(InvalidArgument) <==>
              && identity.Some? && identity.value != ""
              && (|| (!req.dryRun && req.reason == "") || (req.filter.tenantId == "" && req.filter.eventIds == [])
                  || (req.filter.tenantId != "" && req.filter.tenantId != identity.value))
      ensures Acceptable(identity, req) <==> r != Err(Unauthenticated) && r != Err(InvalidArgument)
      ensures Acceptable(identity, req) ==> forall e :: e in asked ==> e in store.rows && e.tenantId == identity.value
      ensures Acceptable(identity, req) && req.filter.eventIds != [] ==>
              forall e :: e in asked <==>
                e in store.rows && e.id in req.filter.eventIds && e.tenantId == identity.value
      ensures Acceptable(identity, req) && req.filter.eventIds == [] ==>
              forall e :: e in asked <==>
                && e in store.rows && e.tenantId == identity.value
                && (req.filter.streamId == "" || e.streamId == req.filter.streamId)
                && (req.filter.correlationId == "" || e.correlationId == req.filter.correlationId)
                && (req.filter.eventType == "" || e.kind == req.filter.eventType)
                && (req.filter.actorId == "" || e.actorId == req.filter.actorId)
                && (req.filter.fromTime == ZERO_TIME || req.filter.fromTime <= e.occurredAt)
                && (req.filter.toTime == ZERO_TIME || e.occurredAt <= req.filter.toTime)
      ensures forall i, j :: 0 <= i < j < |asked| ==>
                asked[i].occurredAt <= asked[j].occurredAt && asked[i].id != asked[j].id
      ensures var limit := if req.safetyLimit <= 0 then 1000 else req.safetyLimit;
              && (r.Ok? <==> Acceptable(identity, req) && env.queryUp && |asked| <= limit < 0x7fff_ffff_ffff_ffff)
              && (r == Err(LimitExceeded) <==>
                  Acceptable(identity, req) && env.queryUp && limit < |asked| && limit < 0x7fff_ffff_ffff_ffff)
      ensures r.Ok? ==> r.value == asked
      ensures r == Err(LimitExceeded) <==> LimitStops(store.rows, identity, req, env)
      ensures r.Ok? <==> QueryAnswers(store.rows, identity, req, env)
      ensures Acceptable(identity, req) ==>
              IsOrdering(OccurredAsc, store.rows, Matching(Scoped(req.filter, identity.value)), asked)
    {
      asked := [];
      if !Authenticated(identity) {
        return Err(Unauthenticated), asked;
      }
      if !req.dryRun && req.reason == "" {
        return Err(InvalidArgument), asked;
      }
      if req.filter.tenantId == "" && req.filter.eventIds == [] {
        return Err(InvalidArgument), asked;
      }
      if req.filter.tenantId != "" && req.filter.tenantId != identity.value {
        return Err(InvalidArgument), asked;
      }
      var f := if req.filter.tenantId == "" then req.filter.(tenantId := identity.value) else req.filter;
      var limit := if req.safetyLimit <= 0 then DEFAULT_REPLAY_SAFETY_LIMIT else req.safetyLimit;
      r, asked := store.QueryForReplay(f, limit, env.queryUp);
      if r.Err? && r.error != LimitExceeded {
        r := Err(Unavailable);
      }
    }

    /**
     * Either nothing is written, or copies of the matched events are appended in matched order, among
     * other clients' rows, up to the first append that is not acknowledged; only a fully acknowledged
     * batch is published. `matched` lists the rows asked for, all of the caller's tenant; `turns` is what
     * the append loop did.
     */
    method Execute(identity: Option<string>, req: ReplayRequest, env: Env)
      returns (r: Result<ReplayResult, Error>, ghost matched: seq<Event>, ghost turns: seq<Turn>)
      requires Valid(store.rows) && FreshIds(env, store.rows)
      requires -MAX_INT64 - 1 <= req.safetyLimit <= MAX_INT64
      modifies store, publisher
      ensures Valid(store.rows) && old(store.rows) <= store.rows
      ensures r == Err(Unauthenticated) <==> identity.None? || identity.value == ""
      ensures r == Err(InvalidArgument) <==>
              && identity.Some? && identity.value != ""
              && (|| (!req.dryRun && req.reason == "") || (req.filter.tenantId == "" && req.filter.eventIds == [])
                  || (req.filter.tenantId != "" && req.filter.tenantId != identity.value))
      ensures Acceptable(identity, req) <==> r != Err(Unauthenticated) && r != Err(InvalidArgument)
      ensures Acceptable(identity, req) ==>
              forall e :: e in matched ==> e in old(store.rows) && e.tenantId == identity.value
      ensures Acceptable(identity, req) && req.filter.eventIds != [] ==>
              forall e :: e in matched <==>
                e in old(store.rows) && e.id in req.filter.eventIds && e.tenantId == identity.value
      ensures Acceptable(identity, req) && req.filter.eventIds == [] ==>
              forall e :: e in matched <==>
                && e in old(store.rows) && e.tenantId == identity.value
                && (req.filter.streamId == "" || e.streamId == req.filter.streamId)
                && (req.filter.correlationId == "" || e.correlationId == req.filter.correlationId)
                && (req.filter.eventType == "" || e.kind == req.filter.eventType)
                && (req.filter.actorId == "" || e.actorId == req.filter.actorId)
                && (req.filter.fromTime == ZERO_TIME || req.filter.fromTime <= e.occurredAt)
                && (req.filter.toTime == ZERO_TIME || e.occurredAt <= req.filter.toTime)
      ensures forall i, j :: 0 <= i < j < |matched| ==>
                matched[i].occurredAt <= matched[j].occurredAt && matched[i].id != matched[j].id
      ensures var limit := if req.safetyLimit <= 0 then 1000 else req.safetyLimit;
              && (r.Ok? <==> && Acceptable(identity, req) && env.queryUp && |matched| <= limit < 0x7fff_ffff_ffff_ffff
                             && (req.dryRun || AllAcked(matched, turns, env)))
              && (r == Err(LimitExceeded) <==>
                  Acceptable(identity, req) && env.queryUp && limit < |matched| && limit < 0x7fff_ffff_ffff_ffff)
      ensures r == Err(LimitExceeded) <==> LimitStops(old(store.rows), identity, req, env)
      ensures r.Ok? <==> QueryAnswers(old(store.rows), identity, req, env)
                         && (req.dryRun || AllAcked(matched, turns, env))
      ensures QueryAnswers(old(store.rows), identity, req, env) ==>
              IsOrdering(OccurredAsc, old(store.rows), Matching(Scoped(req.filter, identity.value)), matched)
      ensures if QueryAnswers(old(store.rows), identity, req, env) && !req.dryRun
              then BatchRan(old(store.rows), store.rows, matched, turns, env,
                            Batch(env.replayId, env.startedAt, req.reason))
                   && Timed(old(store.rows), store.rows, matched, turns, env)
                   && (r.Err? ==> StoppedShort(matched, turns, env))
              else store.rows == old(store.rows)
      ensures r.Ok? && !req.dryRun ==>
              && ListsCopies(store.rows, turns, r.value.events)
              && publisher.sent == old(publisher.sent) + PublishedMessages(publisher.resolver, r.value.events, env)
              && r.value == ReplayResult(env.replayId, false, |matched|, |matched|, r.value.events)
      ensures r.Ok? && !req.dryRun ==> |r.value.events| == |matched| && forall i :: 0 <= i < |matched| ==>
                var c, o := r.value.events[i], matched[i];
                && c in store.rows
                && c == Event(env.ids(i), o.tenantId, o.streamId, o.kind, o.source, c.version, o.eventVersion,
                              env.clock(i), o.correlationId, o.causationId, o.actorId, o.traceId, o.sourceVersion,
                              true, env.replayId, Some(env.startedAt), req.reason, o.id,
                              if o.payload == "" then "null" else o.payload,
                              o.metadata + map["is_replay" := "true", "replay_id" := env.replayId,
                                               "replay_source_event_id" := o.id, "replay_reason" := req.reason])
      ensures r.Err? || req.dryRun ==> publisher.sent == old(publisher.sent)
      ensures r.Ok? && req.dryRun ==> r.value == ReplayResult("", true, |matched|, 0, matched)
    {
      matched, turns := [], [];
      var found;
      found, matched := FindMatches(identity, req, env);
      if found.Err? {
        return Err(found.error), matched, turns;
      }
      if req.dryRun {
        return Ok(ReplayResult("", true, |found.value|, 0, found.value)), matched, turns;
      }
      var ok, replayed;
      ok, replayed, turns := AppendCopies(found.value, Batch(env.replayId, env.startedAt, req.reason), env);
      if !ok {
        return Err(Unavailable), matched, turns;
      }
      EventsAreCopies(old(store.rows), store.rows, matched, turns, env,
                      Batch(env.replayId, env.startedAt, req.reason), replayed);
      ghost var at := PublishAll(replayed, env);
      forall i | 0 <= i < |matched| {
        CopyFields(replayed[i], matched[i], Batch(env.replayId, env.startedAt, req.reason), env.ids(i), env.clock(i));
      }
      r := Ok(ReplayResult(env.replayId, false, |found.value|, |replayed|, replayed));
    }
  }

  /** A copy, field by field. */
  lemma CopyFields(c: Event, o: Event, batch: Batch, id: string, now: Time)
    requires IsCopy(c, o, batch, id, now)
    ensures c == Event(id, o.tenantId, o.streamId, o.kind, o.source, c.version, o.eventVersion, now,
                       o.correlationId, o.causationId, o.actorId, o.traceId, o.sourceVersion,
                       true, batch.replayId, Some(batch.startedAt), batch.reason, o.id,
                       if o.payload == "" then "null" else o.payload,
                       o.metadata + map["is_replay" := "true", "replay_id" := batch.replayId,
                                        "replay_source_event_id" := o.id, "replay_reason" := batch.reason])
  {}

  /** The events a fully acknowledged batch returns are the copies its turns left, one per match. */
  lemma EventsAreCopies(rows: seq<Event>, after: seq<Event>, matched: seq<Event>, turns: seq<Turn>, env: Env,
                        batch: Batch, replayed: seq<Event>)
    requires BatchRan(rows, after, matched, turns, env, batch) && AllAcked(matched, turns, env)
    requires ListsCopies(after, turns, replayed)
    ensures |replayed| == |matched| && forall i :: 0 <= i < |matched| ==>
              replayed[i] in after && IsCopy(replayed[i], matched[i], batch, env.ids(i), env.clock(i))
  {
    forall i | 0 <= i < |matched|
      ensures replayed[i] in after && IsCopy(replayed[i], matched[i], batch, env.ids(i), env.clock(i))
    {
      assert TurnAcked(matched, turns, env, i) && TurnRan(rows, after, matched, turns, env, batch, i);
      var met := turns[i].met;
      assert (met + [replayed[i]])[|met|] == replayed[i] && after[|met|] == replayed[i];
    }
  }
}
