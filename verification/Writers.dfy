/**
 * The events that Ingest and the ReplayEngine create (internal/application/ingest/service.go and
 * internal/application/replay/service.go), and the lineage their replay pointers form in the table.
 */
module Writers {
  import opened Collections
  import opened Events
  import opened Versions

  datatype Command = Command(
    streamId: string, kind: string, source: string, payload: string,
    metadata: Option<map<string, string>>, correlationId: string, eventVersion: int,
    causationId: string, actorId: string, traceId: string, sourceVersion: string)

  /** What all copies of one active replay share. */
  datatype Batch = Batch(replayId: string, startedAt: Time, reason: string)

  /** An event still to be built: its id and time are drawn just before it is appended. */
  datatype Draft =
    | Fresh(cmd: Command, tenantId: string)
    | Copied(orig: Event, batch: Batch)

  /** Ingest's event; `cmd.correlationId` has already been made non-empty. */
  function Ingested(cmd: Command, tenantId: string, id: string, now: Time): Event
  {
    New(cmd.streamId, cmd.kind, cmd.source, cmd.correlationId, cmd.payload, cmd.metadata, id, now).(
      tenantId := tenantId,
      eventVersion := if cmd.eventVersion > 0 then cmd.eventVersion else 1,
      causationId := cmd.causationId,
      actorId := cmd.actorId,
      traceId := cmd.traceId,
      sourceVersion := cmd.sourceVersion)
  }

  /** Execute's replay event: a new event with the original's fields, marked as a replay. */
  function ReplayCopy(orig: Event, batch: Batch, id: string, now: Time): Event
  {
    New(orig.streamId, orig.kind, orig.source, orig.correlationId, orig.payload, Some(orig.metadata), id, now).(
      tenantId := orig.tenantId,
      eventVersion := orig.eventVersion,
      causationId := orig.causationId,
      actorId := orig.actorId,
      traceId := orig.traceId,
      sourceVersion := orig.sourceVersion,
      isReplay := true,
      replayId := batch.replayId,
      replayedAt := Some(batch.startedAt),
      replayReason := batch.reason,
      replaySourceEventId := orig.id,
      metadata := orig.metadata["is_replay" := "true"]["replay_id" := batch.replayId]
        ["replay_source_event_id" := orig.id]["replay_reason" := batch.reason])
  }

  function Realise(d: Draft, id: string, now: Time): Event
  {
    match d
    case Fresh(cmd, tenantId) => Ingested(cmd, tenantId, id, now)
    case Copied(orig, batch) => ReplayCopy(orig, batch, id, now)
  }

  const REPLAY_KEYS := {"is_replay", "replay_id", "replay_source_event_id", "replay_reason"}

  /** The same fact up to id, version, times and replay marks. */
  ghost predicate SameFact(a: Event, b: Event)
  {
    && a.tenantId == b.tenantId && a.streamId == b.streamId && a.kind == b.kind && a.source == b.source
    && a.eventVersion == b.eventVersion && a.correlationId == b.correlationId && a.causationId == b.causationId
    && a.actorId == b.actorId && a.traceId == b.traceId && a.sourceVersion == b.sourceVersion
    && a.payload == b.payload
    && a.metadata - REPLAY_KEYS == b.metadata - REPLAY_KEYS
  }

  /** A stored payload is never empty: event.New puts JSON null for an absent one. */
  predicate HasPayload(e: Event)
  {
    e.payload != ""
  }

  lemma CopyIsSameFact(orig: Event, batch: Batch, id: string, now: Time)
    requires HasPayload(orig)
    ensures SameFact(ReplayCopy(orig, batch, id, now), orig) && HasPayload(ReplayCopy(orig, batch, id, now))
  {}

  // ----- Lineage -----

  /** A row that may be added to `rows`: original, or a copy of a row already there. */
  ghost predicate Sourced(rows: seq<Event>, e: Event)
  {
    && HasPayload(e)
    && (e.isReplay ==> exists s :: s in rows && s.id == e.replaySourceEventId && SameFact(e, s))
  }

  ghost predicate Lineage(rows: seq<Event>)
  {
    forall i :: 0 <= i < |rows| ==> Sourced(rows[..i], rows[i])
  }

  lemma LineageSnoc(rows: seq<Event>, row: Event)
    requires Lineage(rows) && Sourced(rows, row)
    ensures Lineage(rows + [row])
  {
    var after := rows + [row];
    forall i | 0 <= i < |after| ensures Sourced(after[..i], after[i]) {
      assert after[..i] == if i < |rows| then rows[..i] else rows;
      assert i < |rows| ==> Sourced(rows[..i], rows[i]);
    }
  }

  /** A draft realised over a table that holds its original is sourced there. */
  lemma RealisedIsSourced(rows: seq<Event>, d: Draft, id: string, now: Time)
    requires d.Copied? ==> d.orig in rows && HasPayload(d.orig)
    ensures Sourced(rows, Realise(d, id, now))
  {}

  /** Following replay_source_event_id from `chain[0]`, one stored row after the other. */
  ghost predicate FollowsPointers(rows: seq<Event>, chain: seq<Event>)
  {
    forall k :: 0 <= k < |chain| - 1 ==>
      && chain[k].isReplay
      && Lookup(rows, chain[k].replaySourceEventId) == Some(chain[k + 1])
      && chain[k + 1].version < chain[k].version
      && chain[k + 1].streamId == chain[k].streamId && chain[k + 1].tenantId == chain[k].tenantId
  }

  /** The row a replay row points to, committed before it. */
  lemma SourceOf(rows: seq<Event>, i: nat) returns (j: nat)
    requires Valid(rows) && Lineage(rows) && i < |rows| && rows[i].isReplay
    ensures j < i && SameFact(rows[i], rows[j]) && FollowsPointers(rows, [rows[i], rows[j]])
  {
    assert Sourced(rows[..i], rows[i]);
    var s :| s in rows[..i] && s.id == rows[i].replaySourceEventId && SameFact(rows[i], s);
    j :| 0 <= j < i && rows[j] == s;
    assert s.id in RowIds(rows);
    IdNamesRow(rows, s, Lookup(rows, s.id).value);
    CommitsRaiseVersions(rows, j, i);
  }

  lemma SameFactTransitive(a: Event, b: Event, c: Event)
    requires SameFact(a, b) && SameFact(b, c)
    ensures SameFact(a, c)
  {}

  /**
   * Replay pointers are well founded: from any row they lead, with strictly falling versions in one
   * stream and tenant, to an original event that states the same fact.
   */
  lemma {:induction false} PointersReachOriginal(rows: seq<Event>, i: nat) returns (chain: seq<Event>)
    requires Valid(rows) && Lineage(rows) && i < |rows|
    ensures chain != [] && chain[0] == rows[i] && FollowsPointers(rows, chain)
    ensures !chain[|chain| - 1].isReplay && chain[|chain| - 1] in rows && SameFact(rows[i], chain[|chain| - 1])
  {
    if !rows[i].isReplay {
      return [rows[i]];
    }
    var j := SourceOf(rows, i);
    var rest := PointersReachOriginal(rows, j);
    ChainLonger(rows, rows[i], rest);
    SameFactTransitive(rows[i], rows[j], rest[|rest| - 1]);
    chain := [rows[i]] + rest;
  }

  lemma ChainLonger(rows: seq<Event>, r: Event, rest: seq<Event>)
    requires rest != [] && FollowsPointers(rows, rest)
    requires FollowsPointers(rows, [r, rest[0]])
    ensures FollowsPointers(rows, [r] + rest)
  {
    var chain := [r] + rest;
    assert chain[0] == [r, rest[0]][0] && chain[1] == [r, rest[0]][1];
    assert forall k :: 0 < k < |chain| ==> chain[k] == rest[k - 1];
  }
}
