/** EventStore (internal/infrastructure/postgres/store.go): its table and every operation on it. */
module Postgres {
  import opened Collections
  import opened Events
  import opened QueryBuilder
  import opened Sql
  import opened Versions

  const MAX_INT64: int := 0x7fff_ffff_ffff_ffff

  /** Two's-complement wrap-around of a sum that exceeds a Go int. */
  function Wrap64(n: int): int
  {
    if n > MAX_INT64 then n - 0x1_0000_0000_0000_0000 else n
  }

  /** What may go wrong around one statement: nothing reaches the database, or only the reply is lost. */
  datatype Fault = NoFault | NeverRan | ReplyLost

  /** An INSERT of a new id takes effect: it reaches the table `met`, and nobody was faster. */
  predicate Lands(met: seq<Event>, snap: nat, stream: string, fault: Fault)
    requires snap <= |met|
  {
    fault != NeverRan && !Overtaken(met, snap, stream)
  }

  /** Rows of a stream from a version on, scoped to the tenant of the context's identity, if any. */
  function FromVersion(identity: Option<string>, stream: string, from: int): Event -> bool
  {
    (e: Event) =>
      && e.streamId == stream
      && from <= e.version
      && (Authenticated(identity) ==> e.tenantId == identity.value)
  }

  function OfStream(identity: Option<string>, stream: string): Event -> bool
  {
    (e: Event) => e.streamId == stream && (Authenticated(identity) ==> e.tenantId == identity.value)
  }

  function WithCorrelation(tenantId: string, correlationId: string): Event -> bool
  {
    (e: Event) => e.tenantId == tenantId && e.correlationId == correlationId
  }

  function WithCausation(tenantId: string, causationId: string): Event -> bool
  {
    (e: Event) => e.tenantId == tenantId && e.causationId == causationId
  }

  /** The match count if the page lies within the list; 0 past its end or for pages of size 0. */
  function ListingTotal(rows: seq<Event>, p: Event -> bool, limit: int, offset: int): nat
  {
    if limit > 0 && offset < |Filter(rows, p)| then |Filter(rows, p)| else 0
  }

  /** What a paginated list query returns: one page of a legal ordering, and that total. */
  ghost predicate IsListing(o: Order, rows: seq<Event>, p: Event -> bool, limit: int, offset: int,
                            evts: seq<Event>, total: int)
  {
    && 0 <= limit && 0 <= offset
    && (exists full :: IsOrdering(o, rows, p, full) && evts == Page(full, offset, limit))
    && total == ListingTotal(rows, p, limit, offset)
  }

  /** Exactly when the total is the full match count, as the source's comment promises it always is. */
  lemma ListingTotalExact(o: Order, rows: seq<Event>, p: Event -> bool, limit: int, offset: int,
                          evts: seq<Event>, total: int)
    requires IsListing(o, rows, p, limit, offset, evts, total)
    ensures total == |Filter(rows, p)| <==> |Filter(rows, p)| == 0 || (limit > 0 && offset < |Filter(rows, p)|)
    ensures total == if evts == [] then 0 else |Filter(rows, p)|
  {}

  /** The pages a client can get at multiples of the limit are exactly those of `Sql.PagingSafeExactly`. */
  lemma ListingsArePages(o: Order, rows: seq<Event>, p: Event -> bool, limit: nat, k: nat, evts: seq<Event>)
    ensures IsPage(o, rows, p, limit, k, evts) <==>
            IsListing(o, rows, p, limit, PageStart(k, limit), evts, ListingTotal(rows, p, limit, PageStart(k, limit)))
  {}

  /** A page shows matches only, in order, and all of them if it starts the list and is not full. */
  lemma ListingShows(o: Order, rows: seq<Event>, p: Event -> bool, limit: int, offset: int, evts: seq<Event>,
                     total: int)
    requires IsListing(o, rows, p, limit, offset, evts, total)
    ensures forall e :: e in evts ==> e in rows && p(e)
    ensures offset == 0 && |evts| < limit ==> forall e :: e in rows && p(e) ==> e in evts
    ensures Ordered(o, evts) && UniqueIds(evts)
  {
    var full :| IsOrdering(o, rows, p, full) && evts == Page(full, offset, limit);
    PageShows(full, offset, limit);
  }

  function NumberArg(args: seq<Value>, ph: nat): int
  {
    var v := Arg(args, ph);
    if v.Number? then v.n else -1
  }

  function OffsetArg(args: seq<Value>, ph: Option<nat>): int
  {
    if ph.None? then 0 else NumberArg(args, ph.value)
  }

  class EventStore {
    var rows: seq<Event>

    constructor ()
      ensures rows == []
    {
      rows := [];
    }

    /**
     * One INSERT whose snapshot saw only `rows[..snap]`. A known id changes nothing and returns the
     * stored version; a new id gets the version after the largest the snapshot saw, unless that is
     * taken. On a table Append built, it is taken exactly if another row of the stream was committed
     * after the snapshot, and otherwise it is the stream's row count plus one.
     */
    method Append(e: Event, snap: nat, fault: Fault) returns (r: Result<Event, Error>)
      requires Constrained(rows) && snap <= |rows|
      modifies this
      ensures Constrained(rows)
      ensures rows == if fault == NeverRan || e.id in RowIds(old(rows)) || VersionTaken(old(rows), snap, e.streamId)
                      then old(rows)
                      else old(rows) + [e.(version := NextVersion(old(rows)[..snap], e.streamId))]
      ensures r.Ok? <==> fault == NoFault && (e.id in RowIds(old(rows)) || !VersionTaken(old(rows), snap, e.streamId))
      ensures r.Ok? && e.id !in RowIds(old(rows)) ==> rows == old(rows) + [r.value]
      ensures r.Ok? ==> Lookup(rows, e.id).Some? && r.value == e.(version := Lookup(rows, e.id).value.version)
      ensures Valid(old(rows)) ==>
              && Valid(rows)
              && (VersionTaken(old(rows), snap, e.streamId) <==> Overtaken(old(rows), snap, e.streamId))
              && (!Overtaken(old(rows), snap, e.streamId) ==>
                    NextVersion(old(rows)[..snap], e.streamId) == |StreamRows(old(rows), e.streamId)| + 1)
    {
      if Valid(rows) {
        TakenIffOvertaken(rows, snap, e.streamId);
        CommitKeepsValid(rows, snap, e);
      }
      CommitOutcome(rows, snap, e);
      if fault == NeverRan {
        return Err(Unavailable);
      }
      match Commit(rows, snap, e) {
        case Inserted(row) =>
          assert (rows + [row])[..|rows|] == rows;
          rows := rows + [row];
          r := if fault == ReplyLost then Err(Unavailable) else Ok(row);
        case Existing(v) =>
          r := if fault == ReplyLost then Err(Unavailable) else Ok(e.(version := v));
        case Collision =>
          r := Err(Unavailable);
      }
    }

    /** Other clients' statements commit while one of ours waits. */
    method Elapse(stmts: seq<Statement>)
      requires Valid(rows)
      modifies this
      ensures rows == Meanwhile(old(rows), stmts)
      ensures Valid(rows) && old(rows) <= rows
    {
      MeanwhileFacts(rows, stmts);
      rows := Meanwhile(rows, stmts);
    }

    method GetByStreamID(identity: Option<string>, stream: string, up: bool) returns (r: Result<seq<Event>, Error>)
      requires UniqueIds(rows)
      ensures r.Ok? <==> up
      ensures r.Ok? ==> IsOrdering(ByVersion, rows, OfStream(identity, stream), r.value)
      ensures r.Ok? && Valid(rows) ==> r.value == Filter(rows, OfStream(identity, stream))
      ensures r.Ok? ==> forall e :: e in r.value <==>
                && e in rows && e.streamId == stream
                && (identity.Some? && identity.value != "" ==> e.tenantId == identity.value)
      ensures r.Ok? ==> forall i, j :: 0 <= i < j < |r.value| ==> r.value[i].version <= r.value[j].version
    {
      var clauses, args := [Compare(StreamId, Equal, 1)], [Text(stream)];
      if identity.Some? && identity.value != "" {
        clauses := clauses + [Compare(TenantId, Equal, 2)];
        args := args + [Text(identity.value)];
      }
      if !up {
        return Err(Unavailable);
      }
      FewClauses(clauses, args, OfStream(identity, stream));
      var found := SelectByVersion(clauses, args, OfStream(identity, stream), stream);
      r := Ok(found);
    }

    /** The rows asked for from a version on, that version included. */
    method GetFromVersion(identity: Option<string>, stream: string, from: int, up: bool)
      returns (r: Result<seq<Event>, Error>)
      requires UniqueIds(rows)
      ensures r.Ok? <==> up
      ensures r.Ok? ==> IsOrdering(ByVersion, rows, FromVersion(identity, stream, from), r.value)
      ensures r.Ok? && Valid(rows) ==> r.value == Filter(rows, FromVersion(identity, stream, from))
      ensures r.Ok? ==> forall e :: e in r.value <==>
                && e in rows && e.streamId == stream && from <= e.version
                && (identity.Some? && identity.value != "" ==> e.tenantId == identity.value)
      ensures r.Ok? ==> forall i, j :: 0 <= i < j < |r.value| ==> r.value[i].version <= r.value[j].version
    {
      var clauses, args := [Compare(StreamId, Equal, 1), Compare(Version, AtLeast, 2)], [Text(stream), Number(from)];
      if identity.Some? && identity.value != "" {
        clauses := clauses + [Compare(TenantId, Equal, 3)];
        args := args + [Text(identity.value)];
      }
      if !up {
        return Err(Unavailable);
      }
      FewClauses(clauses, args, FromVersion(identity, stream, from));
      var found := SelectByVersion(clauses, args, FromVersion(identity, stream, from), stream);
      r := Ok(found);
    }

    /** SELECT ... WHERE clauses ORDER BY version ASC on one stream: on a valid table, the rows in commit order. */
    method SelectByVersion(clauses: seq<Clause>, args: seq<Value>, ghost p: Event -> bool, ghost stream: string)
      returns (found: seq<Event>)
      requires UniqueIds(rows) && forall e :: p(e) ==> e.streamId == stream
      requires forall row :: AllHold(clauses, args, row) == p(row)
      ensures IsOrdering(ByVersion, rows, p, found)
      ensures Valid(rows) ==> found == Filter(rows, p)
    {
      var q := (row: Event) => AllHold(clauses, args, row);
      FilterSame(rows, q, p);
      SortIsOrdering(ByVersion, rows, p);
      found := Sort(ByVersion, Filter(rows, q));
      if Valid(rows) {
        VersionOrderIsCommitOrder(rows, p, stream, found);
      }
    }

    method GetByID(id: string, up: bool) returns (r: Result<Event, Error>)
      ensures r.Ok? <==> up && id in RowIds(rows)
      ensures r.Ok? ==> r.value in rows && r.value.id == id
      ensures r == Err(NotFound) <==> up && id !in RowIds(rows)
    {
      if !up {
        return Err(Unavailable);
      }
      match Lookup(rows, id) {
        case None => r := Err(NotFound);
        case Some(e) => r := Ok(e);
      }
    }

    /**
     * The database's evaluation of SELECT ... WHERE clauses ORDER BY `o` LIMIT $limitPh, with
     * OFFSET $offsetPh when there is one, and the window count. Negative bounds are SQL errors.
     */
    method RunSelect(clauses: seq<Clause>, args: seq<Value>, o: Order, limitPh: nat, offsetPh: Option<nat>,
                     ghost p: Event -> bool)
      returns (ok: bool, page: seq<Event>, count: int)
      requires UniqueIds(rows)
      requires forall row :: AllHold(clauses, args, row) == p(row)
      ensures ok <==> 0 <= NumberArg(args, limitPh) && 0 <= OffsetArg(args, offsetPh)
      ensures ok ==> count == |Filter(rows, p)|
      ensures ok ==> exists full :: IsOrdering(o, rows, p, full)
                                    && page == Page(full, OffsetArg(args, offsetPh), NumberArg(args, limitPh))
    {
      var limit, offset := NumberArg(args, limitPh), OffsetArg(args, offsetPh);
      if limit < 0 || offset < 0 {
        return false, [], 0;
      }
      var q := (row: Event) => AllHold(clauses, args, row);
      FilterSame(rows, q, p);
      SortIsOrdering(o, rows, p);
      var full := Sort(o, Filter(rows, q));
      return true, Page(full, offset, limit), |full|;
    }

    /**
     * `asked` lists the rows the filter asks for, oldest first. The call succeeds exactly when the query ran
     * and they are at most `safetyLimit` (and the limit plus one fits a Go int); the answer is then all of
     * them, never a truncation.
     */
    method QueryForReplay(f: ReplayFilter, safetyLimit: int, up: bool)
      returns (r: Result<seq<Event>, Error>, ghost asked: seq<Event>)
      requires UniqueIds(rows) && -MAX_INT64 - 1 <= safetyLimit <= MAX_INT64
      ensures IsOrdering(OccurredAsc, rows, Matching(f), asked)
      ensures f.eventIds != [] ==> forall e :: e in asked <==>
                e in rows && e.id in f.eventIds && (f.tenantId == "" || e.tenantId == f.tenantId)
      ensures f.eventIds == [] ==> forall e :: e in asked <==>
                && e in rows && e.tenantId == f.tenantId
                && (f.streamId == "" || e.streamId == f.streamId)
                && (f.correlationId == "" || e.correlationId == f.correlationId)
                && (f.eventType == "" || e.kind == f.eventType) && (f.actorId == "" || e.actorId == f.actorId)
                && (f.fromTime == ZERO_TIME || f.fromTime <= e.occurredAt)
                && (f.toTime == ZERO_TIME || e.occurredAt <= f.toTime)
      ensures forall i, j :: 0 <= i < j < |asked| ==>
                asked[i].occurredAt <= asked[j].occurredAt && asked[i].id != asked[j].id
      ensures r.Ok? <==>
              up && (f.eventIds != [] || f.tenantId != "") && |asked| <= safetyLimit < 0x7fff_ffff_ffff_ffff
      ensures r.Ok? ==> r.value == asked
      ensures r == Err(LimitExceeded) <==>
              && up && (f.eventIds != [] || f.tenantId != "")
              && -1 <= safetyLimit < |asked| && safetyLimit < 0x7fff_ffff_ffff_ffff
    {
      r, asked := RunReplayQuery(f, safetyLimit, up);
      AskedFor(rows, f, asked);
    }

    /** The query itself: one row more than the limit is asked for, to see whether there are too many. */
    method RunReplayQuery(f: ReplayFilter, safetyLimit: int, up: bool)
      returns (r: Result<seq<Event>, Error>, ghost asked: seq<Event>)
      requires UniqueIds(rows) && -MAX_INT64 - 1 <= safetyLimit <= MAX_INT64
      ensures IsOrdering(OccurredAsc, rows, Matching(f), asked)
      ensures r.Ok? <==> up && (f.eventIds != [] || f.tenantId != "") && |asked| <= safetyLimit < MAX_INT64
      ensures r.Ok? ==> r.value == asked
      ensures r == Err(LimitExceeded) <==>
              && up && (f.eventIds != [] || f.tenantId != "")
              && -1 <= safetyLimit < |asked| && safetyLimit < MAX_INT64
    {
      SortIsOrdering(OccurredAsc, rows, Matching(f));
      asked := Sort(OccurredAsc, Filter(rows, Matching(f)));
      var built := BuildReplayQuery(f);
      if built.Err? {
        return Err(built.error), asked;
      }
      var b := built.value;
      var bound := Number(Wrap64(safetyLimit + 1));
      BoundArguments(b, [bound], Matching(f));
      if !up {
        return Err(Unavailable), asked;
      }
      var ok, evts, _ := RunSelect(b.clauses, b.args + [bound], OccurredAsc, b.argIdx, None, Matching(f));
      if !ok {
        return Err(Unavailable), asked;
      }
      if |evts| > safetyLimit {
        return Err(LimitExceeded), asked;
      }
      asked :| IsOrdering(OccurredAsc, rows, Matching(f), asked) && evts == Page(asked, 0, safetyLimit + 1);
      PageShows(asked, 0, safetyLimit + 1);
      r := Ok(evts);
    }

    /** Copies the answer row by row; the total is the last row's window count, so 0 without rows. */
    method ListWithCount(clauses: seq<Clause>, args: seq<Value>, o: Order, limitPh: nat, offsetPh: nat, up: bool,
                         ghost p: Event -> bool)
      returns (r: Result<(seq<Event>, int), Error>)
      requires UniqueIds(rows)
      requires forall row :: AllHold(clauses, args, row) == p(row)
      ensures r.Ok? <==> up && 0 <= NumberArg(args, limitPh) && 0 <= NumberArg(args, offsetPh)
      ensures r.Ok? ==>
              IsListing(o, rows, p, NumberArg(args, limitPh), NumberArg(args, offsetPh), r.value.0, r.value.1)
      ensures r.Ok? ==> (forall e :: e in r.value.0 ==> e in rows && p(e)) && Ordered(o, r.value.0)
      ensures r.Ok? && NumberArg(args, offsetPh) == 0 && |r.value.0| < NumberArg(args, limitPh) ==>
                forall e :: e in rows && p(e) ==> e in r.value.0
    {
      if !up {
        return Err(Unavailable);
      }
      var ok, page, count := RunSelect(clauses, args, o, limitPh, Some(offsetPh), p);
      if !ok {
        return Err(Unavailable);
      }
      var evts: seq<Event>, total := [], 0;
      for i := 0 to |page|
        invariant evts == page[..i]
        invariant total == if i == 0 then 0 else count
      {
        total := count;
        evts := evts + [page[i]];
      }
      assert evts == page;
      ListingShows(o, rows, p, NumberArg(args, limitPh), NumberArg(args, offsetPh), evts, total);
      r := Ok((evts, total));
    }

    method ListTimeline(tenantId: string, fromTime: Time, toTime: Time, limit: int, offset: int, up: bool)
      returns (r: Result<(seq<Event>, int), Error>)
      requires UniqueIds(rows)
      ensures r.Ok? <==> up && 0 <= limit && 0 <= offset
      ensures r.Ok? ==>
              IsListing(OccurredDesc, rows, InTimeline(tenantId, fromTime, toTime), limit, offset, r.value.0, r.value.1)
      ensures r.Ok? ==> forall e :: e in r.value.0 ==>
                && e in rows && e.tenantId == tenantId && (fromTime == ZERO_TIME || fromTime <= e.occurredAt)
                && (toTime == ZERO_TIME || e.occurredAt <= toTime)
      ensures r.Ok? && offset == 0 && |r.value.0| < limit ==>
                forall e :: && e in rows && e.tenantId == tenantId
                            && (fromTime == ZERO_TIME || fromTime <= e.occurredAt)
                            && (toTime == ZERO_TIME || e.occurredAt <= toTime)
                            ==> e in r.value.0
      ensures r.Ok? ==> forall i, j :: 0 <= i < j < |r.value.0| ==> r.value.0[i].occurredAt >= r.value.0[j].occurredAt
    {
      var b := BuildTimelineQuery(tenantId, fromTime, toTime);
      BoundArguments(b, [Number(limit), Number(offset)], InTimeline(tenantId, fromTime, toTime));
      r := ListWithCount(b.clauses, b.args + [Number(limit), Number(offset)], OccurredDesc, b.argIdx, b.argIdx + 1, up,
                         InTimeline(tenantId, fromTime, toTime));
    }

    method ListByCorrelationID(tenantId: string, correlationId: string, limit: int, offset: int, up: bool)
      returns (r: Result<(seq<Event>, int), Error>)
      requires UniqueIds(rows)
      ensures r.Ok? <==> up && 0 <= limit && 0 <= offset
      ensures r.Ok? ==>
              IsListing(OccurredDesc, rows, WithCorrelation(tenantId, correlationId), limit, offset, r.value.0,
                        r.value.1)
      ensures r.Ok? ==> forall e :: e in r.value.0 ==>
                e in rows && e.tenantId == tenantId && e.correlationId == correlationId
      ensures r.Ok? && offset == 0 && |r.value.0| < limit ==>
                forall e :: e in rows && e.tenantId == tenantId && e.correlationId == correlationId ==> e in r.value.0
      ensures r.Ok? ==> forall i, j :: 0 <= i < j < |r.value.0| ==> r.value.0[i].occurredAt >= r.value.0[j].occurredAt
    {
      var clauses := [Compare(TenantId, Equal, 1), Compare(CorrelationId, Equal, 2)];
      var args := [Text(tenantId), Text(correlationId), Number(limit), Number(offset)];
      FewClauses(clauses, args, WithCorrelation(tenantId, correlationId));
      r := ListWithCount(clauses, args, OccurredDesc, 3, 4, up, WithCorrelation(tenantId, correlationId));
    }

    method ListByCausationID(tenantId: string, causationId: string, limit: int, offset: int, up: bool)
      returns (r: Result<(seq<Event>, int), Error>)
      requires UniqueIds(rows)
      ensures r.Ok? <==> up && 0 <= limit && 0 <= offset
      ensures r.Ok? ==>
              IsListing(OccurredAsc, rows, WithCausation(tenantId, causationId), limit, offset, r.value.0, r.value.1)
      ensures r.Ok? ==> forall e :: e in r.value.0 ==>
                e in rows && e.tenantId == tenantId && e.causationId == causationId
      ensures r.Ok? && offset == 0 && |r.value.0| < limit ==>
                forall e :: e in rows && e.tenantId == tenantId && e.causationId == causationId ==> e in r.value.0
      ensures r.Ok? ==> forall i, j :: 0 <= i < j < |r.value.0| ==> r.value.0[i].occurredAt <= r.value.0[j].occurredAt
    {
      var clauses := [Compare(TenantId, Equal, 1), Compare(CausationId, Equal, 2)];
      var args := [Text(tenantId), Text(causationId), Number(limit), Number(offset)];
      FewClauses(clauses, args, WithCausation(tenantId, causationId));
      r := ListWithCount(clauses, args, OccurredAsc, 3, 4, up, WithCausation(tenantId, causationId));
    }
  }

  lemma FewClauses(clauses: seq<Clause>, args: seq<Value>, p: Event -> bool)
    requires 1 <= |clauses| <= 3
    requires forall row ::
               p(row) == (&& Holds(clauses[0], args, row)
                          && (|clauses| > 1 ==> Holds(clauses[1], args, row))
                          && (|clauses| > 2 ==> Holds(clauses[2], args, row)))
    ensures forall row :: AllHold(clauses, args, row) == p(row)
  {}

  /** What a filter asks for, field by field, oldest first. */
  lemma AskedFor(rows: seq<Event>, f: ReplayFilter, asked: seq<Event>)
    requires IsOrdering(OccurredAsc, rows, Matching(f), asked)
    ensures f.eventIds != [] ==> forall e :: e in asked <==>
              e in rows && e.id in f.eventIds && (f.tenantId == "" || e.tenantId == f.tenantId)
    ensures f.eventIds == [] ==> forall e :: e in asked <==>
              && e in rows && e.tenantId == f.tenantId
              && (f.streamId == "" || e.streamId == f.streamId)
              && (f.correlationId == "" || e.correlationId == f.correlationId)
              && (f.eventType == "" || e.kind == f.eventType) && (f.actorId == "" || e.actorId == f.actorId)
              && (f.fromTime == ZERO_TIME || f.fromTime <= e.occurredAt)
              && (f.toTime == ZERO_TIME || e.occurredAt <= f.toTime)
    ensures forall i, j :: 0 <= i < j < |asked| ==>
              asked[i].occurredAt <= asked[j].occurredAt && asked[i].id != asked[j].id
  {}

  /** The bounds' arguments are the ones their placeholders name, and disturb no clause. */
  lemma BoundArguments(b: Builder, bounds: seq<Value>, p: Event -> bool)
    requires Built(b, p)
    ensures forall i :: 0 <= i < |bounds| ==> Arg(b.args + bounds, b.argIdx + i) == bounds[i]
    ensures forall row :: AllHold(b.clauses, b.args + bounds, row) == p(row)
  {
    forall row ensures AllHold(b.clauses, b.args + bounds, row) == p(row) {
      OldClausesStable(b.clauses, b.args, bounds, row);
      assert AllHold(b.clauses, b.args, row) == p(row);
    }
  }
}
