/** The query Service (internal/application/query/service.go). */
module Query {
  import opened Collections
  import opened Events
  import opened Postgres
  import opened QueryBuilder
  import opened ReadModel
  import opened Sql
  import opened Versions

  const DEFAULT_LIMIT := 20
  const MAX_LIMIT := 100

  /** The page size served for a requested limit: the default when unset, and never above the cap. */
  function ClampLimit(limit: int): (r: nat)
    ensures 1 <= r <= 100
    ensures 1 <= limit <= 100 ==> r == limit
    ensures limit > 100 ==> r == 100
    ensures limit <= 0 ==> r == 20
  {
    Min(if limit <= 0 then DEFAULT_LIMIT else limit, MAX_LIMIT)
  }

  /** A page; `subject` is the stream, causing event or tenant it is about, `readModel` its source if stated. */
  datatype Listing = Listing(subject: string, events: seq<Event>, total: int, limit: int, offset: int,
                             readModel: string)

  /** The search that answers QueryByStream, after clamping. */
  function StreamSearch(tenantId: string, streamId: string, limit: int, offset: int): SearchQuery
  {
    SearchQuery(tenantId, streamId, ClampLimit(limit), Max(0, offset), false)
  }

  function FeedSearch(tenantId: string, limit: int, offset: int): SearchQuery
  {
    SearchQuery(tenantId, "", ClampLimit(limit), Max(0, offset), true)
  }

  class Service {
    const store: EventStore
    const searcher: Indexer

    constructor (store: EventStore, searcher: Indexer)
      ensures this.store == store && this.searcher == searcher
    {
      this.store, this.searcher := store, searcher;
    }

    method Clamp(limit: int, offset: int) returns (l: int, o: int)
      ensures l == ClampLimit(limit) && o == Max(0, offset)
    {
      l, o := limit, offset;
      if l <= 0 {
        l := DEFAULT_LIMIT;
      }
      if l > MAX_LIMIT {
        l := MAX_LIMIT;
      }
      if o < 0 {
        o := 0;
      }
    }

    /** A page of a stream from the read model, always scoped to the caller's tenant. */
    method QueryByStream(identity: Option<string>, streamId: string, limit: int, offset: int, up: bool)
      returns (r: Result<Listing, Error>)
      requires KeyedById(searcher.docs)
      ensures r == Err(Unauthenticated) <==> identity.None? || identity.value == ""
      ensures r == Err(InvalidArgument) <==> identity.Some? && identity.value != "" && streamId == ""
      ensures r.Ok? <==> identity.Some? && identity.value != "" && streamId != "" && up
      ensures r.Ok? ==>
              && IsSearchAnswer(searcher.docs, StreamSearch(identity.value, streamId, limit, offset),
                                r.value.events, r.value.total)
              && r.value.limit == (if limit <= 0 then 20 else if limit <= 100 then limit else 100)
              && r.value.offset == (if offset < 0 then 0 else offset)
              && r.value.subject == streamId && r.value.readModel == "elasticsearch"
      ensures r.Ok? ==> forall e :: e in r.value.events ==>
                e in searcher.docs.Values && e.streamId == streamId && e.tenantId == identity.value
      ensures r.Ok? && offset <= 0 && |r.value.events| < r.value.limit ==>
                forall e :: && e in searcher.docs.Values && e.streamId == streamId && e.tenantId == identity.value
                            ==> e in r.value.events
      ensures r.Ok? ==> forall i, j :: 0 <= i < j < |r.value.events| ==>
                r.value.events[i].version <= r.value.events[j].version
    {
      if !Authenticated(identity) {
        return Err(Unauthenticated);
      }
      if streamId == "" {
        return Err(InvalidArgument);
      }
      var l, o := Clamp(limit, offset);
      var found := searcher.Search(SearchQuery(identity.value, streamId, l, o, false), up);
      if found.Err? {
        return Err(Unavailable);
      }
      r := Ok(Listing(streamId, found.value.0, found.value.1, l, o, "elasticsearch"));
    }

    /** All of the tenant's events: by correlation id from the store, otherwise from the read model. */
    method ListAll(identity: Option<string>, correlationId: string, limit: int, offset: int, up: bool)
      returns (r: Result<Listing, Error>)
      requires KeyedById(searcher.docs) && UniqueIds(store.rows)
      ensures r == Err(Unauthenticated) <==> identity.None? || identity.value == ""
      ensures r.Ok? <==> identity.Some? && identity.value != "" && up
      ensures r.Ok? && correlationId != "" ==>
              && IsListing(OccurredDesc, store.rows, WithCorrelation(identity.value, correlationId),
                           ClampLimit(limit), Max(0, offset), r.value.events, r.value.total)
              && r.value.readModel == "postgres"
      ensures r.Ok? && correlationId == "" ==>
              && IsSearchAnswer(searcher.docs, FeedSearch(identity.value, limit, offset), r.value.events, r.value.total)
              && r.value.readModel == "elasticsearch"
      ensures r.Ok? ==>
              && r.value.limit == (if limit <= 0 then 20 else if limit <= 100 then limit else 100)
              && r.value.offset == (if offset < 0 then 0 else offset)
      ensures r.Ok? && correlationId != "" ==> forall e :: e in r.value.events ==>
                e in store.rows && e.tenantId == identity.value && e.correlationId == correlationId
      ensures r.Ok? && correlationId != "" && offset <= 0 && |r.value.events| < r.value.limit ==>
                forall e :: && e in store.rows && e.tenantId == identity.value && e.correlationId == correlationId
                            ==> e in r.value.events
      ensures r.Ok? && correlationId != "" ==> forall i, j :: 0 <= i < j < |r.value.events| ==>
                r.value.events[i].occurredAt >= r.value.events[j].occurredAt
      ensures r.Ok? && correlationId == "" ==> forall e :: e in r.value.events ==>
                e in searcher.docs.Values && e.tenantId == identity.value
      ensures r.Ok? && correlationId == "" && offset <= 0 && |r.value.events| < r.value.limit ==>
                forall e :: && e in searcher.docs.Values && e.tenantId == identity.value
                            ==> e in r.value.events
      ensures r.Ok? && correlationId == "" ==> forall i, j :: 0 <= i < j < |r.value.events| ==>
                r.value.events[i].occurredAt / 1_000_000 >= r.value.events[j].occurredAt / 1_000_000
    {
      if !Authenticated(identity) {
        return Err(Unauthenticated);
      }
      var l, o := Clamp(limit, offset);
      if correlationId != "" {
        var listed := store.ListByCorrelationID(identity.value, correlationId, l, o, up);
        if listed.Err? {
          return Err(Unavailable);
        }
        return Ok(Listing("", listed.value.0, listed.value.1, l, o, "postgres"));
      }
      var found := searcher.Search(SearchQuery(identity.value, "", l, o, true), up);
      if found.Err? {
        return Err(Unavailable);
      }
      r := Ok(Listing("", found.value.0, found.value.1, l, o, "elasticsearch"));
    }

    method ListByCausationID(identity: Option<string>, eventId: string, limit: int, offset: int, up: bool)
      returns (r: Result<Listing, Error>)
      requires UniqueIds(store.rows)
      ensures r == Err(Unauthenticated) <==> identity.None? || identity.value == ""
      ensures r == Err(InvalidArgument) <==> identity.Some? && identity.value != "" && eventId == ""
      ensures r.Ok? <==> identity.Some? && identity.value != "" && eventId != "" && up
      ensures r.Ok? ==> IsListing(OccurredAsc, store.rows, WithCausation(identity.value, eventId),
                                  ClampLimit(limit), Max(0, offset), r.value.events, r.value.total)
      ensures r.Ok? ==>
              && r.value.limit == (if limit <= 0 then 20 else if limit <= 100 then limit else 100)
              && r.value.offset == (if offset < 0 then 0 else offset)
              && r.value.subject == eventId
      ensures r.Ok? ==> forall e :: e in r.value.events ==>
                e in store.rows && e.tenantId == identity.value && e.causationId == eventId
      ensures r.Ok? && offset <= 0 && |r.value.events| < r.value.limit ==>
                forall e :: && e in store.rows && e.tenantId == identity.value && e.causationId == eventId
                            ==> e in r.value.events
      ensures r.Ok? ==> forall i, j :: 0 <= i < j < |r.value.events| ==>
                r.value.events[i].occurredAt <= r.value.events[j].occurredAt
    {
      if !Authenticated(identity) {
        return Err(Unauthenticated);
      }
      if eventId == "" {
        return Err(InvalidArgument);
      }
      var l, o := Clamp(limit, offset);
      var listed := store.ListByCausationID(identity.value, eventId, l, o, up);
      if listed.Err? {
        return Err(Unavailable);
      }
      r := Ok(Listing(eventId, listed.value.0, listed.value.1, l, o, ""));
    }

    method GetTimeline(identity: Option<string>, fromTime: Time, toTime: Time, limit: int, offset: int, up: bool)
      returns (r: Result<Listing, Error>)
      requires UniqueIds(store.rows)
      ensures r == Err(Unauthenticated) <==> identity.None? || identity.value == ""
      ensures r.Ok? <==> identity.Some? && identity.value != "" && up
      ensures r.Ok? ==> IsListing(OccurredDesc, store.rows, InTimeline(identity.value, fromTime, toTime),
                                  ClampLimit(limit), Max(0, offset), r.value.events, r.value.total)
      ensures r.Ok? ==>
              && r.value.limit == (if limit <= 0 then 20 else if limit <= 100 then limit else 100)
              && r.value.offset == (if offset < 0 then 0 else offset)
              && r.value.subject == identity.value
      ensures r.Ok? ==> forall e :: e in r.value.events ==>
                e in store.rows && e.tenantId == identity.value && (fromTime == ZERO_TIME || fromTime <= e.occurredAt)
                && (toTime == ZERO_TIME || e.occurredAt <= toTime)
      ensures r.Ok? && offset <= 0 && |r.value.events| < r.value.limit ==>
                forall e :: && e in store.rows && e.tenantId == identity.value
                            && (fromTime == ZERO_TIME || fromTime <= e.occurredAt)
                            && (toTime == ZERO_TIME || e.occurredAt <= toTime)
                            ==> e in r.value.events
      ensures r.Ok? ==> forall i, j :: 0 <= i < j < |r.value.events| ==>
                r.value.events[i].occurredAt >= r.value.events[j].occurredAt
    {
      if !Authenticated(identity) {
        return Err(Unauthenticated);
      }
      var l, o := Clamp(limit, offset);
      var listed := store.ListTimeline(identity.value, fromTime, toTime, l, o, up);
      if listed.Err? {
        return Err(Unavailable);
      }
      r := Ok(Listing(identity.value, listed.value.0, listed.value.1, l, o, ""));
    }

    /** The row of an id, for its own tenant only: to any other tenant it is as if it did not exist. */
    method GetByID(identity: Option<string>, id: string, up: bool) returns (r: Result<Event, Error>)
      requires UniqueIds(store.rows)
      ensures r == Err(Unauthenticated) <==> identity.None? || identity.value == ""
      ensures r.Ok? <==> identity.Some? && identity.value != "" && up
                         && (exists e :: e in store.rows && e.id == id && e.tenantId == identity.value)
      ensures r.Ok? ==> r.value in store.rows && r.value.id == id && r.value.tenantId == identity.value
      ensures r == Err(NotFound) <==>
              && identity.Some? && identity.value != "" && up
              && forall e :: e in store.rows && e.id == id ==> e.tenantId != identity.value
    {
      if !Authenticated(identity) {
        return Err(Unauthenticated);
      }
      var e := store.GetByID(id, up);
      if e.Err? {
        return Err(if e.error == NotFound then NotFound else Unavailable);
      }
      forall x | x in store.rows && x.id == id ensures x == e.value {
        IdNamesRow(store.rows, x, e.value);
      }
      if e.value.tenantId != identity.value {
        return Err(NotFound);
      }
      r := e;
    }
  }

  /**
   * If a tenant's documents of a stream are the stored rows that satisfy `p`, QueryByStream returns
   * the clamped slice of those rows in version order, with their number as the total.
   */
  lemma {:induction false} StreamPageIsStoreSlice(rows: seq<Event>, docs: map<string, Event>, tenantId: string,
                                                  streamId: string, limit: int, offset: int, p: Event -> bool,
                                                  hits: seq<Event>, total: int)
    requires Valid(rows) && tenantId != "" && streamId != ""
    requires forall e :: p(e) ==> e.streamId == streamId
    requires forall e: Event ::
               e in docs.Values && e.tenantId == tenantId && e.streamId == streamId <==> e in rows && p(e)
    requires IsSearchAnswer(docs, StreamSearch(tenantId, streamId, limit, offset), hits, total)
    ensures hits == Page(Filter(rows, p), Max(0, offset), ClampLimit(limit)) && total == |Filter(rows, p)|
  {
    var q := StreamSearch(tenantId, streamId, limit, offset);
    var full :| IsHitList(docs, Wanted(q), q.byOccurredAtDesc, full)
                && hits == Page(full, q.offset, q.limit) && total == |full|;
    HitsAreStreamRows(rows, docs, q, p, full);
  }
}
