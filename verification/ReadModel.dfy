/** The document index (internal/infrastructure/elasticsearch/indexer.go): upsert by id, filtered sorted search. */
module ReadModel {
  import opened Collections
  import opened Delivery
  import opened Events
  import opened Versions

  datatype SearchQuery = SearchQuery(tenantId: string, streamId: string, limit: int, offset: int,
                                     byOccurredAtDesc: bool)

  /** A `term` clause of the query. */
  datatype Term = StreamTerm(value: string) | TenantTerm(value: string)

  predicate TermHolds(t: Term, e: Event)
  {
    match t
    case StreamTerm(v) => e.streamId == v
    case TenantTerm(v) => e.tenantId == v
  }

  function AllTerms(terms: seq<Term>): Event -> bool
  {
    (e: Event) => forall t :: t in terms ==> TermHolds(t, e)
  }

  /** The documents a query asks for, read from its fields. */
  function Wanted(q: SearchQuery): Event -> bool
  {
    (e: Event) => (q.streamId == "" || e.streamId == q.streamId) && (q.tenantId == "" || e.tenantId == q.tenantId)
  }

  /** The precision at which the mapping's type `date` keeps and sorts a time: milliseconds. */
  function Millis(t: Time): int
  {
    t / 1_000_000
  }

  /** The two sort orders: version then id, ascending; or occurred_at then id, descending. */
  function HitOrder(desc: bool): (Event, Event) -> bool
  {
    (a: Event, b: Event) =>
      if desc
      then Millis(b.occurredAt) < Millis(a.occurredAt)
           || (Millis(a.occurredAt) == Millis(b.occurredAt) && Lex(b.id, a.id))
      else a.version < b.version || (a.version == b.version && Lex(a.id, b.id))
  }

  lemma HitOrderStrict(desc: bool)
    ensures StrictOrder(HitOrder(desc))
  {
    var lt := HitOrder(desc);
    forall a ensures !lt(a, a) {
      LexIrreflexive(a.id);
    }
    forall a, b, c | lt(a, b) && lt(b, c) ensures lt(a, c) {
      if Lex(a.id, b.id) && Lex(b.id, c.id) {
        LexTransitive(a.id, b.id, c.id);
      }
      if Lex(c.id, b.id) && Lex(b.id, a.id) {
        LexTransitive(c.id, b.id, a.id);
      }
    }
  }

  lemma HitOrderTotal(desc: bool, a: Event, b: Event)
    requires a.id != b.id
    ensures HitOrder(desc)(a, b) || HitOrder(desc)(b, a)
  {
    LexTotal(a.id, b.id);
  }

  ghost predicate KeyedById(docs: map<string, Event>)
  {
    forall id :: id in docs ==> docs[id].id == id
  }

  /** All documents that satisfy `p`, each once, in the query's order. */
  ghost predicate IsHitList(docs: map<string, Event>, p: Event -> bool, desc: bool, full: seq<Event>)
  {
    Ascending(full, HitOrder(desc)) && forall e :: e in full <==> e in docs.Values && p(e)
  }

  ghost predicate IsSearchAnswer(docs: map<string, Event>, q: SearchQuery, hits: seq<Event>, total: int)
  {
    && 0 <= q.limit && 0 <= q.offset
    && exists full :: IsHitList(docs, Wanted(q), q.byOccurredAtDesc, full)
                      && hits == Page(full, q.offset, q.limit) && total == |full|
  }

  /** An answer shows wanted documents only, in order, and all of them if it starts the list and is not full. */
  lemma AnswerShows(docs: map<string, Event>, q: SearchQuery, hits: seq<Event>, total: int)
    requires IsSearchAnswer(docs, q, hits, total)
    ensures forall e :: e in hits ==> e in docs.Values && Wanted(q)(e)
    ensures q.offset == 0 && |hits| < q.limit ==> forall e :: e in docs.Values && Wanted(q)(e) ==> e in hits
    ensures Ascending(hits, HitOrder(q.byOccurredAtDesc))
  {
    var full :| IsHitList(docs, Wanted(q), q.byOccurredAtDesc, full)
                && hits == Page(full, q.offset, q.limit) && total == |full|;
    PageShows(full, q.offset, q.limit);
    PageAscends(full, q.offset, q.limit, HitOrder(q.byOccurredAtDesc));
  }

  /** The sort orders are total, so a query has one full answer. */
  lemma HitListUnique(docs: map<string, Event>, p: Event -> bool, desc: bool, a: seq<Event>, b: seq<Event>)
    requires IsHitList(docs, p, desc, a) && IsHitList(docs, p, desc, b)
    ensures a == b
  {
    HitOrderStrict(desc);
    AscendingUnique(a, b, HitOrder(desc));
  }

  /** Searching page after page over an unchanged index shows every match exactly once, in order. */
  lemma {:induction false} SearchPagesPartition(docs: map<string, Event>, q: SearchQuery, pages: seq<seq<Event>>,
                                                totals: seq<int>, full: seq<Event>)
    requires 1 <= q.limit && |totals| == |pages|
    requires forall k :: 0 <= k < |pages| ==>
               IsSearchAnswer(docs, q.(offset := PageStart(k, q.limit)), pages[k], totals[k])
    requires IsHitList(docs, Wanted(q), q.byOccurredAtDesc, full)
    ensures Flatten(pages) == full[..Min(|full|, PageStart(|pages|, q.limit))]
    ensures forall k :: 0 <= k < |pages| ==> totals[k] == |full|
  {
    forall k | 0 <= k < |pages|
      ensures PageAt(full, q.limit, k, pages[k]) && totals[k] == |full|
    {
      var qk := q.(offset := PageStart(k, q.limit));
      assert IsSearchAnswer(docs, qk, pages[k], totals[k]);
      var other :| IsHitList(docs, Wanted(qk), q.byOccurredAtDesc, other)
                   && pages[k] == Page(other, qk.offset, q.limit) && totals[k] == |other|;
      assert IsHitList(docs, Wanted(q), q.byOccurredAtDesc, other);
      HitListUnique(docs, Wanted(q), q.byOccurredAtDesc, full, other);
    }
    PagesConcatenate(full, q.limit, pages);
  }

  /**
   * If the documents of a stream query are the stored rows that satisfy `p`, its full hit list is
   * those rows in commit order: sorting by version and id restores the order of the store.
   */
  lemma HitsAreStreamRows(rows: seq<Event>, docs: map<string, Event>, q: SearchQuery, p: Event -> bool,
                          full: seq<Event>)
    requires Valid(rows) && !q.byOccurredAtDesc
    requires forall e :: p(e) ==> e.streamId == q.streamId
    requires forall e :: e in docs.Values && Wanted(q)(e) <==> e in rows && p(e)
    requires IsHitList(docs, Wanted(q), false, full)
    ensures full == Filter(rows, p)
  {
    var own := Filter(rows, p);
    FilteredVersionsRise(rows, p, q.streamId);
    HitOrderStrict(false);
    assert Ascending(own, HitOrder(false));
    AscendingUnique(full, own, HitOrder(false));
  }

  class Indexer {
    var docs: map<string, Event>

    constructor ()
      ensures docs == map[]
    {
      docs := map[];
    }

    /** One index request: the document of the event's id is created or overwritten. */
    method Index(e: Event, written: bool, acked: bool) returns (ok: bool)
      modifies this
      ensures ok == acked
      ensures docs == if written || acked then Upsert(old(docs), e) else old(docs)
    {
      if written || acked {
        docs := docs[e.id := e];
      }
      ok := acked;
    }

    /** The engine's evaluation of a query body; negative bounds are request errors. */
    method RunSearch(terms: seq<Term>, desc: bool, from: int, size: int)
      returns (ok: bool, hits: seq<Event>, total: int, ghost full: seq<Event>)
      requires KeyedById(docs)
      ensures ok <==> 0 <= from && 0 <= size
      ensures ok ==> IsHitList(docs, AllTerms(terms), desc, full) && hits == Page(full, from, size) && total == |full|
    {
      if from < 0 || size < 0 {
        return false, [], 0, [];
      }
      var found: seq<Event> := [];
      var keys := docs.Keys;
      while keys != {}
        invariant keys <= docs.Keys && Ascending(found, HitOrder(desc))
        invariant forall e :: e in found <==> e.id in docs.Keys - keys && docs[e.id] == e && AllTerms(terms)(e)
        decreases keys
      {
        var id :| id in keys;
        keys := keys - {id};
        if AllTerms(terms)(docs[id]) {
          HitOrderStrict(desc);
          forall e | e in found ensures HitOrder(desc)(e, docs[id]) || HitOrder(desc)(docs[id], e) {
            HitOrderTotal(desc, e, docs[id]);
          }
          PlaceAscending(found, docs[id], HitOrder(desc));
          found := Place(found, docs[id], HitOrder(desc));
        }
      }
      return true, Page(found, from, size), |found|, found;
    }

    method Search(q: SearchQuery, up: bool) returns (r: Result<(seq<Event>, int), Error>)
      requires KeyedById(docs)
      ensures r.Ok? <==> up && 0 <= q.limit && 0 <= q.offset
      ensures r.Ok? ==> IsSearchAnswer(docs, q, r.value.0, r.value.1)
      ensures r.Ok? ==> forall e :: e in r.value.0 ==>
                && e in docs.Values
                && (q.streamId == "" || e.streamId == q.streamId) && (q.tenantId == "" || e.tenantId == q.tenantId)
      ensures r.Ok? && q.offset == 0 && |r.value.0| < q.limit ==>
                forall e :: && e in docs.Values && (q.streamId == "" || e.streamId == q.streamId)
                            && (q.tenantId == "" || e.tenantId == q.tenantId)
                            ==> e in r.value.0
      ensures r.Ok? ==> forall i, j :: 0 <= i < j < |r.value.0| ==>
                if q.byOccurredAtDesc then r.value.0[i].occurredAt / 1_000_000 >= r.value.0[j].occurredAt / 1_000_000
                else r.value.0[i].version <= r.value.0[j].version
      ensures r.Ok? ==> forall i, j :: 0 <= i < j < |r.value.0| ==>
                if q.byOccurredAtDesc
                then r.value.0[i].occurredAt / 1_000_000 == r.value.0[j].occurredAt / 1_000_000 ==>
                       Lex(r.value.0[j].id, r.value.0[i].id)
                else r.value.0[i].version == r.value.0[j].version ==> Lex(r.value.0[i].id, r.value.0[j].id)
    {
      var filters: seq<Term> := [];
      if q.streamId != "" {
        filters := filters + [StreamTerm(q.streamId)];
      }
      if q.tenantId != "" {
        filters := filters + [TenantTerm(q.tenantId)];
      }
      if !up {
        return Err(Unavailable);
      }
      var ok, hits, total, full := RunSearch(filters, q.byOccurredAtDesc, q.offset, q.limit);
      if !ok {
        return Err(Unavailable);
      }
      var events: seq<Event> := [];
      for i := 0 to |hits|
        invariant events == hits[..i]
      {
        events := events + [hits[i]];
      }
      assert events == hits;
      TermsMeanQuery(q, filters);
      assert IsHitList(docs, Wanted(q), q.byOccurredAtDesc, full);
      AnswerShows(docs, q, events, total);
      r := Ok((events, total));
    }
  }

  lemma TermsMeanQuery(q: SearchQuery, terms: seq<Term>)
    requires terms == (if q.streamId != "" then [StreamTerm(q.streamId)] else [])
                      + (if q.tenantId != "" then [TenantTerm(q.tenantId)] else [])
    ensures forall e :: AllTerms(terms)(e) == Wanted(q)(e)
  {
    forall e ensures AllTerms(terms)(e) == Wanted(q)(e) {
      assert q.streamId != "" ==> StreamTerm(q.streamId) in terms;
      assert q.tenantId != "" ==> TenantTerm(q.tenantId) in terms;
    }
  }
}
