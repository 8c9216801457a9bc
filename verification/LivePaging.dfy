/**
 * Paging while the platform runs: every page is answered from the table or index as it is by then, which
 * holds all that it held before and perhaps more.
 */
module LivePaging {
  import opened Collections
  import opened Events
  import opened Guarantees
  import opened GrowingLists
  import opened Pipeline
  import opened ReadModel
  import opened Sql
  import opened Versions

  // ----- The store's listings -----

  ghost predicate GrowingTables(tables: seq<seq<Event>>)
  {
    tables != [] && AppendOnly(tables)
  }

  /** Page k is answered from table k; asked for after a full page, until the end of the list is reached. */
  ghost predicate LivePages(o: Order, tables: seq<seq<Event>>, p: Event -> bool, limit: nat, pages: seq<seq<Event>>)
  {
    && limit >= 1 && tables != [] && |pages| == |tables|
    && (forall k :: 0 <= k < |pages| ==> IsPage(o, tables[k], p, limit, k, pages[k]))
    && (forall k :: 0 <= k < |pages| - 1 ==> |pages[k]| == limit)
    && |Filter(tables[|tables| - 1], p)| <= PageStart(|tables|, limit)
  }

  function KeyOrder(o: Order): (Event, Event) -> bool
  {
    (a: Event, b: Event) => Key(o, a) < Key(o, b)
  }

  function SortedLists(o: Order, tables: seq<seq<Event>>, p: Event -> bool): (lists: seq<seq<Event>>)
    ensures |lists| == |tables| && forall k :: 0 <= k < |lists| ==> lists[k] == Sort(o, Filter(tables[k], p))
  {
    seq(|tables|, k requires 0 <= k < |tables| => Sort(o, Filter(tables[k], p)))
  }

  /** Rows and keys are as distinct in an earlier table as in the last. */
  lemma EarlierTable(o: Order, rows: seq<Event>, later: seq<Event>, p: Event -> bool)
    requires rows <= later && UniqueIds(later) && DistinctKeys(o, later, p)
    ensures UniqueIds(rows) && DistinctKeys(o, rows, p)
    ensures IsOrdering(o, rows, p, Sort(o, Filter(rows, p)))
    ensures Ascending(Sort(o, Filter(rows, p)), KeyOrder(o))
  {
    forall a, b | a in rows && p(a) && b in rows && p(b) && Key(o, a) == Key(o, b) ensures a == b {
      assert a in later && b in later;
    }
    SortIsOrdering(o, rows, p);
    DistinctAscends(o, rows, p, Sort(o, Filter(rows, p)));
  }

  lemma DistinctAscends(o: Order, rows: seq<Event>, p: Event -> bool, full: seq<Event>)
    requires IsOrdering(o, rows, p, full) && DistinctKeys(o, rows, p)
    ensures Ascending(full, KeyOrder(o))
  {
    forall i, j | 0 <= i < j < |full| ensures KeyOrder(o)(full[i], full[j]) {
      assert full[i] in full && full[j] in full && full[i].id != full[j].id;
    }
  }

  lemma LiveIsGrowing(o: Order, tables: seq<seq<Event>>, p: Event -> bool)
    requires GrowingTables(tables) && UniqueIds(tables[|tables| - 1]) && DistinctKeys(o, tables[|tables| - 1], p)
    ensures Growing(SortedLists(o, tables, p), KeyOrder(o))
  {
    var lists := SortedLists(o, tables, p);
    forall k | 0 <= k < |lists|
      ensures Ascending(lists[k], KeyOrder(o)) && IsOrdering(o, tables[k], p, lists[k])
    {
      PrefixOfLast(tables, k);
      EarlierTable(o, tables[k], tables[|tables| - 1], p);
    }
    forall k | 0 <= k < |lists| - 1 ensures KeepsAll(lists, k) {
      assert AppendedAt(tables, k);
    }
  }

  lemma LivePageAt(o: Order, rows: seq<Event>, later: seq<Event>, p: Event -> bool, limit: nat, k: nat,
                   page: seq<Event>)
    requires rows <= later && UniqueIds(later) && DistinctKeys(o, later, p) && IsPage(o, rows, p, limit, k, page)
    ensures PageAt(Sort(o, Filter(rows, p)), limit, k, page) && |Sort(o, Filter(rows, p))| == |Filter(rows, p)|
  {
    EarlierTable(o, rows, later, p);
    var answer :| IsOrdering(o, rows, p, answer) && page == Page(answer, PageStart(k, limit), limit);
    OrderingUnique(o, rows, p, Sort(o, Filter(rows, p)), answer);
  }

  lemma LiveIsReading(o: Order, tables: seq<seq<Event>>, p: Event -> bool, limit: nat, pages: seq<seq<Event>>)
    requires GrowingTables(tables) && UniqueIds(tables[|tables| - 1]) && DistinctKeys(o, tables[|tables| - 1], p)
    requires LivePages(o, tables, p, limit, pages)
    ensures ReadsToEnd(SortedLists(o, tables, p), limit, pages)
  {
    var lists := SortedLists(o, tables, p);
    forall k | 0 <= k < |lists| ensures PageAt(lists[k], limit, k, pages[k]) && |lists[k]| == |Filter(tables[k], p)| {
      PrefixOfLast(tables, k);
      LivePageAt(o, tables[k], tables[|tables| - 1], p, limit, k, pages[k]);
    }
  }

  ghost function MatchesBefore(o: Order, rows: seq<Event>, p: Event -> bool, y: Event): set<Event>
  {
    set e | e in rows && p(e) && Key(o, e) < Key(o, y)
  }

  /** Before request k a match was stored that sorts in front of the page then asked for. */
  ghost predicate NewInFront(o: Order, tables: seq<seq<Event>>, p: Event -> bool, limit: nat, k: nat, y: Event)
  {
    && 0 < k < |tables| && y in tables[k] && y !in tables[k - 1] && p(y)
    && |MatchesBefore(o, tables[k], p, y)| < PageStart(k, limit)
  }

  lemma SortedListOf(o: Order, tables: seq<seq<Event>>, p: Event -> bool, k: nat)
    requires GrowingTables(tables) && UniqueIds(tables[|tables| - 1]) && DistinctKeys(o, tables[|tables| - 1], p)
    requires k < |tables|
    ensures Ascending(SortedLists(o, tables, p)[k], KeyOrder(o))
    ensures forall y :: y in SortedLists(o, tables, p)[k] <==> y in tables[k] && p(y)
  {
    PrefixOfLast(tables, k);
    EarlierTable(o, tables[k], tables[|tables| - 1], p);
  }

  lemma PosIsMatchesBefore(o: Order, rows: seq<Event>, p: Event -> bool, full: seq<Event>, y: Event)
    requires Ascending(full, KeyOrder(o)) && y in full && forall e :: e in full <==> e in rows && p(e)
    ensures Pos(full, y) == |MatchesBefore(o, rows, p, y)|
  {
    PosIsCount(full, KeyOrder(o), y, MatchesBefore(o, rows, p, y));
  }

  lemma NewInFrontOvertakes(o: Order, tables: seq<seq<Event>>, p: Event -> bool, limit: nat, k: nat, y: Event)
    requires GrowingTables(tables) && UniqueIds(tables[|tables| - 1]) && DistinctKeys(o, tables[|tables| - 1], p)
    ensures NewInFront(o, tables, p, limit, k, y) <==> Overtakes(SortedLists(o, tables, p), limit, k, y)
  {
    if 0 < k < |tables| {
      SortedListOf(o, tables, p, k);
      SortedListOf(o, tables, p, k - 1);
      SameOvertaker(o, tables, SortedLists(o, tables, p), p, limit, k, y);
    }
  }

  lemma SameOvertaker(o: Order, tables: seq<seq<Event>>, lists: seq<seq<Event>>, p: Event -> bool, limit: nat,
                      k: nat, y: Event)
    requires 0 < k < |tables| == |lists| && Ascending(lists[k], KeyOrder(o))
    requires forall e :: e in lists[k] <==> e in tables[k] && p(e)
    requires forall e :: e in lists[k - 1] <==> e in tables[k - 1] && p(e)
    ensures NewInFront(o, tables, p, limit, k, y) <==> Overtakes(lists, limit, k, y)
  {
    if y in lists[k] {
      PosIsMatchesBefore(o, tables[k], p, lists[k], y);
    }
  }

  /**
   * Main result. Paging through a listing while events are stored, with distinct keys: no match of the
   * first table is lost, and some row is shown twice iff before some request a new match sorts in front of
   * the page then asked for.
   */
  lemma {:induction false} GrowingTablePaging(o: Order, tables: seq<seq<Event>>, p: Event -> bool, limit: nat,
                                              pages: seq<seq<Event>>)
    requires GrowingTables(tables) && UniqueIds(tables[|tables| - 1]) && DistinctKeys(o, tables[|tables| - 1], p)
    requires LivePages(o, tables, p, limit, pages)
    ensures forall x :: x in tables[0] && p(x) ==> Shown(pages, x)
    ensures Repeats(pages) <==> exists k, y :: NewInFront(o, tables, p, limit, k, y)
  {
    var lists := SortedLists(o, tables, p);
    LiveIsGrowing(o, tables, p);
    LiveIsReading(o, tables, p, limit, pages);
    NoneLost(lists, KeyOrder(o), limit, pages);
    RepeatsExactly(lists, KeyOrder(o), limit, pages);
    PrefixOfLast(tables, 0);
    EarlierTable(o, tables[0], tables[|tables| - 1], p);
    forall k: nat, y
      ensures NewInFront(o, tables, p, limit, k, y) <==> Overtakes(lists, limit, k, y)
    {
      NewInFrontOvertakes(o, tables, p, limit, k, y);
    }
  }

  function FilteredLists(tables: seq<seq<Event>>, p: Event -> bool): (lists: seq<seq<Event>>)
    ensures |lists| == |tables| && forall k :: 0 <= k < |lists| ==> lists[k] == Filter(tables[k], p)
  {
    seq(|tables|, k requires 0 <= k < |tables| => Filter(tables[k], p))
  }

  lemma StreamPageAt(rows: seq<Event>, p: Event -> bool, stream: string, limit: nat, k: nat, page: seq<Event>)
    requires Valid(rows) && (forall e :: p(e) ==> e.streamId == stream) && IsPage(ByVersion, rows, p, limit, k, page)
    ensures PageAt(Filter(rows, p), limit, k, page)
  {
    var answer :| IsOrdering(ByVersion, rows, p, answer) && page == Page(answer, PageStart(k, limit), limit);
    VersionOrderIsCommitOrder(rows, p, stream, answer);
  }

  lemma FilterGrows(rows: seq<Event>, later: seq<Event>, p: Event -> bool)
    requires rows <= later
    ensures Filter(rows, p) <= Filter(later, p)
  {
    assert later == rows + later[|rows|..];
    FilterConcat(rows, later[|rows|..], p);
  }

  lemma PrefixIsValid(rows: seq<Event>, later: seq<Event>)
    requires rows <= later && Valid(later)
    ensures Valid(rows)
  {
    assert later[..|rows|] == rows;
    GapFreePrefix(later, |rows|);
  }

  lemma FilteredIsReading(tables: seq<seq<Event>>, p: Event -> bool, stream: string, limit: nat,
                          pages: seq<seq<Event>>)
    requires GrowingTables(tables) && Valid(tables[|tables| - 1])
    requires (forall e :: p(e) ==> e.streamId == stream) && LivePages(ByVersion, tables, p, limit, pages)
    ensures ReadsToEnd(FilteredLists(tables, p), limit, pages)
  {
    var lists := FilteredLists(tables, p);
    forall k | 0 <= k < |lists| ensures PageAt(lists[k], limit, k, pages[k]) {
      assert IsPage(ByVersion, tables[k], p, limit, k, pages[k]);
      PrefixOfLast(tables, k);
      PrefixIsValid(tables[k], tables[|tables| - 1]);
      StreamPageAt(tables[k], p, stream, limit, k, pages[k]);
    }
  }

  lemma FilteredAppends(tables: seq<seq<Event>>, p: Event -> bool)
    requires GrowingTables(tables)
    ensures AppendOnly(FilteredLists(tables, p))
  {
    var lists := FilteredLists(tables, p);
    forall k | 0 <= k < |lists| - 1 ensures AppendedAt(lists, k) {
      assert AppendedAt(tables, k);
      FilterGrows(tables[k], tables[k + 1], p);
    }
  }

  /** A stream's rows by version never repeat, and those stored meanwhile are shown as well. */
  lemma {:induction false} GrowingStreamPaging(tables: seq<seq<Event>>, p: Event -> bool, stream: string, limit: nat,
                                               pages: seq<seq<Event>>)
    requires GrowingTables(tables) && Valid(tables[|tables| - 1])
    requires (forall e :: p(e) ==> e.streamId == stream) && LivePages(ByVersion, tables, p, limit, pages)
    ensures Flatten(pages) == Filter(tables[|tables| - 1], p)
  {
    FilteredIsReading(tables, p, stream, limit, pages);
    FilteredReading(tables, p, limit, pages);
  }

  lemma FilteredReading(tables: seq<seq<Event>>, p: Event -> bool, limit: nat, pages: seq<seq<Event>>)
    requires GrowingTables(tables) && ReadsToEnd(FilteredLists(tables, p), limit, pages)
    ensures Flatten(pages) == Filter(tables[|tables| - 1], p)
  {
    FilteredAppends(tables, p);
    AppendOnlyReading(FilteredLists(tables, p), limit, pages);
  }

  // ----- The read model -----

  ghost predicate GrowingIndex(docs: seq<map<string, Event>>)
  {
    docs != [] && forall k :: 0 <= k < |docs| - 1 ==> DocumentsStay(docs[k], docs[k + 1])
  }

  ghost predicate DocumentsStay(docs: map<string, Event>, later: map<string, Event>)
  {
    forall e :: e in docs.Values ==> e in later.Values
  }

  /** Some answer to the request for page k shows these hits. */
  ghost predicate IsHitPage(docs: map<string, Event>, q: SearchQuery, k: nat, page: seq<Event>)
    requires q.limit >= 0
  {
    exists total :: IsSearchAnswer(docs, PageQuery(q, k), page, total)
  }

  /** List k is the full answer of index k. */
  ghost predicate HitLists(docs: seq<map<string, Event>>, q: SearchQuery, lists: seq<seq<Event>>)
  {
    |lists| == |docs| && forall k :: 0 <= k < |docs| ==> IsHitList(docs[k], Wanted(q), q.byOccurredAtDesc, lists[k])
  }

  /** Page k is answered from index k, whose hits in full are list k. */
  ghost predicate LiveHits(docs: seq<map<string, Event>>, q: SearchQuery, lists: seq<seq<Event>>,
                           pages: seq<seq<Event>>)
  {
    && q.limit >= 1 && docs != [] && HitLists(docs, q, lists) && |pages| == |docs|
    && (forall k :: 0 <= k < |docs| ==> IsHitPage(docs[k], q, k, pages[k]))
    && (forall k :: 0 <= k < |pages| - 1 ==> |pages[k]| == q.limit)
    && |lists[|lists| - 1]| <= PageStart(|lists|, q.limit)
  }

  function PageQuery(q: SearchQuery, k: nat): SearchQuery
    requires q.limit >= 0
  {
    q.(offset := PageStart(k, q.limit))
  }

  lemma HitsAreReading(docs: seq<map<string, Event>>, q: SearchQuery, lists: seq<seq<Event>>, pages: seq<seq<Event>>)
    requires GrowingIndex(docs) && LiveHits(docs, q, lists, pages)
    ensures Growing(lists, HitOrder(q.byOccurredAtDesc)) && ReadsToEnd(lists, q.limit, pages)
  {
    HitOrderStrict(q.byOccurredAtDesc);
    forall k | 0 <= k < |lists| ensures PageAt(lists[k], q.limit, k, pages[k]) {
      assert IsHitPage(docs[k], q, k, pages[k]);
      HitPageAt(docs[k], q, k, lists[k], pages[k]);
    }
    forall k | 0 <= k < |lists| - 1 ensures KeepsAll(lists, k) {
      assert DocumentsStay(docs[k], docs[k + 1]);
    }
  }

  lemma HitPageAt(docs: map<string, Event>, q: SearchQuery, k: nat, full: seq<Event>, page: seq<Event>)
    requires q.limit >= 1 && IsHitList(docs, Wanted(q), q.byOccurredAtDesc, full)
    requires IsHitPage(docs, q, k, page)
    ensures PageAt(full, q.limit, k, page)
  {
    var qk := PageQuery(q, k);
    var total :| IsSearchAnswer(docs, qk, page, total);
    var other :| IsHitList(docs, Wanted(qk), qk.byOccurredAtDesc, other)
                 && page == Page(other, qk.offset, qk.limit) && total == |other|;
    assert IsHitList(docs, Wanted(q), q.byOccurredAtDesc, other);
    HitListUnique(docs, Wanted(q), q.byOccurredAtDesc, full, other);
  }

  ghost function HitsBefore(docs: map<string, Event>, q: SearchQuery, y: Event): set<Event>
  {
    set e | e in docs.Values && Wanted(q)(e) && HitOrder(q.byOccurredAtDesc)(e, y)
  }

  /** Before request k a document was added that sorts in front of the page then asked for. */
  ghost predicate NewHitInFront(docs: seq<map<string, Event>>, q: SearchQuery, k: nat, y: Event)
    requires q.limit >= 0
  {
    && 0 < k < |docs| && y in docs[k].Values && y !in docs[k - 1].Values && Wanted(q)(y)
    && |HitsBefore(docs[k], q, y)| < PageStart(k, q.limit)
  }

  lemma NewHitOvertakes(docs: seq<map<string, Event>>, q: SearchQuery, lists: seq<seq<Event>>, k: nat, y: Event)
    requires q.limit >= 1 && HitLists(docs, q, lists)
    ensures NewHitInFront(docs, q, k, y) <==> Overtakes(lists, q.limit, k, y)
  {
    HitOrderStrict(q.byOccurredAtDesc);
    if 0 < k < |docs| && y in lists[k] {
      PosIsCount(lists[k], HitOrder(q.byOccurredAtDesc), y, HitsBefore(docs[k], q, y));
    }
  }

  /**
   * Main result. Paging through search hits while documents are added: no hit of the first index is lost,
   * and some document is shown twice iff before some request a new hit sorts in front of the page then
   * asked for.
   */
  lemma {:induction false} GrowingIndexPaging(docs: seq<map<string, Event>>, q: SearchQuery, lists: seq<seq<Event>>,
                                              pages: seq<seq<Event>>)
    requires GrowingIndex(docs) && LiveHits(docs, q, lists, pages)
    ensures forall x :: x in docs[0].Values && Wanted(q)(x) ==> Shown(pages, x)
    ensures Repeats(pages) <==> exists k, y :: NewHitInFront(docs, q, k, y)
  {
    HitsAreReading(docs, q, lists, pages);
    NoneLost(lists, HitOrder(q.byOccurredAtDesc), q.limit, pages);
    RepeatsExactly(lists, HitOrder(q.byOccurredAtDesc), q.limit, pages);
    forall k: nat, y ensures NewHitInFront(docs, q, k, y) <==> Overtakes(lists, q.limit, k, y) {
      NewHitOvertakes(docs, q, lists, k, y);
    }
  }

  /** The documents added before request k sort behind all hits there were. */
  ghost predicate ArrivedBehind(docs: seq<map<string, Event>>, q: SearchQuery, k: nat)
    requires 0 < k < |docs|
  {
    forall e, y ::
      && e in docs[k - 1].Values && Wanted(q)(e)
      && y in docs[k].Values && y !in docs[k - 1].Values && Wanted(q)(y)
      ==> HitOrder(q.byOccurredAtDesc)(e, y)
  }

  /** If every new document sorts behind all there were, as in a stream indexed in version order, none repeats. */
  lemma {:induction false} OrderedArrivalsNeverRepeat(docs: seq<map<string, Event>>, q: SearchQuery,
                                                      lists: seq<seq<Event>>, pages: seq<seq<Event>>)
    requires GrowingIndex(docs) && LiveHits(docs, q, lists, pages)
    requires forall k :: 0 < k < |docs| ==> ArrivedBehind(docs, q, k)
    ensures !Repeats(pages)
  {
    GrowingIndexPaging(docs, q, lists, pages);
    HitsAreReading(docs, q, lists, pages);
    forall k: nat, y ensures !NewHitInFront(docs, q, k, y) {
      if 0 < k < |docs| && y in docs[k].Values && y !in docs[k - 1].Values && Wanted(q)(y) {
        NotInFront(docs, q, lists, pages, k, y);
      }
    }
  }

  lemma NotInFront(docs: seq<map<string, Event>>, q: SearchQuery, lists: seq<seq<Event>>, pages: seq<seq<Event>>,
                   k: nat, y: Event)
    requires GrowingIndex(docs) && HitLists(docs, q, lists) && q.limit >= 1 && ReadsToEnd(lists, q.limit, pages)
    requires 0 < k < |docs| && ArrivedBehind(docs, q, k)
    requires y in docs[k].Values && y !in docs[k - 1].Values && Wanted(q)(y)
    ensures PageStart(k, q.limit) <= |HitsBefore(docs[k], q, y)|
  {
    assert DocumentsStay(docs[k - 1], docs[k]) && PageAt(lists[k - 1], q.limit, k - 1, pages[k - 1]);
    BehindAll(docs[k - 1], docs[k], q, lists[k - 1], k - 1, pages[k - 1], y);
  }

  lemma BehindAll(docs: map<string, Event>, later: map<string, Event>, q: SearchQuery, full: seq<Event>, k: nat,
                  page: seq<Event>, y: Event)
    requires q.limit >= 1 && DocumentsStay(docs, later) && IsHitList(docs, Wanted(q), q.byOccurredAtDesc, full)
    requires PageAt(full, q.limit, k, page) && |page| == q.limit
    requires forall e :: e in docs.Values && Wanted(q)(e) ==> HitOrder(q.byOccurredAtDesc)(e, y)
    ensures PageStart(k + 1, q.limit) <= |HitsBefore(later, q, y)|
  {
    var z := LastOfFull(full, q.limit, k, page);
    HitOrderStrict(q.byOccurredAtDesc);
    AscendingDistinct(full, HitOrder(q.byOccurredAtDesc));
    DistinctCount(full);
    SubsetCount(Elements(full), HitsBefore(later, q, y));
  }

  /** Over whole runs the index does grow this way: a document is never changed or removed. */
  lemma {:induction false} DocumentsGrow(cfg: Config, init: System, first: seq<Step>, more: seq<Step>)
    requires Initial(init)
    ensures DocumentsStay(After(cfg, init, first).delivery.docs, After(cfg, init, first + more).delivery.docs)
  {
    var s, t := After(cfg, init, first), After(cfg, init, first + more);
    ReachableInv(cfg, init, first);
    ReachableInv(cfg, init, first + more);
    RunsCompose(cfg, init, first, more);
    DocumentIdsStay(cfg, s, more);
    DocumentsStored(cfg, s);
    DocumentsStored(cfg, t);
    RunsKeepInv(cfg, s, more);
    forall e | e in s.delivery.docs.Values ensures e in t.delivery.docs.Values {
      assert e in t.rows && e.id in t.delivery.docs && t.delivery.docs[e.id] == e;
    }
  }

  lemma {:induction false} DocumentIdsStay(cfg: Config, s: System, steps: seq<Step>)
    ensures After(cfg, s, steps).delivery.docs.Keys >= s.delivery.docs.Keys
  {
    if steps != [] {
      DocumentIdsStay(cfg, s, steps[..|steps| - 1]);
      StepKeepsDocumentIds(cfg, After(cfg, s, steps[..|steps| - 1]), steps[|steps| - 1]);
    }
  }

  lemma StepKeepsDocumentIds(cfg: Config, s: System, step: Step)
    ensures Apply(cfg, s, step).delivery.docs.Keys >= s.delivery.docs.Keys
  {}
}
