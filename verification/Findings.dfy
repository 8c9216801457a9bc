/**
 * Inputs and runs on which the code does not do what its documentation promises, each reached from the
 * empty platform, and one on which the main promise of the read model is met for a stream that is not empty.
 */
module Findings {
  import opened Batches
  import opened Collections
  import opened Events
  import opened Guarantees
  import opened Histories
  import opened Pipeline
  import opened Postgres
  import opened Query
  import opened QueryBuilder
  import opened ReadModel
  import opened Recovery
  import opened Replays
  import opened Sql
  import opened StreamOrder
  import opened StreamReplay
  import opened Text
  import opened Topics
  import opened Trace
  import opened Versions
  import opened Writers

  function CommandOn(streamId: string): Command
  {
    Command(streamId, "kind", "source", "payload", None, "correlation", 1, "", "", "", "")
  }

  /** `n` different ids. */
  function IdNumber(n: nat): (id: string)
    ensures |id| == n
  {
    seq(n, _ => '0')
  }

  function ArrivalOn(streamId: string, tenantId: string, n: nat, now: Time): Arrival
  {
    Arrival(CommandOn(streamId), tenantId, IdNumber(n), now)
  }

  predicate States(row: Event, e: Arrival)
  {
    row.id == e.id && row.streamId == e.cmd.streamId && row.tenantId == e.tenantId && row.occurredAt == e.now
  }

  /** Each row of a told history states its arrival. */
  lemma {:induction false} ToldStates(arrivals: seq<Arrival>)
    ensures forall i :: 0 <= i < |arrivals| ==> States(Told(arrivals)[i], arrivals[i])
  {
    if arrivals != [] {
      ToldStates(arrivals[..|arrivals| - 1]);
    }
  }

  /** The table after some run, of which only this is needed below. */
  lemma TableOf(cfg: Config, init: System, arrivals: seq<Arrival>) returns (steps: seq<Step>)
    requires Initial(init) && init.delivery.parts != []
    requires forall i, j :: 0 <= i < j < |arrivals| ==> arrivals[i].id != arrivals[j].id
    ensures var rows := After(cfg, init, steps).rows;
            Valid(rows) && |rows| == |arrivals| && forall i :: 0 <= i < |rows| ==> States(rows[i], arrivals[i])
    ensures var s := After(cfg, init, steps); s.writers == map[] && s.issued == ArrivalIds(arrivals)
  {
    steps := EveryHistoryHappens(cfg, init, arrivals);
    ReachableInv(cfg, init, steps);
    ToldStates(arrivals);
  }

  /** The caught-up state of the read model is reached with events in it, and then shows them. */
  lemma RefinementIsMet(cfg: Config, init: System, streamId: string) returns (steps: seq<Step>)
    requires Initial(init) && init.delivery.parts != [] && streamId != ""
    requires cfg.resolver.Resolve(streamId) == cfg.mainTopic
    ensures var s := After(cfg, init, steps);
            && CaughtUp(s) && |s.rows| == 1
            && forall hits, total :: IsSearchAnswer(s.delivery.docs, StreamSearch("t", streamId, 0, 0), hits, total)
                                     ==> hits == s.rows && total == 1
  {
    var e := ArrivalOn(streamId, "t", 0, 1);
    steps := EveryHistoryHappens(cfg, init, [e]);
    var s := After(cfg, init, steps);
    QuietIsCaughtUp(s);
    FilterAll(s.rows, OfStream(Some("t"), streamId));
    forall hits, total | IsSearchAnswer(s.delivery.docs, StreamSearch("t", streamId, 0, 0), hits, total)
      ensures hits == s.rows && total == 1
    {
      ReadModelRefinesStore(cfg, init, steps, "t", streamId, 0, 0, hits, total);
    }
  }

  /** Two tenants on one stream: nothing is lost, yet the first one's replay reports a gap. */
  lemma SharedStreamShowsGap(cfg: Config, init: System) returns (steps: seq<Step>)
    requires Initial(init) && init.delivery.parts != []
    ensures var rows := After(cfg, init, steps).rows;
            && Valid(rows) && |StreamRows(rows, "s")| == 3
            && ForeignBetween(rows, "t", "s", 0)
            && !Contiguous(Filter(rows, FromVersion(Some("t"), "s", 0)))
  {
    var arrivals := [ArrivalOn("s", "t", 0, 1), ArrivalOn("s", "u", 1, 2), ArrivalOn("s", "t", 2, 3)];
    steps := TableOf(cfg, init, arrivals);
    ThirdRowAfterForeign(After(cfg, init, steps).rows);
  }

  lemma ThirdRowAfterForeign(rows: seq<Event>)
    requires Valid(rows) && |rows| == 3 && forall i :: 0 <= i < 3 ==> rows[i].streamId == "s"
    requires rows[0].tenantId == "t" && rows[1].tenantId == "u" && rows[2].tenantId == "t"
    ensures |StreamRows(rows, "s")| == 3 && ForeignBetween(rows, "t", "s", 0)
    ensures !Contiguous(Filter(rows, FromVersion(Some("t"), "s", 0)))
  {
    FilterAll(rows, InStream("s"));
    VersionsFollowCommits(rows, 0, 1);
    VersionsFollowCommits(rows, 1, 2);
    StreamVersionsExact(rows, "s");
    assert StreamRows(rows, "s")[0].version == 1;
    assert ForeignAt(rows, "t", "s", 0, rows[0], rows[1], rows[2]);
    ContiguousExact(rows, "t", "s", 0);
  }

  function SameTimes(n: nat): (arrivals: seq<Arrival>)
    ensures |arrivals| == n && forall i :: 0 <= i < n ==> arrivals[i] == ArrivalOn("s", "t", i, 1)
  {
    seq(n, i requires 0 <= i => ArrivalOn("s", "t", i, 1))
  }

  /** For every page size there is a history whose timeline can lose an event and repeat another. */
  lemma TimelineCanLoseEvents(cfg: Config, init: System, limit: nat)
    returns (steps: seq<Step>, pages: seq<seq<Event>>, twice: Event, never: Event)
    requires Initial(init) && init.delivery.parts != [] && limit >= 1
    ensures var rows, p := After(cfg, init, steps).rows, InTimeline("t", ZERO_TIME, ZERO_TIME);
            && |rows| == limit + 1 && |pages| == 2 && ArePages(OccurredDesc, rows, p, limit, pages)
            && twice in pages[0] && twice in pages[1]
            && never in rows && p(never) && never !in pages[0] && never !in pages[1]
  {
    var arrivals := SameTimes(limit + 1);
    steps := TableOf(cfg, init, arrivals);
    var p := InTimeline("t", ZERO_TIME, ZERO_TIME);
    pages, twice, never := TiedPages(After(cfg, init, steps).rows, p, limit);
  }

  lemma TiedPages(rows: seq<Event>, p: Event -> bool, limit: nat)
    returns (pages: seq<seq<Event>>, twice: Event, never: Event)
    requires UniqueIds(rows) && |rows| == limit + 1 && limit >= 1
    requires forall i :: 0 <= i < |rows| ==> p(rows[i]) && rows[i].occurredAt == 1
    ensures |pages| == 2 && ArePages(OccurredDesc, rows, p, limit, pages)
    ensures twice in pages[0] && twice in pages[1]
    ensures never in rows && p(never) && never !in pages[0] && never !in pages[1]
  {
    FilterAll(rows, p);
    SortIsOrdering(OccurredDesc, rows, p);
    var full := Sort(OccurredDesc, rows);
    PageStartIsProduct(1, limit);
    assert full[limit - 1] in rows && full[limit] in rows;
    pages, twice, never := TiesBreakPaging(OccurredDesc, rows, p, limit, full, 1, 2);
  }

  /** A page past the end of a list of one event reports a total of zero. */
  lemma EmptyPageForgetsTotal(cfg: Config, init: System) returns (steps: seq<Step>)
    requires Initial(init) && init.delivery.parts != []
    ensures var rows, p := After(cfg, init, steps).rows, InTimeline("t", ZERO_TIME, ZERO_TIME);
            && |Filter(rows, p)| == 1
            && forall evts, total :: IsListing(OccurredDesc, rows, p, 20, 20, evts, total) ==> evts == [] && total == 0
  {
    steps := TableOf(cfg, init, SameTimes(1));
    PastTheEnd(After(cfg, init, steps).rows, InTimeline("t", ZERO_TIME, ZERO_TIME));
  }

  lemma PastTheEnd(rows: seq<Event>, p: Event -> bool)
    requires |rows| == 1 && p(rows[0])
    ensures |Filter(rows, p)| == 1
    ensures forall evts, total :: IsListing(OccurredDesc, rows, p, 20, 20, evts, total) ==> evts == [] && total == 0
  {
    FilterAll(rows, p);
  }

  /** Under the routes "a:x" the stream "a:1" goes to topic x. */
  lemma RouteExample(routes: map<string, string>)
    requires AreRoutes(routes, Split("a:x", ','))
    ensures NewTopicResolver(routes, "main").Resolve("a:1") == "x"
  {
    ResolveAgrees("a:x", routes, "main", "a:1");
    OnePairSplits();
    assert "a" + [':'] + "1" == "a:1";
    CutComplete("a", ':', "1");
  }

  lemma OnePairSplits()
    ensures LastTopic(Split("a:x", ','), "a") == Some("x")
  {
    assert "a" + [':'] + "x" == "a:x";
    SplitSingle("a:x", ',');
    assert "a:x" == "" + ("a" + [':'] + "x") + "" && Blank("");
    EntryOfWritten("a:x", ("a", "x"));
    LastOfOne("a:x", "a");
  }

  lemma LastOfOne(piece: string, key: string)
    requires Entry(piece).Some? && Entry(piece).value.0 == key
    ensures LastTopic([piece], key) == Some(Entry(piece).value.1)
  {}

  /** So its events are stored, and its queries come back empty all the same. */
  lemma RoutedAwayIsNeverIndexed(routes: map<string, string>, hash: string -> nat, init: System)
    returns (steps: seq<Step>)
    requires AreRoutes(routes, Split("a:x", ',')) && Initial(init) && init.delivery.parts != []
    ensures var cfg := Config(NewTopicResolver(routes, "main"), "main", hash);
            var s := After(cfg, init, steps);
            && CaughtUp(s) && |StreamRows(s.rows, "a:1")| == 1
            && forall hits, total :: IsSearchAnswer(s.delivery.docs, StreamSearch("t", "a:1", 0, 0), hits, total)
                                     ==> hits == [] && total == 0
  {
    var cfg := Config(NewTopicResolver(routes, "main"), "main", hash);
    RouteExample(routes);
    steps := EveryHistoryHappens(cfg, init, [ArrivalOn("a:1", "t", 0, 1)]);
    var s := After(cfg, init, steps);
    QuietIsCaughtUp(s);
    FilterAll(s.rows, InStream("a:1"));
    forall hits, total | IsSearchAnswer(s.delivery.docs, StreamSearch("t", "a:1", 0, 0), hits, total)
      ensures hits == [] && total == 0
    {
      OtherTopicsNeverIndexed(cfg, init, steps, "t", "a:1", 0, 0, hits, total);
    }
  }

  /** A header with upper-case digits and flags that are no hex number is accepted, and not printed back. */
  lemma OddHeaderAccepted() returns (tp: string, tc: TraceContext)
    ensures ParseTraceparent(tp) == Some(tc) && tc.Traceparent(tc.parentSpanId) != tp
    ensures 'A' in tp && 'z' in tp
  {
    var trace: string, span: string := seq(32, _ => 'A'), seq(16, _ => 'B');
    assert trace[0] in trace;
    tp := Join(["00", trace, span, "zz"], '-');
    tc := TraceContext(trace, span, false);
    assert WellFormedHeader(tp, tc, "zz");
    ParseExact(tp, tc);
    ReprintExact(tp);
    HexHasNoDash(trace);
    HexHasNoDash(span);
    SplitJoin(["00", trace, span, "zz"], '-');
    JoinHas(["00", trace, span, "zz"], 1, 'A');
    JoinHas(["00", trace, span, "zz"], 3, 'z');
  }

  lemma {:induction false} JoinHas(parts: seq<string>, i: nat, c: char)
    requires i < |parts| && c in parts[i]
    ensures c in Join(parts, '-')
  {
    if i > 0 {
      JoinHas(parts[1..], i - 1, c);
    }
  }

  /** A replay of two events, one of whose publishes fails, leaves a batch that stays split for ever. */
  lemma FailedPublishSplitsBatch(cfg: Config, init: System) returns (steps: seq<Step>, wr: Writer)
    requires Initial(init) && init.delivery.parts != []
    ensures wr in After(cfg, init, steps).ended && |wr.stored| == 2
    ensures SplitForever(cfg, init, steps, wr.stored[0], wr.stored[1])
  {
    var first := TableOf(cfg, init, SameTimes(2));
    var f, matched := MatchAllOf("t", After(cfg, init, first).rows);
    LaterIdsAreFresh(2);
    steps, wr := FailedPublishSplits(cfg, init, first, f, matched, LaterIds(2));
  }

  /** A filter that asks for all rows of a table of one tenant. */
  lemma MatchAllOf(tenantId: string, rows: seq<Event>) returns (f: ReplayFilter, matched: seq<Event>)
    requires UniqueIds(rows) && forall i :: 0 <= i < |rows| ==> rows[i].tenantId == tenantId
    ensures IsOrdering(OccurredAsc, rows, Matching(f), matched) && |matched| == |rows|
  {
    f := ReplayFilter(tenantId, "", "", "", "", ZERO_TIME, ZERO_TIME, []);
    FilterAll(rows, Matching(f));
    SortIsOrdering(OccurredAsc, rows, Matching(f));
    matched := Sort(OccurredAsc, Filter(rows, Matching(f)));
  }

  /** Ids longer than those of the first `n` arrivals. */
  function LaterIds(n: nat): nat -> string
  {
    (i: nat) => IdNumber(i + n)
  }

  lemma LaterIdsAreFresh(n: nat)
    ensures forall i :: LaterIds(n)(i) !in ArrivalIds(SameTimes(n))
    ensures forall i, j :: i != j ==> LaterIds(n)(i) != LaterIds(n)(j)
  {
    assert forall id :: id in ArrivalIds(SameTimes(n)) ==> |id| < n;
    forall i: nat ensures |LaterIds(n)(i)| == i + n {
      assert LaterIds(n)(i) == IdNumber(i + n);
    }
  }

  /**
   * An event whose indexing and dead-lettering both fail: it has no document and never gets one, but a
   * replay of it leads to a document that states its fact.
   */
  lemma DoubleFailureRecovered(cfg: Config, init: System, streamId: string)
    returns (first: seq<Step>, more: seq<Step>, r: Event, c: Event)
    requires Initial(init) && init.delivery.parts != [] && cfg.resolver.Resolve(streamId) == cfg.mainTopic
    ensures r.id in After(cfg, init, first).delivery.skipped && Missed(After(cfg, init, first), r)
    ensures var docs := After(cfg, init, first + more).delivery.docs;
            r.id !in docs && c.id in docs && docs[c.id] == c && SameFact(c, r)
  {
    var e := ArrivalOn(streamId, "t", 0, 1);
    ReachableAll(cfg, init, []);
    first := StoreSteps(0, e) + PublishSteps(0) + FailSteps(PartitionOf(cfg, init.delivery, streamId));
    DoubleFailureIsMissed(cfg, init, e);
    r := RowOf(init.rows, e);
    OneArrivalId(e);
    more, c := ReplayRecovers(cfg, init, first, 0, r, LaterIds(1));
  }

  /** With the largest Go int as its limit, a replay query fails although nothing at all matches. */
  method LargestLimitFails(f: ReplayFilter) returns (r: Result<seq<Event>, Error>)
    ensures r.Err? && r.error != LimitExceeded
  {
    var store := new EventStore();
    ghost var asked;
    r, asked := store.QueryForReplay(f, MAX_INT64, true);
  }

  /** The replay id is no correlation id: a copy is found by it exactly if its original is. */
  lemma ReplayIdIsNoCorrelation(c: Event, orig: Event, batch: Batch, tenantId: string)
    requires RealisedBy(Copied(orig, batch), c)
    ensures c.isReplay && c.replayId == batch.replayId
    ensures WithCorrelation(tenantId, c.replayId)(c) <==> WithCorrelation(tenantId, c.replayId)(orig)
  {}

  /** A replay whose copy is stored, and of which a search by its replay id finds nothing. */
  lemma ReplayIdFindsNothing(cfg: Config, init: System, streamId: string) returns (steps: seq<Step>, c: Event)
    requires Initial(init)
    ensures var rows := After(cfg, init, steps).rows;
            && c in rows && c.isReplay && c.tenantId == "t"
            && Filter(rows, WithCorrelation("t", c.replayId)) == []
  {
    var e := ArrivalOn(streamId, "t", 0, 1);
    var s := FirstStored(cfg, init, e);
    OneArrivalId(e);
    var replay := ReplayOne(cfg, s, RowOf([], e), Batch("batch", 0, "reason"), LaterIds(1));
    steps, c := StoreSteps(0, e) + replay.0, replay.1;
    RunsCompose(cfg, init, StoreSteps(0, e), replay.0);
    NothingCorrelates(RowOf([], e), c, Batch("batch", 0, "reason"));
  }

  /** Ids drawn later are not the id of a first arrival. */
  lemma OneArrivalId(e: Arrival)
    requires e.id == IdNumber(0)
    ensures forall i :: LaterIds(1)(i) !in {e.id}
    ensures forall i, j :: i != j ==> LaterIds(1)(i) != LaterIds(1)(j)
  {
    LaterIdsAreFresh(1);
    assert ArrivalIds(SameTimes(1)) == {e.id} by {
      assert SameTimes(1)[0].id == e.id;
    }
  }

  /** A replay of the only row there is. */
  lemma ReplayOne(cfg: Config, s: System, r: Event, batch: Batch, ids: nat -> string) returns (run: (seq<Step>, Event))
    requires Inv(cfg, s) && 1 !in s.writers && s.rows == [r]
    requires (forall i :: ids(i) !in s.issued) && (forall i, j :: i != j ==> ids(i) != ids(j))
    ensures After(cfg, s, run.0).rows == [r, run.1] && RealisedBy(Copied(r, batch), run.1)
  {
    var f := ListsOne(s.rows, r);
    var clock := (i: nat) => 0;
    var added := StoreReplay(cfg, s, 1, f, batch, [r], ids, clock);
    run := (ReplaySteps(1, f, batch, [r], ids, clock), added[0]);
    assert [r] + added == [r, added[0]];
  }

  lemma NothingCorrelates(r: Event, c: Event, batch: Batch)
    requires RealisedBy(Copied(r, batch), c) && r.correlationId != batch.replayId
    ensures c.isReplay && c.tenantId == r.tenantId
    ensures forall tenantId :: Filter([r, c], WithCorrelation(tenantId, c.replayId)) == []
  {
    forall tenantId ensures Filter([r, c], WithCorrelation(tenantId, c.replayId)) == [] {
      FilterNone([r, c], WithCorrelation(tenantId, c.replayId));
    }
  }

  /** The `n`-th of a series of events, a millisecond apart. */
  function Later(streamId: string, n: nat): Arrival
  {
    ArrivalOn(streamId, "t", n, 1_000_000 * (n + 1))
  }

  /** Caught up, the documents are the rows, if all streams are consumed. */
  lemma DocumentsAreRows(cfg: Config, init: System, steps: seq<Step>)
    requires Initial(init) && CaughtUp(After(cfg, init, steps))
    requires forall r :: r in After(cfg, init, steps).rows ==> Routed(cfg, r)
    ensures var s := After(cfg, init, steps); forall e :: e in s.delivery.docs.Values <==> e in s.rows
  {
    var s := After(cfg, init, steps);
    ReachableInv(cfg, init, steps);
    DocumentsStored(cfg, s);
    forall r | r in s.rows ensures r in s.delivery.docs.Values {
      EveryRowAccounted(cfg, init, steps, r);
    }
  }

  /** Rows of tenant t, a millisecond apart, as many as there are. */
  ghost predicate Spaced(rows: seq<Event>)
  {
    && UniqueIds(rows)
    && forall i :: 0 <= i < |rows| ==> rows[i].tenantId == "t" && rows[i].occurredAt == 1_000_000 * (i + 1)
  }

  /** Newest first: the rows from the last to the first. */
  function NewestFirst(rows: seq<Event>): (full: seq<Event>)
    ensures |full| == |rows| && forall i :: 0 <= i < |rows| ==> full[i] == rows[|rows| - 1 - i]
    ensures forall e :: e in full <==> e in rows
  {
    if rows == [] then [] else [rows[|rows| - 1]] + NewestFirst(rows[..|rows| - 1])
  }

  lemma SpacedOrdering(rows: seq<Event>, p: Event -> bool)
    requires Spaced(rows) && forall i :: 0 <= i < |rows| ==> p(rows[i])
    ensures IsOrdering(OccurredDesc, rows, p, NewestFirst(rows)) && DistinctKeys(OccurredDesc, rows, p)
    ensures |Filter(rows, p)| == |rows|
  {
    FilterAll(rows, p);
  }

  lemma SpacedListing(rows: seq<Event>, offset: nat)
    requires Spaced(rows) && |rows| == offset + 2
    ensures var p := InTimeline("t", ZERO_TIME, ZERO_TIME);
            DistinctKeys(OccurredDesc, rows, p) && IsListing(OccurredDesc, rows, p, 1, offset, [rows[1]], |rows|)
  {
    SpacedOrdering(rows, InTimeline("t", ZERO_TIME, ZERO_TIME));
    assert Page(NewestFirst(rows), offset, 1) == [rows[1]];
  }

  lemma SpacedHits(rows: seq<Event>, docs: map<string, Event>, offset: nat)
    requires Spaced(rows) && |rows| == offset + 2 && forall e :: e in docs.Values <==> e in rows
    ensures IsSearchAnswer(docs, FeedSearch("t", 1, offset), [rows[1]], |rows|)
  {
    var q, full := FeedSearch("t", 1, offset), NewestFirst(rows);
    SpacedMillis(rows);
    assert IsHitList(docs, Wanted(q), true, full);
    assert Page(full, offset, 1) == [rows[1]];
  }

  lemma SpacedMillis(rows: seq<Event>)
    requires Spaced(rows)
    ensures forall i :: 0 <= i < |rows| ==> Millis(rows[i].occurredAt) == i + 1
  {}

  /** An event ingested between two requests repeats a row without any tie, in the timeline and in the feed. */
  lemma NewEventRepeatsRow(cfg: Config, init: System, streamId: string)
    returns (first: seq<Step>, more: seq<Step>, b: Event)
    requires Initial(init) && init.delivery.parts != [] && cfg.resolver.Resolve(streamId) == cfg.mainTopic
    ensures var p := InTimeline("t", ZERO_TIME, ZERO_TIME);
            var s, t := After(cfg, init, first), After(cfg, init, first + more);
            && DistinctKeys(OccurredDesc, s.rows, p) && DistinctKeys(OccurredDesc, t.rows, p)
            && IsListing(OccurredDesc, s.rows, p, 1, 0, [b], 2) && IsListing(OccurredDesc, t.rows, p, 1, 1, [b], 3)
            && IsSearchAnswer(s.delivery.docs, FeedSearch("t", 1, 0), [b], 2)
            && IsSearchAnswer(t.delivery.docs, FeedSearch("t", 1, 1), [b], 3)
  {
    first, more := TwoThenThree(cfg, init, streamId);
    var s, t := After(cfg, init, first), After(cfg, init, first + more);
    b := s.rows[1];
    assert t.rows[1] == b;
    DocumentsAreRows(cfg, init, first);
    DocumentsAreRows(cfg, init, first + more);
    SpacedListing(s.rows, 0);
    SpacedListing(t.rows, 1);
    SpacedHits(s.rows, s.delivery.docs, 0);
    SpacedHits(t.rows, t.delivery.docs, 1);
  }

  lemma TwoThenThree(cfg: Config, init: System, streamId: string) returns (first: seq<Step>, more: seq<Step>)
    requires Initial(init) && init.delivery.parts != [] && cfg.resolver.Resolve(streamId) == cfg.mainTopic
    ensures SeriesIngested(After(cfg, init, first), 2, streamId)
    ensures SeriesIngested(After(cfg, init, first + more), 3, streamId)
    ensures After(cfg, init, first).rows <= After(cfg, init, first + more).rows
  {
    var two := [Later(streamId, 0), Later(streamId, 1)];
    SeriesIds(two, streamId);
    first := EveryHistoryHappens(cfg, init, two);
    SeriesHistory(After(cfg, init, first), two, streamId);
    more := ThenNext(cfg, init, first, two, streamId);
    StoreOnlyGrows(cfg, init, first, more);
  }

  /** Caught up, with the first `n` of the series in the table. */
  ghost predicate SeriesIngested(s: System, n: nat, streamId: string)
  {
    CaughtUp(s) && Spaced(s.rows) && |s.rows| == n && forall r :: r in s.rows ==> r.streamId == streamId
  }

  predicate IsSeries(arrivals: seq<Arrival>, streamId: string)
  {
    forall i :: 0 <= i < |arrivals| ==> arrivals[i] == Later(streamId, i)
  }

  /** The next of the series. */
  lemma ThenNext(cfg: Config, init: System, first: seq<Step>, arrivals: seq<Arrival>, streamId: string)
    returns (more: seq<Step>)
    requires Initial(init) && HistoryIs(After(cfg, init, first), arrivals) && IsSeries(arrivals, streamId)
    ensures SeriesIngested(After(cfg, init, first + more), |arrivals| + 1, streamId)
  {
    SeriesIds(arrivals, streamId);
    more := OneLater(cfg, init, first, arrivals, Later(streamId, |arrivals|));
    SeriesHistory(After(cfg, init, first + more), arrivals + [Later(streamId, |arrivals|)], streamId);
  }

  lemma SeriesIds(arrivals: seq<Arrival>, streamId: string)
    requires IsSeries(arrivals, streamId)
    ensures forall i, j :: 0 <= i < j < |arrivals| ==> arrivals[i].id != arrivals[j].id
    ensures forall i :: 0 <= i < |arrivals| ==> arrivals[i].id != Later(streamId, |arrivals|).id
  {
    assert forall i :: 0 <= i < |arrivals| ==> |arrivals[i].id| == i;
  }

  lemma SeriesHistory(s: System, arrivals: seq<Arrival>, streamId: string)
    requires HistoryIs(s, arrivals) && IsSeries(arrivals, streamId)
    ensures SeriesIngested(s, |arrivals|, streamId)
  {
    QuietIsCaughtUp(s);
    ToldSeries(s.rows, arrivals, streamId);
    SeriesIds(arrivals, streamId);
  }

  lemma ToldSeries(rows: seq<Event>, arrivals: seq<Arrival>, streamId: string)
    requires rows == Told(arrivals) && IsSeries(arrivals, streamId)
    ensures forall i :: 0 <= i < |rows| ==>
              rows[i].tenantId == "t" && rows[i].occurredAt == 1_000_000 * (i + 1) && rows[i].streamId == streamId
              && rows[i].id == arrivals[i].id
  {
    ToldStates(arrivals);
  }

  /** Two ingests of one stream that overlap can put its events on the log in the wrong order. */
  lemma OverlappingIngestsBreakOrder(cfg: Config, init: System, streamId: string) returns (steps: seq<Step>)
    requires Initial(init) && init.delivery.parts != []
    requires cfg.resolver.Resolve(streamId) == cfg.mainTopic
    ensures !LogSorted(After(cfg, init, steps).delivery, streamId)
  {
    var e, f := ArrivalOn(streamId, "t", 0, 1), ArrivalOn(streamId, "t", 1, 2);
    var both := StoreSteps(0, e) + StoreSteps(1, f);
    TwoStored(cfg, init, e, f);
    var t := After(cfg, init, both);
    ReachableAll(cfg, init, both);
    StreamsOnOnePartition(cfg, init, both);
    assert Contends(t, 0, false) && Contends(t, 1, false);
    var more := OutOfTurnBreaksOrder(cfg, t, streamId);
    RunsCompose(cfg, init, both, more);
    steps := both + more;
  }

  /** Both have stored their event, and neither has published it. */
  lemma TwoStored(cfg: Config, init: System, e: Arrival, f: Arrival)
    requires Initial(init) && e.id != f.id
    ensures var t := After(cfg, init, StoreSteps(0, e) + StoreSteps(1, f));
            && t.delivery == init.delivery && 0 in t.writers && 1 in t.writers
            && t.writers[0].todo == [] && t.writers[1].todo == []
            && HoldsRows(t, 0, e.cmd.streamId) && HoldsRows(t, 1, f.cmd.streamId)
  {
    var s := FirstStored(cfg, init, e);
    StoreNext(cfg, init, StoreSteps(0, e), 1, f);
    HoldsRow(After(cfg, init, StoreSteps(0, e) + StoreSteps(1, f)), 0, RowOf([], e));
    HoldsRow(After(cfg, init, StoreSteps(0, e) + StoreSteps(1, f)), 1, RowOf(s.rows, f));
  }

  lemma FirstStored(cfg: Config, init: System, e: Arrival) returns (s: System)
    requires Initial(init)
    ensures s == After(cfg, init, StoreSteps(0, e)) && AllInv(cfg, s) && s.rows == [RowOf([], e)]
    ensures s.delivery == init.delivery && s.issued == {e.id}
    ensures s.writers == map[0 := Writer([Fresh(e.cmd, e.tenantId)], [], None, [RowOf([], e)], [RowOf([], e)], false)]
  {
    s := After(cfg, init, StoreSteps(0, e));
    ReachableAll(cfg, init, StoreSteps(0, e));
    FirstResult(cfg, init, e);
  }

  lemma FirstResult(cfg: Config, init: System, e: Arrival)
    requires Initial(init)
    ensures var s, row := After(cfg, init, StoreSteps(0, e)), RowOf([], e);
            && s.delivery == init.delivery && s.rows == [row] && s.issued == {e.id}
            && s.writers == map[0 := Writer([Fresh(e.cmd, e.tenantId)], [], None, [row], [row], false)]
  {
    ReachableAll(cfg, init, []);
    Store(cfg, init, 0, e);
  }

  /** A run that goes on with one undisturbed append. */
  lemma StoreNext(cfg: Config, init: System, first: seq<Step>, w: nat, e: Arrival)
    requires AllInv(cfg, After(cfg, init, first))
    requires var s := After(cfg, init, first); w !in s.writers && e.id !in s.issued
    ensures var s, t := After(cfg, init, first), After(cfg, init, first + StoreSteps(w, e));
            && t.rows == s.rows + [RowOf(s.rows, e)] && t.delivery == s.delivery
            && t.writers ==
               s.writers[w := Writer([Fresh(e.cmd, e.tenantId)], [], None, [RowOf(s.rows, e)], [RowOf(s.rows, e)],
                                     false)]
  {
    Store(cfg, After(cfg, init, first), w, e);
    RunsCompose(cfg, init, first, StoreSteps(w, e));
  }

  lemma HoldsRow(s: System, w: nat, row: Event)
    requires w in s.writers && s.writers[w].done == [row]
    ensures HoldsRows(s, w, row.streamId)
  {
    assert row in s.writers[w].done;
  }

  /** An ingest whose reply is lost, tried again, leaves its command in the table twice. */
  lemma LostReplyStoresTwice(cfg: Config, init: System, streamId: string) returns (steps: seq<Step>)
    requires Initial(init)
    ensures var rows := After(cfg, init, steps).rows;
            && |rows| == 2 && rows[0].id != rows[1].id
            && RealisedBy(Fresh(CommandOn(streamId), "t"), rows[0])
            && RealisedBy(Fresh(CommandOn(streamId), "t"), rows[1])
  {
    var e, f := ArrivalOn(streamId, "t", 0, 1), ArrivalOn(streamId, "t", 1, 2);
    LostThenStored(cfg, init, e, f);
    steps := LoseSteps(e) + StoreSteps(0, f);
    RowStates([], e);
    RowStates([RowOf([], e)], f);
  }

  lemma LostThenStored(cfg: Config, init: System, e: Arrival, f: Arrival)
    requires Initial(init) && e.id != f.id
    ensures After(cfg, init, LoseSteps(e) + StoreSteps(0, f)).rows == [RowOf([], e), RowOf([RowOf([], e)], f)]
  {
    ReachableAll(cfg, init, LoseSteps(e));
    StoreLosingReply(cfg, init, e);
    StoreNext(cfg, init, LoseSteps(e), 0, f);
  }

  lemma RowStates(rows: seq<Event>, e: Arrival)
    ensures RealisedBy(Fresh(e.cmd, e.tenantId), RowOf(rows, e)) && RowOf(rows, e).id == e.id
  {}

  function LoseSteps(e: Arrival): seq<Step>
  {
    [BeginIngest(0, e.cmd, e.tenantId), BeginAppend(0, e.id, e.now), LoseReply(0)]
  }

  lemma StoreLosingReply(cfg: Config, init: System, e: Arrival)
    requires Initial(init)
    ensures var t := After(cfg, init, LoseSteps(e));
            t.rows == [RowOf([], e)] && t.issued == {e.id} && t.writers == map[]
  {
    var one, two := BeginIngest(0, e.cmd, e.tenantId), BeginAppend(0, e.id, e.now);
    AfterThree(cfg, init, one, two, LoseReply(0));
    var begun := Apply(cfg, Apply(cfg, init, one), two);
    var event := begun.writers[0].inFlight.value.e;
    CommitCharacterised([], 0, event);
    assert Attempted(begun, 0) == Inserted(RowOf([], e));
    assert begun.writers == map[0 := begun.writers[0]];
  }
}
