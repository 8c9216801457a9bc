/** What every run of the platform guarantees, from the empty system on. */
module Guarantees {
  import opened Batches
  import opened Collections
  import opened Events
  import opened Pipeline
  import opened Postgres
  import opened Query
  import opened ReadModel
  import opened Versions
  import opened Writers
  import D = Delivery

  /** Every message, document and dead letter is a copy of a stored row: same id, stream, tenant and version. */
  lemma {:induction false} NoPhantoms(cfg: Config, init: System, steps: seq<Step>, e: Event)
    requires Initial(init)
    requires var s := After(cfg, init, steps);
             D.InLogs(s.delivery, e) || e in s.elsewhere || e in s.delivery.docs.Values || e in s.delivery.dlq
    ensures e in After(cfg, init, steps).rows
  {
    ReachableInv(cfg, init, steps);
    DocumentsStored(cfg, After(cfg, init, steps));
  }

  lemma DocumentsStored(cfg: Config, s: System)
    requires Inv(cfg, s)
    ensures forall e :: e in s.delivery.docs.Values ==> e in s.rows && Routed(cfg, e) && s.delivery.docs[e.id] == e
    ensures forall e :: e in s.delivery.dlq ==> e in s.rows
    ensures forall r :: r in s.rows && r.id in s.delivery.docs ==> s.delivery.docs[r.id] == r
  {}

  // ----- Conservation -----

  /** A message of the main topic that the consumer has not committed yet. */
  ghost predicate InBacklog(d: D.State, e: Event)
  {
    exists p, k :: 0 <= p < |d.parts| && d.parts[p].committed <= k < |d.parts[p].log| && d.parts[p].log[k] == D.Good(e)
  }

  /** Everywhere a stored row of a stream routed to the main topic can be. */
  ghost predicate Accounted(s: System, r: Event)
  {
    || (r.id in s.delivery.docs && s.delivery.docs[r.id] == r)
    || r in s.delivery.dlq
    || r.id in s.delivery.skipped
    || InBacklog(s.delivery, r)
    || Waiting(s, r)
    || r.id in s.unpublished
  }

  /**
   * No event is lost unrecorded: a stored row is indexed, dead-lettered, a double failure, in the
   * backlog, waiting to be published, or recorded as unpublished because its call or publish failed.
   */
  lemma {:induction false} EveryRowAccounted(cfg: Config, init: System, steps: seq<Step>, r: Event)
    requires Initial(init) && Routed(cfg, r) && r in After(cfg, init, steps).rows
    ensures Accounted(After(cfg, init, steps), r)
  {
    ReachableInv(cfg, init, steps);
    var s := After(cfg, init, steps);
    DocumentsStored(cfg, s);
    assert Tracked(s, r);
    if D.InLogs(s.delivery, r) {
      var p, k :| 0 <= p < |s.delivery.parts| && 0 <= k < |s.delivery.parts[p].log|
                  && s.delivery.parts[p].log[k] == D.Good(r);
      assert s.delivery.parts[p].committed <= |s.delivery.parts[p].log|;
      if k < s.delivery.parts[p].committed {
        assert D.Accounted(s.delivery, s.delivery.parts[p].log[k]);
      } else {
        assert InBacklog(s.delivery, r);
      }
    }
  }

  // ----- The read model -----

  /** The stored rows of a tenant's stream that have a document. */
  function IndexedOf(docs: map<string, Event>, tenantId: string, streamId: string): Event -> bool
  {
    (e: Event) => e.tenantId == tenantId && e.streamId == streamId && e.id in docs
  }

  /**
   * In every reachable state, whatever has failed or is late, QueryByStream pages through the
   * store's own rows in version order, leaving out exactly those without a document.
   */
  lemma {:induction false} ReadModelIsStoreView(cfg: Config, init: System, steps: seq<Step>, tenantId: string,
                                                streamId: string, limit: int, offset: int,
                                                hits: seq<Event>, total: int)
    requires Initial(init) && tenantId != "" && streamId != ""
    requires IsSearchAnswer(After(cfg, init, steps).delivery.docs, StreamSearch(tenantId, streamId, limit, offset),
                            hits, total)
    ensures var s := After(cfg, init, steps);
            var view := Filter(s.rows, IndexedOf(s.delivery.docs, tenantId, streamId));
            hits == Page(view, Max(0, offset), ClampLimit(limit)) && total == |view|
  {
    ReachableInv(cfg, init, steps);
    var s := After(cfg, init, steps);
    DocumentsStored(cfg, s);
    StreamPageIsStoreSlice(s.rows, s.delivery.docs, tenantId, streamId, limit, offset,
                           IndexedOf(s.delivery.docs, tenantId, streamId), hits, total);
  }

  /** Nothing is under way and nothing failed on the way to the index. */
  ghost predicate CaughtUp(s: System)
  {
    && (forall w :: w in s.writers ==> s.writers[w].done == [])
    && s.unpublished == {} && s.delivery.skipped == {} && s.delivery.dlq == []
    && forall p :: 0 <= p < |s.delivery.parts| ==> s.delivery.parts[p].committed == |s.delivery.parts[p].log|
  }

  /** Then every row of the stream has its document. */
  lemma {:induction false} AllIndexed(cfg: Config, init: System, steps: seq<Step>, tenantId: string, streamId: string)
    requires Initial(init) && CaughtUp(After(cfg, init, steps)) && tenantId != ""
    requires cfg.resolver.Resolve(streamId) == cfg.mainTopic
    ensures var s := After(cfg, init, steps);
            forall r :: r in s.rows ==>
              IndexedOf(s.delivery.docs, tenantId, streamId)(r) == OfStream(Some(tenantId), streamId)(r)
  {
    var s := After(cfg, init, steps);
    forall r | r in s.rows && r.streamId == streamId ensures r.id in s.delivery.docs {
      EveryRowAccounted(cfg, init, steps, r);
    }
  }

  /**
   * Main result. For a stream routed to the main topic, once all publishes succeeded, no indexing
   * failed and the consumer has committed every partition, QueryByStream returns exactly the clamped
   * slice of GetByStreamID, with its length as the total, whatever happened on the way.
   */
  lemma {:induction false} ReadModelRefinesStore(cfg: Config, init: System, steps: seq<Step>, tenantId: string,
                                                 streamId: string, limit: int, offset: int,
                                                 hits: seq<Event>, total: int)
    requires Initial(init) && tenantId != "" && streamId != ""
    requires cfg.resolver.Resolve(streamId) == cfg.mainTopic
    requires CaughtUp(After(cfg, init, steps))
    requires IsSearchAnswer(After(cfg, init, steps).delivery.docs, StreamSearch(tenantId, streamId, limit, offset),
                            hits, total)
    ensures var own := Filter(After(cfg, init, steps).rows, OfStream(Some(tenantId), streamId));
            hits == Page(own, Max(0, offset), ClampLimit(limit)) && total == |own|
  {
    var s := After(cfg, init, steps);
    ReadModelIsStoreView(cfg, init, steps, tenantId, streamId, limit, offset, hits, total);
    AllIndexed(cfg, init, steps, tenantId, streamId);
    FilterSame(s.rows, IndexedOf(s.delivery.docs, tenantId, streamId), OfStream(Some(tenantId), streamId));
  }

  /**
   * A stream routed to any other topic is never indexed, since the consumer reads the main topic
   * only: its queries always come back empty, however many of its rows are stored.
   */
  lemma {:induction false} OtherTopicsNeverIndexed(cfg: Config, init: System, steps: seq<Step>, tenantId: string,
                                                   streamId: string, limit: int, offset: int,
                                                   hits: seq<Event>, total: int)
    requires Initial(init) && tenantId != "" && streamId != ""
    requires cfg.resolver.Resolve(streamId) != cfg.mainTopic
    requires IsSearchAnswer(After(cfg, init, steps).delivery.docs, StreamSearch(tenantId, streamId, limit, offset),
                            hits, total)
    ensures hits == [] && total == 0
  {
    var s := After(cfg, init, steps);
    ReachableInv(cfg, init, steps);
    DocumentsStored(cfg, s);
    ReadModelIsStoreView(cfg, init, steps, tenantId, streamId, limit, offset, hits, total);
    forall r | r in s.rows && r.streamId == streamId ensures r.id !in s.delivery.docs {
      assert r.id in s.delivery.docs ==> r in s.delivery.docs.Values;
    }
    FilterNone(s.rows, IndexedOf(s.delivery.docs, tenantId, streamId));
  }

  /** A row recorded as unpublished is on no topic, in no document and no dead letter. */
  lemma {:induction false} UnpublishedNeverSeen(cfg: Config, init: System, steps: seq<Step>, r: Event)
    requires Initial(init)
    requires var s := After(cfg, init, steps); r in s.rows && r.id in s.unpublished
    ensures NeverSeen(After(cfg, init, steps), r)
  {
    ReachableAll(cfg, init, steps);
    OutcomesLogged(After(cfg, init, steps).delivery, r);
  }

  ghost predicate NeverSeen(s: System, e: Event)
  {
    && e in s.rows && !D.InLogs(s.delivery, e) && e !in s.elsewhere
    && e !in s.delivery.docs.Values && e !in s.delivery.dlq
  }

  lemma OutcomesLogged(d: D.State, e: Event)
    requires D.FromLogs(d) && !D.InLogs(d, e)
    ensures e !in d.docs.Values && e !in d.dlq
  {}

  // ----- Batches -----

  /** While a call is still appending, none of the rows it has stored is visible downstream. */
  lemma {:induction false} UnfinishedBatchesInvisible(cfg: Config, init: System, steps: seq<Step>, w: nat, e: Event)
    requires Initial(init)
    requires var s := After(cfg, init, steps);
             w in s.writers && !s.writers[w].publishing && e in s.writers[w].stored
    ensures NeverSeen(After(cfg, init, steps), e)
  {
    ReachableAll(cfg, init, steps);
    var s := After(cfg, init, steps);
    assert OnPlan(s.rows, s.writers[w]) && Unseen(s, e);
    OutcomesLogged(s.delivery, e);
  }

  /**
   * Main result. A call that ended before it began to publish, because an append failed, collided,
   * or lost its reply, or because its process crashed, leaves the rows it stored in the table, and
   * none of them is ever visible downstream, whatever happens later.
   */
  lemma {:induction false} FailedBatchesNeverSeen(cfg: Config, init: System, first: seq<Step>, more: seq<Step>,
                                                  wr: Writer, e: Event)
    requires Initial(init)
    requires wr in After(cfg, init, first).ended && !wr.publishing && e in wr.stored
    ensures NeverSeen(After(cfg, init, first + more), e)
  {
    ReachableAll(cfg, init, first);
    RunsKeepAll(cfg, After(cfg, init, first), more);
    RunsCompose(cfg, init, first, more);
    var s := After(cfg, init, first + more);
    assert wr in s.ended && EndedOnPlan(s.rows, wr);
    assert e.id in Ids(wr.stored);
    OutcomesLogged(s.delivery, e);
  }

  /**
   * Main result. Under any interleaving a call's stored rows realise a first part of its plan, in
   * order, with rising versions in every stream; all of it, if the call has come to publishing.
   */
  lemma {:induction false} BatchesFollowPlans(cfg: Config, init: System, steps: seq<Step>, wr: Writer)
    requires Initial(init)
    requires var s := After(cfg, init, steps);
             wr in s.ended || (exists w :: w in s.writers && s.writers[w] == wr)
    ensures Follows(wr.plan, wr.stored) && Rising(After(cfg, init, steps).rows, wr.stored)
    ensures wr.publishing ==> |wr.stored| == |wr.plan|
  {
    ReachableAll(cfg, init, steps);
    var s := After(cfg, init, steps);
    assert wr in s.ended ==> EndedOnPlan(s.rows, wr);
    if w :| w in s.writers && s.writers[w] == wr {
      assert OnPlan(s.rows, wr);
    }
  }

  /**
   * Main result. The rows of a call that is over, however it ended, fall into two kinds at its end and
   * for ever: those recorded as unpublished are never visible downstream, all others are on a topic.
   */
  lemma {:induction false} EndedRowFate(cfg: Config, init: System, first: seq<Step>, more: seq<Step>,
                                        wr: Writer, e: Event)
    requires Initial(init) && wr in After(cfg, init, first).ended && e in wr.stored
    ensures NeverSeen(After(cfg, init, first + more), e) <==> e.id in After(cfg, init, first).unpublished
    ensures Unseen(After(cfg, init, first + more), e) <==> e.id in After(cfg, init, first).unpublished
  {
    var s := After(cfg, init, first);
    ReachableAll(cfg, init, first);
    assert EndedOnPlan(s.rows, wr) && e in s.rows && Tracked(s, e);
    RunsCompose(cfg, init, first, more);
    if e.id in s.unpublished {
      RunsKeepInv(cfg, s, more);
      UnpublishedStays(cfg, s, more);
      UnpublishedNeverSeen(cfg, init, first + more, e);
    } else {
      SeenStays(cfg, s, more, e);
    }
  }

  /** From the state on, one of the two rows is always on a topic and the other never anywhere downstream. */
  ghost predicate SplitForever(cfg: Config, init: System, first: seq<Step>, seen: Event, lost: Event)
  {
    forall more :: !Unseen(After(cfg, init, first + more), seen) && NeverSeen(After(cfg, init, first + more), lost)
  }

  /**
   * Main result. A batch that is over stays split for ever, visible in part, iff at its end some of its
   * rows are on a topic and some are recorded as unpublished.
   */
  lemma {:induction false} SplitExactly(cfg: Config, init: System, first: seq<Step>, wr: Writer)
    requires Initial(init) && wr in After(cfg, init, first).ended
    ensures (exists seen, lost :: seen in wr.stored && lost in wr.stored && SplitForever(cfg, init, first, seen, lost))
            <==> (exists seen, lost :: seen in wr.stored && !Unseen(After(cfg, init, first), seen)
                                       && lost in wr.stored && lost.id in After(cfg, init, first).unpublished)
  {
    assert first + [] == first;
    if seen, lost :| seen in wr.stored && lost in wr.stored && SplitForever(cfg, init, first, seen, lost) {
      EndedRowFate(cfg, init, first, [], wr, seen);
      EndedRowFate(cfg, init, first, [], wr, lost);
      assert !Unseen(After(cfg, init, first + []), seen);
    }
    if seen, lost :| seen in wr.stored && !Unseen(After(cfg, init, first), seen)
                     && lost in wr.stored && lost.id in After(cfg, init, first).unpublished {
      forall more
        ensures !Unseen(After(cfg, init, first + more), seen) && NeverSeen(After(cfg, init, first + more), lost)
      {
        EndedRowFate(cfg, init, first, [], wr, seen);
        EndedRowFate(cfg, init, first, more, wr, seen);
        EndedRowFate(cfg, init, first, more, wr, lost);
      }
      assert SplitForever(cfg, init, first, seen, lost);
    }
  }

  /** A crash right after one publish: that row is on its topic, and all the later ones never will be. */
  lemma {:induction false} CrashSplitsBatch(cfg: Config, init: System, first: seq<Step>, w: nat, more: seq<Step>)
    requires Initial(init) && CanPublish(After(cfg, init, first), w)
    ensures var done := After(cfg, init, first).writers[w].done;
            var t := After(cfg, init, first + [Publish(w, true, true)] + [Abandon(w)] + more);
            !Unseen(t, done[0]) && forall e :: e in done[1..] ==> NeverSeen(t, e)
  {
    var s, cut := After(cfg, init, first), first + [Publish(w, true, true)] + [Abandon(w)];
    ReachableAll(cfg, init, first);
    AfterTwoMore(cfg, init, first, Publish(w, true, true), Abandon(w));
    var t := After(cfg, init, cut);
    PlanGivesRows(s, w);
    PublishThenCrash(cfg, s, w);
    RunsCompose(cfg, init, cut, more);
    SeenStays(cfg, t, more, s.writers[w].done[0]);
    UnpublishedStays(cfg, t, more);
    ReachableInv(cfg, init, cut);
    RunsKeepInv(cfg, t, more);
    forall e | e in s.writers[w].done[1..] ensures NeverSeen(After(cfg, init, cut + more), e) {
      UnpublishedNeverSeen(cfg, init, cut + more, e);
    }
  }

  /** A write puts the event on its topic. */
  lemma WrittenIsSeen(cfg: Config, s: System, e: Event)
    requires s.delivery.parts != []
    ensures !Unseen(Written(cfg, s, e), e)
  {
    if Routed(cfg, e) {
      ReceiveLogs(s.delivery, PartitionOf(cfg, s.delivery, e.streamId), D.Good(e), e);
    }
  }

  lemma PublishWrites(cfg: Config, s: System, w: nat)
    requires CanPublish(s, w)
    ensures Apply(cfg, s, Publish(w, true, true)) == Written(cfg, Popped(s, w), s.writers[w].done[0])
  {}

  lemma TailUnseenAfter(cfg: Config, s: System, w: nat, e: Event)
    requires BatchInv(s) && TailInv(s) && CanPublish(s, w) && RowsOnPlan(s, w) && e in s.writers[w].done[1..]
    ensures Unseen(Apply(cfg, s, Publish(w, true, true)), e)
  {
    TailIsNotHead(s, w, w, e);
    StepKeepsUnseen(cfg, s, Publish(w, true, true), e);
  }

  lemma TailInRows(s: System, w: nat)
    requires WritersInv(s) && w in s.writers && s.writers[w].done != []
    ensures forall e :: e in s.writers[w].done[1..] ==> e in s.rows
  {
    assert WriterOk(s.rows, s.issued, s.writers[w]);
  }

  lemma PublishThenCrash(cfg: Config, s: System, w: nat)
    requires WritersInv(s) && BatchInv(s) && TailInv(s) && CanPublish(s, w) && RowsOnPlan(s, w)
    ensures var t := Apply(cfg, Apply(cfg, s, Publish(w, true, true)), Abandon(w));
            && !Unseen(t, s.writers[w].done[0])
            && forall e :: e in s.writers[w].done[1..] ==> e in t.rows && e.id in t.unpublished
  {
    var published := Apply(cfg, s, Publish(w, true, true));
    forall e | e in s.writers[w].done[1..] ensures Unseen(published, e) {
      TailUnseenAfter(cfg, s, w, e);
    }
    TailInRows(s, w);
    PublishFrame(cfg, s, Publish(w, true, true));
    assert published.writers[w].done == s.writers[w].done[1..];
    AbandonRecords(cfg, published, w);
    PublishWrites(cfg, s, w);
    WrittenIsSeen(cfg, Popped(s, w), s.writers[w].done[0]);
  }

  lemma AbandonRecords(cfg: Config, s: System, w: nat)
    requires w in s.writers && forall e :: e in s.writers[w].done ==> Unseen(s, e)
    ensures var t := Apply(cfg, s, Abandon(w));
            && t.rows == s.rows && t.delivery == s.delivery && t.elsewhere == s.elsewhere
            && forall e :: e in s.writers[w].done ==> e.id in t.unpublished
  {
    assert s.writers[w].done + [] == s.writers[w].done;
  }

  lemma {:induction false} SeenStays(cfg: Config, s: System, steps: seq<Step>, e: Event)
    requires !Unseen(s, e)
    ensures !Unseen(After(cfg, s, steps), e)
  {
    if steps != [] {
      var before := After(cfg, s, steps[..|steps| - 1]);
      SeenStays(cfg, s, steps[..|steps| - 1], e);
      StepFrame(cfg, before, steps[|steps| - 1]);
      if D.InLogs(before.delivery, e) {
        LogsGrow(cfg, before, steps[|steps| - 1], e);
      }
    }
  }

  /** The number of partitions never changes. */
  lemma {:induction false} PartitionsStay(cfg: Config, s: System, steps: seq<Step>)
    ensures |After(cfg, s, steps).delivery.parts| == |s.delivery.parts|
  {
    if steps != [] {
      PartitionsStay(cfg, s, steps[..|steps| - 1]);
      StepKeepsPartitions(cfg, After(cfg, s, steps[..|steps| - 1]), steps[|steps| - 1]);
    }
  }

  lemma StepKeepsPartitions(cfg: Config, s: System, step: Step)
    ensures |Apply(cfg, s, step).delivery.parts| == |s.delivery.parts|
  {}

  lemma {:induction false} UnpublishedStays(cfg: Config, s: System, steps: seq<Step>)
    ensures s.unpublished <= After(cfg, s, steps).unpublished
  {
    if steps != [] {
      UnpublishedStays(cfg, s, steps[..|steps| - 1]);
      StepFrame(cfg, After(cfg, s, steps[..|steps| - 1]), steps[|steps| - 1]);
    }
  }

  // ----- The store -----

  /** Over whole runs of the platform, too, versions are gap-free and ids unique. */
  lemma {:induction false} StreamsStayGapFree(cfg: Config, init: System, steps: seq<Step>, streamId: string)
    requires Initial(init)
    ensures var own := StreamRows(After(cfg, init, steps).rows, streamId);
            forall k :: 0 <= k < |own| ==> own[k].version == k + 1
    ensures UniqueIds(After(cfg, init, steps).rows)
  {
    ReachableInv(cfg, init, steps);
    StreamVersionsExact(After(cfg, init, steps).rows, streamId);
  }

  /**
   * From any stored row, replay pointers lead through stored rows of the same stream and tenant,
   * with strictly falling versions, to an original event that states the same fact.
   */
  lemma {:induction false} ReplayLineageWellFounded(cfg: Config, init: System, steps: seq<Step>, r: Event)
    returns (chain: seq<Event>)
    requires Initial(init) && r in After(cfg, init, steps).rows
    ensures chain != [] && chain[0] == r && FollowsPointers(After(cfg, init, steps).rows, chain)
    ensures var last := chain[|chain| - 1];
            last in After(cfg, init, steps).rows && !last.isReplay && SameFact(r, last)
  {
    ReachableInv(cfg, init, steps);
    var rows := After(cfg, init, steps).rows;
    var i :| 0 <= i < |rows| && rows[i] == r;
    chain := PointersReachOriginal(rows, i);
  }

  /** No step changes or removes a row: the table of any later state begins with the earlier one. */
  lemma {:induction false} StoreOnlyGrows(cfg: Config, init: System, first: seq<Step>, more: seq<Step>)
    requires Initial(init)
    ensures After(cfg, init, first).rows <= After(cfg, init, first + more).rows
  {
    ReachableInv(cfg, init, first);
    RunsKeepInv(cfg, After(cfg, init, first), more);
    RunsCompose(cfg, init, first, more);
  }

  // ----- Retries -----

  /** The step commits the INSERT for draft `d` of its call as `row`, whether or not the reply arrives. */
  ghost predicate Stores(s: System, step: Step, d: Draft, row: Event)
  {
    && (step.CommitAppend? || step.LoseReply?) && CanCommit(s, step.w)
    && s.writers[step.w].todo[0] == d && Attempted(s, step.w) == Inserted(row)
  }

  /**
   * Append's idempotence never comes to bear on Ingest or Execute, which draw an id per append: in every
   * reachable state a statement that commits inserts a row, unless its stream was overtaken.
   */
  lemma {:induction false} EveryCommitInserts(cfg: Config, init: System, steps: seq<Step>, w: nat)
    requires Initial(init) && CanCommit(After(cfg, init, steps), w)
    ensures var s := After(cfg, init, steps);
            var pend := s.writers[w].inFlight.value;
            && Attempted(s, w).Existing? == false
            && (Attempted(s, w).Inserted? <==> !Overtaken(s.rows, pend.snap, pend.e.streamId))
  {
    ReachableInv(cfg, init, steps);
    var s := After(cfg, init, steps);
    assert WriterOk(s.rows, s.issued, s.writers[w]);
    CommitCharacterised(s.rows, s.writers[w].inFlight.value.snap, s.writers[w].inFlight.value.e);
  }

  lemma RunStores(cfg: Config, init: System, steps: seq<Step>, step: Step, d: Draft, row: Event)
    requires Initial(init) && Stores(After(cfg, init, steps), step, d, row)
    ensures var s := After(cfg, init, steps);
            && RealisedBy(d, row) && row.id !in RowIds(s.rows)
            && After(cfg, init, steps + [step]).rows == s.rows + [row]
  {
    var s := After(cfg, init, steps);
    ReachableAll(cfg, init, steps);
    assert OnPlan(s.rows, s.writers[step.w]);
    StoresFacts(cfg, s, step, d, row);
    AfterSnoc(cfg, init, steps, step);
  }

  lemma StoresFacts(cfg: Config, s: System, step: Step, d: Draft, row: Event)
    requires TableInv(s) && WritersInv(s) && Stores(s, step, d, row) && UnderWay(s.writers[step.w])
    ensures RealisedBy(d, row) && row.id !in RowIds(s.rows) && Apply(cfg, s, step).rows == s.rows + [row]
  {
    assert WriterOk(s.rows, s.issued, s.writers[step.w]);
    InsertedIsNext(s, step.w);
    CommitFacts(s, step.w);
  }

  /**
   * So a retry stores its command a second time: whatever happens in between and afterwards, two calls
   * with one command whose statements commit leave two rows that both state it.
   */
  lemma {:induction false} RetryStoresTwice(cfg: Config, init: System, first: seq<Step>, one: Step, between: seq<Step>,
                                            two: Step, d: Draft, row1: Event, row2: Event)
    requires Initial(init) && Stores(After(cfg, init, first), one, d, row1)
    requires Stores(After(cfg, init, first + [one] + between), two, d, row2)
    ensures var rows := After(cfg, init, first + [one] + between + [two]).rows;
            row1 in rows && row2 in rows && row1.id != row2.id && RealisedBy(d, row1) && RealisedBy(d, row2)
  {
    var mid := first + [one] + between;
    RunStores(cfg, init, first, one, d, row1);
    RunStores(cfg, init, mid, two, d, row2);
    StoreOnlyGrows(cfg, init, first + [one], between);
    var early, late := After(cfg, init, first + [one]).rows, After(cfg, init, mid).rows;
    assert row1 in early && early <= late;
    assert row1 in late ==> row1.id in RowIds(late);
  }

  // ----- Uninterrupted calls -----

  /** The first `n` appends of call `w` with nothing else happening in between. */
  ghost function SoloSteps(w: nat, n: nat, ids: nat -> string, clock: nat -> Time): seq<Step>
  {
    if n == 0 then [] else
    SoloSteps(w, n - 1, ids, clock) + [BeginAppend(w, ids(n - 1), clock(n - 1))] + [CommitAppend(w)]
  }

  /** One undisturbed append of a fresh id succeeds. */
  lemma SoloAppend(cfg: Config, s: System, w: nat, id: string, now: Time) returns (row: Event)
    requires Inv(cfg, s) && w in s.writers && id !in s.issued
    requires var wr := s.writers[w]; wr.inFlight.None? && !wr.publishing && wr.todo != []
    ensures row == Realise(s.writers[w].todo[0], id, now).(version := |StreamRows(s.rows, row.streamId)| + 1)
    ensures Apply(cfg, Apply(cfg, s, BeginAppend(w, id, now)), CommitAppend(w)) ==
            s.(rows := s.rows + [row], issued := s.issued + {id},
               writers := s.writers[w := OneStored(s.writers[w], row)])
  {
    var e := Realise(s.writers[w].todo[0], id, now);
    assert e.id == id && id !in RowIds(s.rows);
    CommitCharacterised(s.rows, |s.rows|, e);
    row := Commit(s.rows, |s.rows|, e).row;
    var begun := Apply(cfg, s, BeginAppend(w, id, now));
    assert CanCommit(begun, w) && Attempted(begun, w) == Inserted(row);
    assert begun.writers[w := OneStored(begun.writers[w], row)] == s.writers[w := OneStored(s.writers[w], row)];
  }

  /** From `s` to `t`, call `w` turned its first |added| drafts into the rows `added`. */
  ghost predicate SoloDone(s: System, t: System, w: nat, added: seq<Event>, ids: nat -> string, clock: nat -> Time)
    requires w in s.writers
  {
    var wr, n := s.writers[w], |added|;
    && n <= |wr.todo| && t.rows == s.rows + added && w in t.writers
    && t.writers[w] == Writer(wr.plan, wr.todo[n..], None, wr.stored + added, wr.done + added, false)
    && (forall i :: n <= i ==> ids(i) !in t.issued)
    && forall i :: 0 <= i < n ==> added[i] == Realise(wr.todo[i], ids(i), clock(i)).(version := added[i].version)
  }

  lemma SoloOneMore(s: System, t: System, u: System, w: nat, added: seq<Event>, row: Event,
                    ids: nat -> string, clock: nat -> Time)
    requires w in s.writers && SoloDone(s, t, w, added, ids, clock) && |added| < |s.writers[w].todo|
    requires forall i, j :: i != j ==> ids(i) != ids(j)
    requires var n := |added|;
             && row == Realise(s.writers[w].todo[n], ids(n), clock(n)).(version := row.version)
             && u.rows == t.rows + [row] && u.issued == t.issued + {ids(n)} && w in u.writers
             && u.writers[w] == OneStored(t.writers[w], row)
    ensures SoloDone(s, u, w, added + [row], ids, clock)
  {}

  /** A call left alone appends one row per draft, in order, each the draft's event under the drawn id and time. */
  lemma {:induction false} SoloCallAppends(cfg: Config, s: System, w: nat, n: nat, ids: nat -> string,
                                           clock: nat -> Time)
    returns (added: seq<Event>)
    requires Inv(cfg, s) && w in s.writers && n <= |s.writers[w].todo|
    requires s.writers[w].inFlight.None? && !s.writers[w].publishing
    requires (forall i :: ids(i) !in s.issued) && (forall i, j :: i != j ==> ids(i) != ids(j))
    ensures |added| == n && SoloDone(s, After(cfg, s, SoloSteps(w, n, ids, clock)), w, added, ids, clock)
  {
    if n == 0 {
      return [];
    }
    var rest := SoloCallAppends(cfg, s, w, n - 1, ids, clock);
    added := SoloStepsNext(cfg, s, w, rest, ids, clock);
  }

  lemma SoloStepsNext(cfg: Config, s: System, w: nat, rest: seq<Event>, ids: nat -> string, clock: nat -> Time)
    returns (added: seq<Event>)
    requires Inv(cfg, s) && w in s.writers && |rest| < |s.writers[w].todo|
    requires forall i, j :: i != j ==> ids(i) != ids(j)
    requires SoloDone(s, After(cfg, s, SoloSteps(w, |rest|, ids, clock)), w, rest, ids, clock)
    ensures |added| == |rest| + 1
    ensures SoloDone(s, After(cfg, s, SoloSteps(w, |rest| + 1, ids, clock)), w, added, ids, clock)
  {
    var n := |rest|;
    var before := SoloSteps(w, n, ids, clock);
    RunsKeepInv(cfg, s, before);
    AfterTwoMore(cfg, s, before, BeginAppend(w, ids(n), clock(n)), CommitAppend(w));
    added := SoloNext(cfg, s, After(cfg, s, before), w, rest, ids, clock);
  }

  lemma AfterTwoMore(cfg: Config, s: System, steps: seq<Step>, a: Step, b: Step)
    ensures After(cfg, s, steps + [a] + [b]) == Apply(cfg, Apply(cfg, After(cfg, s, steps), a), b)
  {
    AfterSnoc(cfg, s, steps, a);
    AfterSnoc(cfg, s, steps + [a], b);
  }

  lemma SoloNext(cfg: Config, s: System, t: System, w: nat, rest: seq<Event>, ids: nat -> string, clock: nat -> Time)
    returns (added: seq<Event>)
    requires Inv(cfg, t) && w in s.writers && |rest| < |s.writers[w].todo|
    requires SoloDone(s, t, w, rest, ids, clock) && forall i, j :: i != j ==> ids(i) != ids(j)
    ensures |added| == |rest| + 1
    ensures var u := Apply(cfg, Apply(cfg, t, BeginAppend(w, ids(|rest|), clock(|rest|))), CommitAppend(w));
            SoloDone(s, u, w, added, ids, clock)
  {
    var n := |rest|;
    var row := SoloAppend(cfg, t, w, ids(n), clock(n));
    SoloOneMore(s, t, Apply(cfg, Apply(cfg, t, BeginAppend(w, ids(n), clock(n))), CommitAppend(w)), w, rest, row,
                ids, clock);
    added := rest + [row];
  }
}
