/**
 * Runs that exist: every history of ingested events can be stored, published and indexed, one after the
 * other, and leaves the platform caught up.
 */
module Histories {
  import opened Batches
  import opened Collections
  import opened Events
  import opened Guarantees
  import opened Pipeline
  import opened StreamOrder
  import opened Versions
  import opened Writers
  import D = Delivery

  // ----- One ingest, undisturbed -----

  lemma AfterOne(cfg: Config, s: System, a: Step)
    ensures After(cfg, s, [a]) == Apply(cfg, s, a)
  {
    AfterSnoc(cfg, s, [], a);
    assert [] + [a] == [a];
  }

  lemma AfterTwo(cfg: Config, s: System, a: Step, b: Step)
    ensures After(cfg, s, [a, b]) == Apply(cfg, Apply(cfg, s, a), b)
  {
    AfterOne(cfg, s, a);
    AfterSnoc(cfg, s, [a], b);
    assert [a] + [b] == [a, b];
  }

  lemma AfterThree(cfg: Config, s: System, a: Step, b: Step, c: Step)
    ensures After(cfg, s, [a, b, c]) == Apply(cfg, Apply(cfg, Apply(cfg, s, a), b), c)
  {
    AfterTwo(cfg, s, a, b);
    AfterSnoc(cfg, s, [a, b], c);
    assert [a, b] + [c] == [a, b, c];
  }

  /** A command with what its ingest draws. */
  datatype Arrival = Arrival(cmd: Command, tenantId: string, id: string, now: Time)

  function StoreSteps(w: nat, e: Arrival): seq<Step>
  {
    [BeginIngest(w, e.cmd, e.tenantId), BeginAppend(w, e.id, e.now), CommitAppend(w)]
  }

  /** The row an undisturbed ingest adds: the command's event with the next version of its stream. */
  function RowOf(rows: seq<Event>, e: Arrival): Event
  {
    Ingested(e.cmd, e.tenantId, e.id, e.now).(version := |StreamRows(rows, e.cmd.streamId)| + 1)
  }

  /** After storing, call `w` has its row to publish. */
  lemma Store(cfg: Config, s: System, w: nat, e: Arrival)
    requires AllInv(cfg, s) && w !in s.writers && e.id !in s.issued
    ensures var row := RowOf(s.rows, e);
            After(cfg, s, StoreSteps(w, e)) ==
            s.(rows := s.rows + [row], issued := s.issued + {e.id},
               writers := s.writers[w := Writer([Fresh(e.cmd, e.tenantId)], [], None, [row], [row], false)])
  {
    var begun := Apply(cfg, s, BeginIngest(w, e.cmd, e.tenantId));
    StepKeepsInv(cfg, s, BeginIngest(w, e.cmd, e.tenantId));
    var row := SoloAppend(cfg, begun, w, e.id, e.now);
    AfterThree(cfg, s, BeginIngest(w, e.cmd, e.tenantId), BeginAppend(w, e.id, e.now), CommitAppend(w));
    StoredOnce(s.writers, w, Fresh(e.cmd, e.tenantId), row);
  }

  lemma StoredOnce(writers: map<nat, Writer>, w: nat, d: Draft, row: Event)
    ensures var begun := writers[w := NewWriter([d])];
            begun[w := OneStored(begun[w], row)] == writers[w := Writer([d], [], None, [row], [row], false)]
  {
    assert [d][1..] == [] && [] + [row] == [row];
    assert OneStored(NewWriter([d]), row) == Writer([d], [], None, [row], [row], false);
  }

  function PublishSteps(w: nat): seq<Step>
  {
    [BeginPublishing(w), Publish(w, true, true), Finish(w)]
  }

  lemma PublishRow(cfg: Config, s: System, w: nat, row: Event)
    requires w in s.writers && s.writers[w].todo == [] && s.writers[w].done == [row] && s.delivery.parts != []
    ensures var t := After(cfg, s, PublishSteps(w));
            && t.rows == s.rows && t.issued == s.issued && t.writers == s.writers - {w}
            && t.unpublished == s.unpublished
            && t.delivery == if Routed(cfg, row)
                             then D.Apply(s.delivery,
                                          D.Receive(PartitionOf(cfg, s.delivery, row.streamId), D.Good(row)))
                             else s.delivery
  {
    AfterThree(cfg, s, BeginPublishing(w), Publish(w, true, true), Finish(w));
    var begun := Apply(cfg, s, BeginPublishing(w));
    var published := Apply(cfg, begun, Publish(w, true, true));
    WriteResult(cfg, begun, Publish(w, true, true));
    assert [row][1..] == [];
    assert published.writers == s.writers[w := s.writers[w].(publishing := true, done := [])];
    assert published.writers - {w} == s.writers - {w};
  }

  function ConsumeSteps(p: nat): seq<Step>
  {
    [Consume(D.Fetch(p)), Consume(D.Index(true, true)), Consume(D.CommitOffset(true))]
  }

  /** The consumer stands idle at the end of every partition. */
  ghost predicate AtEnd(d: D.State)
  {
    && d.phase == D.Idle && d.skipped == {} && d.dlq == []
    && forall p :: 0 <= p < |d.parts| ==> d.parts[p].committed == |d.parts[p].log|
  }

  lemma ConsumeRow(cfg: Config, s: System, was: D.State, p: nat, row: Event)
    requires AtEnd(was) && p < |was.parts| && s.delivery == D.Apply(was, D.Receive(p, D.Good(row)))
    ensures var t := After(cfg, s, ConsumeSteps(p));
            && AtEnd(t.delivery) && |t.delivery.parts| == |was.parts|
            && t == s.(delivery := t.delivery)
  {
    AfterThree(cfg, s, Consume(D.Fetch(p)), Consume(D.Index(true, true)), Consume(D.CommitOffset(true)));
    assert D.Pending(s.delivery, p) && D.Current(s.delivery, p) == D.Good(row);
  }

  // ----- Whole histories -----

  /** Nothing runs, nothing failed, and everything published has been indexed. */
  ghost predicate Quiet(s: System)
  {
    s.writers == map[] && s.unpublished == {} && AtEnd(s.delivery) && s.delivery.parts != []
  }

  function IngestSteps(cfg: Config, d: D.State, e: Arrival): seq<Step>
    requires d.parts != []
  {
    StoreSteps(0, e) + PublishSteps(0)
    + if cfg.resolver.Resolve(e.cmd.streamId) == cfg.mainTopic
      then ConsumeSteps(PartitionOf(cfg, d, e.cmd.streamId)) else []
  }

  lemma QuietIsCaughtUp(s: System)
    requires Quiet(s)
    ensures CaughtUp(s)
  {}

  /** Stored and published, nothing of it consumed yet. */
  lemma StoreAndPublish(cfg: Config, s: System, e: Arrival)
    requires AllInv(cfg, s) && Quiet(s) && e.id !in s.issued
    ensures var t, row := After(cfg, s, StoreSteps(0, e) + PublishSteps(0)), RowOf(s.rows, e);
            && t.rows == s.rows + [row] && t.issued == s.issued + {e.id}
            && t.writers == map[] && t.unpublished == {}
            && t.delivery == if Routed(cfg, row)
                             then D.Apply(s.delivery,
                                          D.Receive(PartitionOf(cfg, s.delivery, row.streamId), D.Good(row)))
                             else s.delivery
  {
    Store(cfg, s, 0, e);
    PublishStored(cfg, s, After(cfg, s, StoreSteps(0, e)), e);
    RunsCompose(cfg, s, StoreSteps(0, e), PublishSteps(0));
  }

  lemma PublishStored(cfg: Config, s: System, stored: System, e: Arrival)
    requires Quiet(s)
    requires var row := RowOf(s.rows, e);
             stored == s.(rows := s.rows + [row], issued := s.issued + {e.id},
                          writers := map[0 := Writer([Fresh(e.cmd, e.tenantId)], [], None, [row], [row], false)])
    ensures var t, row := After(cfg, stored, PublishSteps(0)), RowOf(s.rows, e);
            && t.rows == stored.rows && t.issued == stored.issued && t.writers == map[] && t.unpublished == {}
            && t.delivery == if Routed(cfg, row)
                             then D.Apply(s.delivery,
                                          D.Receive(PartitionOf(cfg, s.delivery, row.streamId), D.Good(row)))
                             else s.delivery
  {
    PublishRow(cfg, stored, 0, RowOf(s.rows, e));
  }

  /** One undisturbed ingest leads from quiet to quiet and adds its row. */
  lemma {:induction false} IngestWhole(cfg: Config, s: System, e: Arrival)
    requires AllInv(cfg, s) && Quiet(s) && e.id !in s.issued
    ensures var t := After(cfg, s, IngestSteps(cfg, s.delivery, e));
            && Quiet(t) && AllInv(cfg, t) && |t.delivery.parts| == |s.delivery.parts|
            && t.rows == s.rows + [RowOf(s.rows, e)] && t.issued == s.issued + {e.id}
  {
    RunsKeepAll(cfg, s, IngestSteps(cfg, s.delivery, e));
    StoreAndPublish(cfg, s, e);
    IngestConsumed(cfg, s, After(cfg, s, StoreSteps(0, e) + PublishSteps(0)), e);
  }

  lemma IngestConsumed(cfg: Config, s: System, published: System, e: Arrival)
    requires Quiet(s) && published == After(cfg, s, StoreSteps(0, e) + PublishSteps(0))
    requires published.writers == map[] && published.unpublished == {}
    requires var row := RowOf(s.rows, e);
             published.delivery ==
             if Routed(cfg, row)
             then D.Apply(s.delivery, D.Receive(PartitionOf(cfg, s.delivery, row.streamId), D.Good(row)))
             else s.delivery
    ensures var t := After(cfg, s, IngestSteps(cfg, s.delivery, e));
            && Quiet(t) && |t.delivery.parts| == |s.delivery.parts|
            && t.rows == published.rows && t.issued == published.issued
  {
    var row, both := RowOf(s.rows, e), StoreSteps(0, e) + PublishSteps(0);
    if Routed(cfg, row) {
      var p := PartitionOf(cfg, s.delivery, e.cmd.streamId);
      ConsumeRow(cfg, published, s.delivery, p, row);
      RunsCompose(cfg, s, both, ConsumeSteps(p));
    } else {
      assert both + [] == both;
    }
  }

  /** The table a list of ingests builds, one after the other. */
  function Told(arrivals: seq<Arrival>): (rows: seq<Event>)
    ensures |rows| == |arrivals|
  {
    if arrivals == [] then [] else
    var before := Told(arrivals[..|arrivals| - 1]);
    before + [RowOf(before, arrivals[|arrivals| - 1])]
  }

  function ArrivalIds(arrivals: seq<Arrival>): set<string>
  {
    set e | e in arrivals :: e.id
  }

  /** The platform is quiet, and these arrivals, in this order, are all it has ever stored. */
  ghost predicate HistoryIs(s: System, arrivals: seq<Arrival>)
  {
    Quiet(s) && s.rows == Told(arrivals) && s.issued == ArrivalIds(arrivals)
  }

  /**
   * Main result. Every list of ingests with distinct ids is the history of some run that ends caught up
   * and quiet, with exactly their rows in the table.
   */
  lemma {:induction false} EveryHistoryHappens(cfg: Config, init: System, arrivals: seq<Arrival>)
    returns (steps: seq<Step>)
    requires Initial(init) && init.delivery.parts != []
    requires forall i, j :: 0 <= i < j < |arrivals| ==> arrivals[i].id != arrivals[j].id
    ensures HistoryIs(After(cfg, init, steps), arrivals)
  {
    if arrivals == [] {
      steps := [];
    } else {
      var n := |arrivals| - 1;
      var first := EveryHistoryHappens(cfg, init, arrivals[..n]);
      var more := OneLater(cfg, init, first, arrivals[..n], arrivals[n]);
      assert arrivals[..n] + [arrivals[n]] == arrivals;
      steps := first + more;
    }
  }

  /** A history that goes on by one ingest. */
  lemma OneLater(cfg: Config, init: System, first: seq<Step>, arrivals: seq<Arrival>, e: Arrival)
    returns (more: seq<Step>)
    requires Initial(init) && HistoryIs(After(cfg, init, first), arrivals)
    requires forall i, j :: 0 <= i < j < |arrivals| ==> arrivals[i].id != arrivals[j].id
    requires forall i :: 0 <= i < |arrivals| ==> arrivals[i].id != e.id
    ensures HistoryIs(After(cfg, init, first + more), arrivals + [e])
  {
    var s := After(cfg, init, first);
    assert (arrivals + [e])[..|arrivals|] == arrivals;
    ReachableAll(cfg, init, first);
    OneMore(cfg, s, arrivals + [e]);
    more := IngestSteps(cfg, s.delivery, e);
    RunsCompose(cfg, init, first, more);
  }

  lemma OneMore(cfg: Config, s: System, arrivals: seq<Arrival>)
    requires arrivals != [] && forall i, j :: 0 <= i < j < |arrivals| ==> arrivals[i].id != arrivals[j].id
    requires AllInv(cfg, s) && HistoryIs(s, arrivals[..|arrivals| - 1])
    ensures HistoryIs(After(cfg, s, IngestSteps(cfg, s.delivery, arrivals[|arrivals| - 1])), arrivals)
  {
    OneIdMore(arrivals);
    IngestWhole(cfg, s, arrivals[|arrivals| - 1]);
  }

  lemma OneIdMore(arrivals: seq<Arrival>)
    requires arrivals != [] && forall i, j :: 0 <= i < j < |arrivals| ==> arrivals[i].id != arrivals[j].id
    ensures var n := |arrivals| - 1;
            && ArrivalIds(arrivals) == ArrivalIds(arrivals[..n]) + {arrivals[n].id}
            && arrivals[n].id !in ArrivalIds(arrivals[..n])
  {}
}
