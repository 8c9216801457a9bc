/**
 * Recovering an event that never reached the index (internal/application/consume/service.go): when its
 * own document can still come, and what a replay of it puts in its place.
 */
module Recovery {
  import opened Batches
  import opened Collections
  import opened Events
  import opened Guarantees
  import opened Histories
  import opened Pipeline
  import opened QueryBuilder
  import opened Replays
  import opened Sql
  import opened StreamOrder
  import opened Versions
  import opened Writers
  import D = Delivery

  // ----- A document that can still come -----

  /** The consumer's steps up to and including the message at offset `k`, all of them successful. */
  function ConsumeUpTo(p: nat, log: seq<D.Msg>, from: nat, k: nat): (steps: seq<D.Step>)
    requires from <= k < |log|
    ensures forall step :: step in steps ==> !step.Receive?
    decreases k - from
  {
    [D.Fetch(p)] + [if log[from].Good? then D.Index(true, true) else D.Skip] + [D.CommitOffset(true)]
    + if from == k then [] else ConsumeUpTo(p, log, from + 1, k)
  }

  lemma DrainOne(d: D.State, p: nat) returns (t: D.State)
    requires d.phase == D.Idle && D.Pending(d, p)
    ensures var m := D.Current(d, p);
            var handle := if m.Good? then D.Index(true, true) else D.Skip;
            && t == D.After(d, [D.Fetch(p)] + [handle] + [D.CommitOffset(true)])
            && t.phase == D.Idle && |t.parts| == |d.parts|
            && t.parts[p] == d.parts[p].(committed := d.parts[p].committed + 1)
            && t.docs.Keys == d.docs.Keys + if m.Good? then {m.e.id} else {}
  {
    var handle := if D.Current(d, p).Good? then D.Index(true, true) else D.Skip;
    ConsumerAfterThree(d, D.Fetch(p), handle, D.CommitOffset(true));
    t := D.Apply(D.Apply(D.Apply(d, D.Fetch(p)), handle), D.CommitOffset(true));
  }

  lemma ConsumerAfterTwo(d: D.State, a: D.Step, b: D.Step)
    ensures D.After(d, [a] + [b]) == D.Apply(D.Apply(d, a), b)
  {
    assert [a][..0] == [] && [] + [a] == [a];
    D.AfterSnoc(d, [], a);
    D.AfterSnoc(d, [a], b);
  }

  lemma ConsumerAfterThree(d: D.State, a: D.Step, b: D.Step, c: D.Step)
    ensures D.After(d, [a] + [b] + [c]) == D.Apply(D.Apply(D.Apply(d, a), b), c)
  {
    ConsumerAfterTwo(d, a, b);
    D.AfterSnoc(d, [a] + [b], c);
  }

  /** An idle consumer can bring every message up to offset `k` of a partition into the index. */
  lemma {:induction false} DrainIndexes(d: D.State, p: nat, k: nat)
    requires d.phase == D.Idle && p < |d.parts| && d.parts[p].committed <= k < |d.parts[p].log|
    requires d.parts[p].log[k].Good?
    ensures d.parts[p].log[k].e.id in D.After(d, ConsumeUpTo(p, d.parts[p].log, d.parts[p].committed, k)).docs
    decreases k - d.parts[p].committed
  {
    var log, from := d.parts[p].log, d.parts[p].committed;
    var t := DrainOne(d, p);
    var one := [D.Fetch(p)] + [if log[from].Good? then D.Index(true, true) else D.Skip] + [D.CommitOffset(true)];
    if from == k {
      assert ConsumeUpTo(p, log, from, k) == one + [];
      assert one + [] == one;
    } else {
      DrainIndexes(t, p, k);
      D.RunsCompose(d, one, ConsumeUpTo(p, log, from + 1, k));
      assert ConsumeUpTo(p, log, from, k) == one + ConsumeUpTo(p, log, from + 1, k);
    }
  }

  function ConsumeAll(steps: seq<D.Step>): (r: seq<Step>)
  {
    if steps == [] then [] else ConsumeAll(steps[..|steps| - 1]) + [Consume(steps[|steps| - 1])]
  }

  lemma {:induction false} ConsumeAllResult(cfg: Config, s: System, steps: seq<D.Step>)
    requires forall step :: step in steps ==> !step.Receive?
    ensures After(cfg, s, ConsumeAll(steps)) == s.(delivery := D.After(s.delivery, steps))
  {
    if steps != [] {
      var n := |steps| - 1;
      ConsumeAllResult(cfg, s, steps[..n]);
      AfterSnoc(cfg, s, ConsumeAll(steps[..n]), Consume(steps[n]));
    }
  }

  /** What is in the backlog can still be indexed, whatever the consumer is doing. */
  lemma BacklogCanBeIndexed(cfg: Config, s: System, r: Event) returns (more: seq<Step>)
    requires InBacklog(s.delivery, r)
    ensures r.id in After(cfg, s, more).delivery.docs && After(cfg, s, more).rows == s.rows
  {
    var p, k :| 0 <= p < |s.delivery.parts|
                && s.delivery.parts[p].committed <= k < |s.delivery.parts[p].log|
                && s.delivery.parts[p].log[k] == D.Good(r);
    var restart := [D.Crash] + [D.Restart];
    var d := D.After(s.delivery, restart);
    ConsumerAfterTwo(s.delivery, D.Crash, D.Restart);
    var drain := ConsumeUpTo(p, d.parts[p].log, d.parts[p].committed, k);
    DrainIndexes(d, p, k);
    D.RunsCompose(s.delivery, restart, drain);
    ConsumeAllResult(cfg, s, restart + drain);
    more := ConsumeAll(restart + drain);
  }

  // ----- A document that never comes -----

  /** No document, no message of it left to consume, and no call that would write one. */
  ghost predicate Missed(s: System, r: Event)
  {
    r in s.rows && r.id !in s.delivery.docs && !InBacklog(s.delivery, r) && !Waiting(s, r)
  }

  /** One consumer step indexes nothing but the message at a committed offset. */
  lemma ConsumeKeepsMissing(d: D.State, step: D.Step, r: Event)
    requires D.Bounds(d) && !step.Receive? && r.id !in d.docs && !InBacklog(d, r)
    requires forall e :: D.InLogs(d, e) && e.id == r.id ==> e == r
    ensures r.id !in D.Apply(d, step).docs && !InBacklog(D.Apply(d, step), r)
  {
    if step.Index? && d.phase.Fetched? && D.Current(d, d.phase.p).Good? {
      var e := D.Current(d, d.phase.p).e;
      assert D.InLogs(d, e);
      assert e == r ==> InBacklog(d, r);
    }
    if InBacklog(D.Apply(d, step), r) {
      BacklogShrinks(d, step, r);
    }
  }

  lemma BacklogShrinks(d: D.State, step: D.Step, r: Event)
    requires !step.Receive? && InBacklog(D.Apply(d, step), r)
    ensures InBacklog(d, r)
  {
    var t := D.Apply(d, step);
    var p, k :| 0 <= p < |t.parts| && t.parts[p].committed <= k < |t.parts[p].log| && t.parts[p].log[k] == D.Good(r);
    assert d.parts[p].log[k] == D.Good(r) && d.parts[p].committed <= k;
  }

  /** A message of another event changes neither the backlog of this one nor the documents. */
  lemma ReceiveKeepsMissing(d: D.State, p: nat, m: D.Msg, r: Event)
    requires D.Bounds(d) && m != D.Good(r) && !InBacklog(d, r)
    ensures !InBacklog(D.Apply(d, D.Receive(p, m)), r) && D.Apply(d, D.Receive(p, m)).docs == d.docs
  {
    var t := D.Apply(d, D.Receive(p, m));
    forall q, k | 0 <= q < |t.parts| && t.parts[q].committed <= k < |t.parts[q].log|
      ensures t.parts[q].log[k] != D.Good(r)
    {
      assert k < |d.parts[q].log| ==> d.parts[q].log[k] != D.Good(r);
    }
  }

  lemma MissedRowsStay(cfg: Config, s: System, step: Step, r: Event)
    requires TableInv(s) && WritersInv(s) && r in s.rows && !Waiting(s, r)
    ensures !Waiting(Apply(cfg, s, step), r)
  {
    var t := Apply(cfg, s, step);
    if w :| w in t.writers && r in t.writers[w].done {
      DoneRows(cfg, s, step, w, r);
    }
  }

  lemma LogNamesRow(cfg: Config, s: System, r: Event)
    requires TableInv(s) && MessagesInv(cfg, s) && r in s.rows
    ensures forall e :: D.InLogs(s.delivery, e) && e.id == r.id ==> e == r
  {
    forall e | D.InLogs(s.delivery, e) && e.id == r.id ensures e == r {
      IdNamesRow(s.rows, e, r);
    }
  }

  lemma StepKeepsMissed(cfg: Config, s: System, step: Step, r: Event)
    requires AllInv(cfg, s) && Missed(s, r)
    ensures Missed(Apply(cfg, s, step), r)
  {
    StepKeepsTable(cfg, s, step);
    MissedRowsStay(cfg, s, step, r);
    LogNamesRow(cfg, s, r);
    DeliveryKeepsMissed(cfg, s, step, r);
  }

  lemma DeliveryKeepsMissed(cfg: Config, s: System, step: Step, r: Event)
    requires MessagesInv(cfg, s) && Missed(s, r)
    requires forall e :: D.InLogs(s.delivery, e) && e.id == r.id ==> e == r
    ensures var d := Apply(cfg, s, step).delivery; r.id !in d.docs && !InBacklog(d, r)
  {
    if step.Consume? {
      if !step.step.Receive? {
        ConsumeKeepsMissing(s.delivery, step.step, r);
      }
    } else if step.Garbage? {
      ReceiveKeepsMissing(s.delivery, step.p, D.Malformed, r);
    } else if Writes(s, step) {
      var e := s.writers[step.w].done[0];
      WriteResult(cfg, s, step);
      assert e in s.writers[step.w].done;
      ReceiveKeepsMissing(s.delivery, PartitionOf(cfg, s.delivery, e.streamId), D.Good(e), r);
    } else {
      NoWriteFrame(cfg, s, step);
    }
  }

  lemma NoWriteFrame(cfg: Config, s: System, step: Step)
    requires !step.Consume? && !step.Garbage? && !Writes(s, step)
    ensures Apply(cfg, s, step).delivery == s.delivery
  {}

  lemma {:induction false} MissedForever(cfg: Config, s: System, steps: seq<Step>, r: Event)
    requires AllInv(cfg, s) && Missed(s, r)
    ensures Missed(After(cfg, s, steps), r)
  {
    if steps != [] {
      MissedForever(cfg, s, steps[..|steps| - 1], r);
      RunsKeepAll(cfg, s, steps[..|steps| - 1]);
      StepKeepsMissed(cfg, After(cfg, s, steps[..|steps| - 1]), steps[|steps| - 1], r);
    }
  }

  /**
   * Main result. In every reachable state, a stored row that has no document and that no call is about
   * to publish can still get its document iff a message of it waits beyond a committed offset. So after a
   * double failure, once the offset is committed, it never does.
   */
  lemma {:induction false} DocumentCanComeExactly(cfg: Config, init: System, first: seq<Step>, r: Event)
    requires Initial(init)
    requires var s := After(cfg, init, first); r in s.rows && r.id !in s.delivery.docs && !Waiting(s, r)
    ensures InBacklog(After(cfg, init, first).delivery, r) <==>
            exists more :: r.id in After(cfg, init, first + more).delivery.docs
  {
    var s := After(cfg, init, first);
    ReachableAll(cfg, init, first);
    if InBacklog(s.delivery, r) {
      var more := BacklogCanBeIndexed(cfg, s, r);
      RunsCompose(cfg, init, first, more);
    } else {
      forall more ensures r.id !in After(cfg, init, first + more).delivery.docs {
        RunsCompose(cfg, init, first, more);
        MissedForever(cfg, s, more, r);
      }
    }
  }

  // ----- What a replay puts in its place -----

  /** A document of a replay states the fact of the row it points to, later in the same stream. */
  lemma {:induction false} ReplayDocumentStatesFact(cfg: Config, init: System, steps: seq<Step>, r: Event, c: Event)
    requires Initial(init)
    requires var s := After(cfg, init, steps);
             r in s.rows && c in s.rows && c.isReplay && c.replaySourceEventId == r.id && c.id in s.delivery.docs
    ensures After(cfg, init, steps).delivery.docs[c.id] == c && SameFact(c, r)
    ensures c.streamId == r.streamId && c.tenantId == r.tenantId && r.version < c.version
  {
    ReachableAll(cfg, init, steps);
    var s := After(cfg, init, steps);
    DocumentsStored(cfg, s);
    var i :| 0 <= i < |s.rows| && s.rows[i] == c;
    var j := SourceOf(s.rows, i);
    assert [s.rows[i], s.rows[j]][0] == c && [s.rows[i], s.rows[j]][1] == s.rows[j];
    assert Lookup(s.rows, r.id) == Some(s.rows[j]);
    IdNamesRow(s.rows, r, s.rows[j]);
  }

  /** A query by the row's id lists it alone. */
  lemma ListsOne(rows: seq<Event>, r: Event) returns (f: ReplayFilter)
    requires UniqueIds(rows) && r in rows
    ensures IsOrdering(OccurredAsc, rows, Matching(f), [r])
  {
    f := ReplayFilter(r.tenantId, "", "", "", "", ZERO_TIME, ZERO_TIME, [r.id]);
    var found := Filter(rows, Matching(f));
    FilterUniqueIds(rows, Matching(f));
    forall e | e in found ensures e == r {
      IdNamesRow(rows, e, r);
    }
    assert r in found;
    OnlyOne(found, r);
  }

  lemma OnlyOne(s: seq<Event>, r: Event)
    requires UniqueIds(s) && r in s && forall e :: e in s ==> e == r
    ensures |s| == 1
  {
    ElementsCount(s);
    assert Elements(s) == {r};
  }

  /**
   * Main result. From every reachable state with a free call, a replay of a stored row of a consumed topic
   * can be stored, published and indexed: then a document states the row's fact, later in its stream. The
   * row's own document is not restored by that: if it was missed for ever it still is.
   */
  lemma {:induction false} ReplayRecovers(cfg: Config, init: System, first: seq<Step>, w: nat, r: Event,
                                          ids: nat -> string)
    returns (more: seq<Step>, c: Event)
    requires Initial(init) && init.delivery.parts != []
    requires var s := After(cfg, init, first); w !in s.writers && r in s.rows && Routed(cfg, r)
    requires (forall i :: ids(i) !in After(cfg, init, first).issued) && (forall i, j :: i != j ==> ids(i) != ids(j))
    ensures var t := After(cfg, init, first + more);
            && c.id in t.delivery.docs && t.delivery.docs[c.id] == c
            && c.replaySourceEventId == r.id && SameFact(c, r) && c.streamId == r.streamId && r.version < c.version
            && (Missed(After(cfg, init, first), r) ==> r.id !in t.delivery.docs)
  {
    more, c := IndexCopy(cfg, init, first, w, r, ids);
    StoreOnlyGrows(cfg, init, first, more);
    ReplayDocumentStatesFact(cfg, init, first + more, r, c);
    if Missed(After(cfg, init, first), r) {
      ReachableAll(cfg, init, first);
      RunsCompose(cfg, init, first, more);
      MissedForever(cfg, After(cfg, init, first), more, r);
    }
  }

  lemma IndexCopy(cfg: Config, init: System, first: seq<Step>, w: nat, r: Event, ids: nat -> string)
    returns (more: seq<Step>, c: Event)
    requires Initial(init) && init.delivery.parts != []
    requires var s := After(cfg, init, first); w !in s.writers && r in s.rows && Routed(cfg, r)
    requires (forall i :: ids(i) !in After(cfg, init, first).issued) && (forall i, j :: i != j ==> ids(i) != ids(j))
    ensures var t := After(cfg, init, first + more);
            c in t.rows && c.isReplay && c.replaySourceEventId == r.id && c.id in t.delivery.docs
  {
    var s := After(cfg, init, first);
    ReachableAll(cfg, init, first);
    PartitionsStay(cfg, init, first);
    var stored;
    stored, c := PublishCopy(cfg, s, w, r, ids);
    var rest := BacklogCanBeIndexed(cfg, After(cfg, s, stored), c);
    RunsCompose(cfg, s, stored, rest);
    RunsCompose(cfg, init, first, stored + rest);
    more := stored + rest;
  }

  /** The replay call on its own: one copy, stored and published, waiting for the consumer. */
  lemma PublishCopy(cfg: Config, s: System, w: nat, r: Event, ids: nat -> string) returns (steps: seq<Step>, c: Event)
    requires Inv(cfg, s) && s.delivery.parts != [] && w !in s.writers && r in s.rows && Routed(cfg, r)
    requires (forall i :: ids(i) !in s.issued) && (forall i, j :: i != j ==> ids(i) != ids(j))
    ensures var t := After(cfg, s, steps);
            && c in t.rows && c.isReplay && c.replaySourceEventId == r.id && InBacklog(t.delivery, c)
  {
    var f := ListsOne(s.rows, r);
    var batch, clock := Batch("batch", 0, "reason"), (i: nat) => 0;
    var added := StoreReplay(cfg, s, w, f, batch, [r], ids, clock);
    var store := ReplaySteps(w, f, batch, [r], ids, clock);
    var u := After(cfg, s, store);
    c := added[0];
    assert added == [c];
    PublishRow(cfg, u, w, c);
    RunsCompose(cfg, s, store, PublishSteps(w));
    steps := store + PublishSteps(w);
    ReceivedWaits(s.delivery, PartitionOf(cfg, s.delivery, c.streamId), c);
  }

  lemma ReceivedWaits(d: D.State, p: nat, e: Event)
    requires p < |d.parts| && d.parts[p].committed <= |d.parts[p].log|
    ensures InBacklog(D.Apply(d, D.Receive(p, D.Good(e))), e)
  {
    var t := D.Apply(d, D.Receive(p, D.Good(e)));
    assert t.parts[p].log[|d.parts[p].log|] == D.Good(e);
  }

  // ----- A double failure -----

  /** Neither the index nor the dead-letter queue can be written, and the offset is committed all the same. */
  function FailSteps(p: nat): seq<Step>
  {
    [Consume(D.Fetch(p)), Consume(D.Index(false, false)), Consume(D.DeadLetter(false, false))]
    + [Consume(D.CommitOffset(true))]
  }

  lemma FailResult(d: D.State, p: nat)
    requires d.phase == D.Idle && D.Pending(d, p) && D.Current(d, p).Good?
    ensures var e, next := D.Current(d, p).e, d.parts[p].(committed := d.parts[p].committed + 1);
            D.Apply(D.Apply(D.Apply(D.Apply(d, D.Fetch(p)), D.Index(false, false)), D.DeadLetter(false, false)),
                    D.CommitOffset(true)) ==
            d.(parts := d.parts[p := next], skipped := d.skipped + {e.id}, calls := d.calls + 1,
               commits := d.commits + 1)
  {}

  lemma FailRow(cfg: Config, s: System, was: D.State, p: nat, row: Event)
    requires AtEnd(was) && p < |was.parts| && s.delivery == D.Apply(was, D.Receive(p, D.Good(row)))
    ensures var t := After(cfg, s, FailSteps(p));
            && t == s.(delivery := t.delivery) && t.delivery.docs == was.docs && row.id in t.delivery.skipped
            && forall q :: 0 <= q < |t.delivery.parts| ==> t.delivery.parts[q].committed == |t.delivery.parts[q].log|
  {
    var handled := [Consume(D.Fetch(p)), Consume(D.Index(false, false)), Consume(D.DeadLetter(false, false))];
    AfterThree(cfg, s, handled[0], handled[1], handled[2]);
    AfterSnoc(cfg, s, handled, Consume(D.CommitOffset(true)));
    assert D.Pending(s.delivery, p) && D.Current(s.delivery, p) == D.Good(row);
    FailResult(s.delivery, p);
  }

  /** From a quiet platform, an ingest whose event fails twice is missed: only a replay can show its fact. */
  lemma {:induction false} DoubleFailureIsMissed(cfg: Config, s: System, e: Arrival)
    requires AllInv(cfg, s) && Quiet(s) && e.id !in s.issued
    requires cfg.resolver.Resolve(e.cmd.streamId) == cfg.mainTopic
    ensures var t := After(cfg, s, StoreSteps(0, e) + PublishSteps(0)
                                   + FailSteps(PartitionOf(cfg, s.delivery, e.cmd.streamId)));
            && Missed(t, RowOf(s.rows, e)) && e.id in t.delivery.skipped
            && t.writers == map[] && t.issued == s.issued + {e.id}
  {
    var p, row := PartitionOf(cfg, s.delivery, e.cmd.streamId), RowOf(s.rows, e);
    StoreAndPublish(cfg, s, e);
    FailRow(cfg, After(cfg, s, StoreSteps(0, e) + PublishSteps(0)), s.delivery, p, row);
    RunsCompose(cfg, s, StoreSteps(0, e) + PublishSteps(0), FailSteps(p));
    NoDocumentYet(cfg, s, e.id);
  }

  lemma NoDocumentYet(cfg: Config, s: System, id: string)
    requires Inv(cfg, s) && id !in s.issued
    ensures id !in s.delivery.docs
  {
    forall x | x in s.delivery.docs ensures x in s.issued {
      assert D.InLogs(s.delivery, s.delivery.docs[x]) && s.delivery.docs[x].id in RowIds(s.rows);
    }
  }
}
