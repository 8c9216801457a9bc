/**
 * The order of a stream's messages on the main topic. The balancer puts a stream on one partition
 * (internal/infrastructure/kafka/producer.go), so its consumer sees them in log order; whether that is
 * version order depends on how calls on the stream overlap.
 */
module StreamOrder {
  import opened Batches
  import opened Events
  import opened Pipeline
  import opened Versions
  import D = Delivery

  // ----- One partition per stream -----

  ghost predicate OnePartition(cfg: Config, d: D.State)
  {
    forall p, k :: 0 <= p < |d.parts| && 0 <= k < |d.parts[p].log| && d.parts[p].log[k].Good? ==>
      p == PartitionOf(cfg, d, d.parts[p].log[k].e.streamId)
  }

  ghost predicate SameLogs(d: D.State, e: D.State)
  {
    |d.parts| == |e.parts| && forall p :: 0 <= p < |d.parts| ==> d.parts[p].log == e.parts[p].log
  }

  lemma ConsumeSameLogs(d: D.State, step: D.Step)
    requires !step.Receive?
    ensures SameLogs(d, D.Apply(d, step))
  {}

  /** Steps that write no event leave the events of the logs as they are. */
  ghost predicate Writes(s: System, step: Step)
  {
    (step.Rewrite? || (step.Publish? && (step.written || step.acked))) && CanPublish(s, step.w)
  }

  lemma OtherStepsSameLogs(cfg: Config, s: System, step: Step)
    requires !Writes(s, step) && !step.Garbage?
    ensures SameLogs(s.delivery, Apply(cfg, s, step).delivery)
  {
    if step.Consume? && !step.step.Receive? {
      ConsumeSameLogs(s.delivery, step.step);
    }
  }

  lemma ReceiveOnePartition(cfg: Config, d: D.State, p: nat, m: D.Msg)
    requires OnePartition(cfg, d) && p < |d.parts|
    requires m.Good? ==> p == PartitionOf(cfg, d, m.e.streamId)
    ensures OnePartition(cfg, D.Apply(d, D.Receive(p, m)))
  {}

  lemma WriteResult(cfg: Config, s: System, step: Step)
    requires Writes(s, step)
    ensures var e := s.writers[step.w].done[0];
            Apply(cfg, s, step).delivery ==
            if Routed(cfg, e) then D.Apply(s.delivery, D.Receive(PartitionOf(cfg, s.delivery, e.streamId), D.Good(e)))
            else s.delivery
  {}

  /** When the client library repeats a write, the event is on its partition twice, and published once. */
  lemma RepeatedWrite(cfg: Config, s: System, w: nat)
    requires CanPublish(s, w) && Routed(cfg, s.writers[w].done[0])
    ensures var e, t := s.writers[w].done[0], Apply(cfg, Apply(cfg, s, Rewrite(w)), Publish(w, true, true));
            var p := cfg.hash(e.streamId) % |s.delivery.parts|;
            && t.delivery.parts[p].log == s.delivery.parts[p].log + [D.Good(e), D.Good(e)]
            && t.writers[w].done == s.writers[w].done[1..]
  {
    var t := Apply(cfg, s, Rewrite(w));
    WriteResult(cfg, s, Rewrite(w));
    assert t.writers == s.writers && CanPublish(t, w);
    WriteResult(cfg, t, Publish(w, true, true));
  }

  lemma StepKeepsPartition(cfg: Config, s: System, step: Step)
    requires OnePartition(cfg, s.delivery)
    ensures OnePartition(cfg, Apply(cfg, s, step).delivery)
  {
    if Writes(s, step) {
      var e := s.writers[step.w].done[0];
      WriteResult(cfg, s, step);
      ReceiveOnePartition(cfg, s.delivery, PartitionOf(cfg, s.delivery, e.streamId), D.Good(e));
    } else if step.Garbage? {
      if step.p < |s.delivery.parts| {
        ReceiveOnePartition(cfg, s.delivery, step.p, D.Malformed);
      }
    } else {
      OtherStepsSameLogs(cfg, s, step);
    }
  }

  lemma {:induction false} RunsKeepPartition(cfg: Config, s: System, steps: seq<Step>)
    requires OnePartition(cfg, s.delivery)
    ensures OnePartition(cfg, After(cfg, s, steps).delivery)
  {
    if steps != [] {
      RunsKeepPartition(cfg, s, steps[..|steps| - 1]);
      StepKeepsPartition(cfg, After(cfg, s, steps[..|steps| - 1]), steps[|steps| - 1]);
    }
  }

  /** In every reachable state, all messages of a stream lie on the partition its name hashes to. */
  lemma {:induction false} StreamsOnOnePartition(cfg: Config, init: System, steps: seq<Step>)
    requires Initial(init)
    ensures OnePartition(cfg, After(cfg, init, steps).delivery)
    ensures var parts := After(cfg, init, steps).delivery.parts;
            forall p, k :: 0 <= p < |parts| && 0 <= k < |parts[p].log| && parts[p].log[k].Good? ==>
              p == cfg.hash(parts[p].log[k].e.streamId) % |parts|
  {
    RunsKeepPartition(cfg, init, steps);
  }

  // ----- Version order on the log -----

  /** The stream's messages are on the log in version order; a repeated write repeats its version. */
  ghost predicate LogSorted(d: D.State, stream: string)
  {
    forall p, k, l :: 0 <= p < |d.parts| && 0 <= k < l < |d.parts[p].log| ==>
      InVersionOrder(d.parts[p].log[k], d.parts[p].log[l], stream)
  }

  predicate InVersionOrder(a: D.Msg, b: D.Msg, stream: string)
  {
    a.Good? && b.Good? && a.e.streamId == stream && b.e.streamId == stream ==> a.e.version <= b.e.version
  }

  /** No later row of the same stream is on the log. */
  ghost predicate NoneLater(d: D.State, a: Event)
  {
    forall x :: D.InLogs(d, x) && x.streamId == a.streamId ==> x.version <= a.version
  }

  /** A call that can publish its rows as it is; with `all`, any running call. */
  predicate Contends(s: System, v: nat, all: bool)
  {
    v in s.writers && (all || s.writers[v].todo == [])
  }

  /** Of the calls considered, one at most has rows of the stream to publish, and none of them is late. */
  ghost predicate InTurn(s: System, stream: string, all: bool)
  {
    && (forall v, a :: Contends(s, v, all) && a in s.writers[v].done && a.streamId == stream
          ==> NoneLater(s.delivery, a))
    && (forall v, w :: v != w && Contends(s, v, all) && Contends(s, w, all) && HoldsRows(s, v, stream)
          ==> !HoldsRows(s, w, stream))
  }

  ghost predicate HoldsRows(s: System, v: nat, stream: string)
    requires v in s.writers
  {
    exists a :: a in s.writers[v].done && a.streamId == stream
  }

  lemma SameLogsSame(d: D.State, e: D.State, stream: string)
    requires SameLogs(d, e)
    ensures LogSorted(d, stream) ==> LogSorted(e, stream)
    ensures forall x :: D.InLogs(e, x) ==> D.InLogs(d, x)
  {
    forall x | D.InLogs(e, x) ensures D.InLogs(d, x) {
      var p, k :| 0 <= p < |e.parts| && 0 <= k < |e.parts[p].log| && e.parts[p].log[k] == D.Good(x);
      assert d.parts[p].log[k] == D.Good(x);
    }
    if LogSorted(d, stream) {
      forall p, k, l | 0 <= p < |e.parts| && 0 <= k < l < |e.parts[p].log|
        ensures InVersionOrder(e.parts[p].log[k], e.parts[p].log[l], stream)
      {
        assert InVersionOrder(d.parts[p].log[k], d.parts[p].log[l], stream);
      }
    }
  }

  lemma ReceiveSorted(d: D.State, p: nat, m: D.Msg, stream: string)
    requires LogSorted(d, stream) && (m.Good? && m.e.streamId == stream ==> NoneLater(d, m.e))
    ensures LogSorted(D.Apply(d, D.Receive(p, m)), stream)
  {
    var t := D.Apply(d, D.Receive(p, m));
    forall q, k, l | 0 <= q < |t.parts| && 0 <= k < l < |t.parts[q].log|
      ensures InVersionOrder(t.parts[q].log[k], t.parts[q].log[l], stream)
    {
      assert t.parts[q].log[k] == d.parts[q].log[k];
      if l < |d.parts[q].log| {
        assert InVersionOrder(d.parts[q].log[k], d.parts[q].log[l], stream);
      } else if d.parts[q].log[k].Good? {
        assert D.InLogs(d, d.parts[q].log[k].e);
      }
    }
  }

  /** A call has its rows of one stream in version order. */
  lemma HeadIsLeast(rows: seq<Event>, wr: Writer)
    requires Rising(rows, wr.stored) && Halves(wr) && wr.done != []
    ensures HeadFirst(wr)
  {
    forall i | 0 <= i < |wr.done| && wr.done[i].streamId == wr.done[0].streamId
      ensures wr.done[0].version <= wr.done[i].version
    {
      SuffixRises(rows, wr.stored, |wr.stored| - |wr.done|, i);
    }
  }

  /** The next row to publish comes first of its stream. */
  ghost predicate HeadFirst(wr: Writer)
  {
    wr.done != [] && forall a :: a in wr.done && a.streamId == wr.done[0].streamId ==> wr.done[0].version <= a.version
  }

  lemma SuffixRises(rows: seq<Event>, stored: seq<Event>, at: nat, i: nat)
    requires Rising(rows, stored) && at + i < |stored|
    ensures stored[at..][i].streamId == stored[at..][0].streamId ==>
              stored[at..][0].version <= stored[at..][i].version
  {
    assert stored[at..][i] == stored[at + i] && stored[at..][0] == stored[at];
  }

  /** Nothing but writes can make a held row late, and held rows only become fewer. */
  lemma QuietKeepsTurn(s: System, t: System, stream: string, all: bool)
    requires InTurn(s, stream, all)
    requires forall v :: Contends(t, v, all) && t.writers[v].done != [] ==>
               Contends(s, v, all) && forall a :: a in t.writers[v].done ==> a in s.writers[v].done
    requires forall x :: D.InLogs(t.delivery, x) ==> D.InLogs(s.delivery, x)
    ensures InTurn(t, stream, all)
  {
    forall v | Contends(t, v, all) && HoldsRows(t, v, stream) ensures Contends(s, v, all) && HoldsRows(s, v, stream) {}
  }

  lemma WriteKeepsTurn(s: System, t: System, v: nat, stream: string, all: bool)
    requires InTurn(s, stream, all) && Contends(s, v, all) && HeadFirst(s.writers[v])
    requires forall w :: Contends(t, w, all) ==>
               Contends(s, w, all) && forall a :: a in t.writers[w].done ==> a in s.writers[w].done
    requires forall x :: D.InLogs(t.delivery, x) ==> D.InLogs(s.delivery, x) || x == s.writers[v].done[0]
    ensures InTurn(t, stream, all)
  {
    var e := s.writers[v].done[0];
    forall w, a | Contends(t, w, all) && a in t.writers[w].done && a.streamId == stream
      ensures NoneLater(t.delivery, a)
    {
      assert NoneLater(s.delivery, a);
      if e.streamId == stream {
        assert e in s.writers[v].done && HoldsRows(s, v, stream) && HoldsRows(s, w, stream);
      }
    }
    forall w | Contends(t, w, all) && HoldsRows(t, w, stream) ensures Contends(s, w, all) && HoldsRows(s, w, stream) {}
  }

  // ----- Serial runs -----

  /** Steps that finish what calls have stored, and store nothing more. */
  predicate PublishOnly(step: Step)
  {
    || step.BeginPublishing? || step.Publish? || step.Rewrite? || step.Finish? || step.Abandon?
    || step.Garbage? || step.Consume?
  }

  lemma PublisherShrinks(cfg: Config, s: System, step: Step, v: nat, all: bool)
    requires PublishOnly(step) && Contends(Apply(cfg, s, step), v, all)
    ensures Contends(s, v, all) && forall a :: a in Apply(cfg, s, step).writers[v].done ==> a in s.writers[v].done
  {}

  lemma PublishersOnlyShrink(cfg: Config, s: System, step: Step, all: bool)
    requires PublishOnly(step)
    ensures forall v :: Contends(Apply(cfg, s, step), v, all) ==>
              Contends(s, v, all) && forall a :: a in Apply(cfg, s, step).writers[v].done ==> a in s.writers[v].done
  {
    forall v | Contends(Apply(cfg, s, step), v, all)
      ensures Contends(s, v, all) && forall a :: a in Apply(cfg, s, step).writers[v].done ==> a in s.writers[v].done
    {
      PublisherShrinks(cfg, s, step, v, all);
    }
  }

  lemma CallsOnlyShrink(cfg: Config, s: System, step: Step)
    requires !step.CommitAppend?
    ensures forall v :: v in Apply(cfg, s, step).writers && Apply(cfg, s, step).writers[v].done != [] ==>
              v in s.writers && forall a :: a in Apply(cfg, s, step).writers[v].done ==> a in s.writers[v].done
  {}

  lemma WriterPublishes(s: System, step: Step, all: bool)
    requires Writes(s, step) && Halves(s.writers[step.w])
    ensures Contends(s, step.w, all)
  {}

  lemma WriteStep(cfg: Config, s: System, step: Step, stream: string, all: bool)
    requires Writes(s, step) && RowsOnPlan(s, step.w) && LogSorted(s.delivery, stream) && InTurn(s, stream, all)
    ensures LogSorted(Apply(cfg, s, step).delivery, stream) && InTurn(Apply(cfg, s, step), stream, all)
  {
    var e, t := s.writers[step.w].done[0], Apply(cfg, s, step);
    assert e in s.writers[step.w].done;
    WriterPublishes(s, step, all);
    WriteResult(cfg, s, step);
    if Routed(cfg, e) {
      var p := PartitionOf(cfg, s.delivery, e.streamId);
      ReceiveSorted(s.delivery, p, D.Good(e), stream);
      forall x | D.InLogs(t.delivery, x) ensures D.InLogs(s.delivery, x) || x == e {
        ReceiveLogs(s.delivery, p, D.Good(e), x);
      }
    }
    PublishersOnlyShrink(cfg, s, step, all);
    HeadIsLeast(s.rows, s.writers[step.w]);
    WriteKeepsTurn(s, t, step.w, stream, all);
  }

  lemma QuietStep(cfg: Config, s: System, step: Step, stream: string, all: bool)
    requires !Writes(s, step) && (PublishOnly(step) || (all && !step.CommitAppend?))
    requires LogSorted(s.delivery, stream) && InTurn(s, stream, all)
    ensures LogSorted(Apply(cfg, s, step).delivery, stream) && InTurn(Apply(cfg, s, step), stream, all)
  {
    var t := Apply(cfg, s, step);
    if step.Garbage? {
      ReceiveSorted(s.delivery, step.p, D.Malformed, stream);
      forall x | D.InLogs(t.delivery, x) ensures D.InLogs(s.delivery, x) {
        ReceiveLogs(s.delivery, step.p, D.Malformed, x);
      }
    } else {
      OtherStepsSameLogs(cfg, s, step);
      SameLogsSame(s.delivery, t.delivery, stream);
    }
    if PublishOnly(step) {
      PublishersOnlyShrink(cfg, s, step, all);
    } else {
      CallsOnlyShrink(cfg, s, step);
    }
    QuietKeepsTurn(s, t, stream, all);
  }

  /** A row of the stream is committed only while no other call has rows of it to publish. */
  ghost predicate Serial(s: System, step: Step, stream: string)
  {
    step.CommitAppend? && CanCommit(s, step.w) && s.writers[step.w].inFlight.value.e.streamId == stream ==>
      forall v :: v in s.writers && v != step.w ==> !HoldsRows(s, v, stream)
  }

  ghost predicate SerialRun(cfg: Config, s: System, steps: seq<Step>, stream: string)
  {
    steps == [] || (SerialRun(cfg, s, steps[..|steps| - 1], stream)
                    && Serial(After(cfg, s, steps[..|steps| - 1]), steps[|steps| - 1], stream))
  }

  /** Also a commit keeps the calls in turn, when it is serial: its row is later than all on the log. */
  lemma CommitStep(cfg: Config, s: System, w: nat, stream: string)
    requires AllInv(cfg, s) && Serial(s, CommitAppend(w), stream)
    requires LogSorted(s.delivery, stream) && InTurn(s, stream, true)
    ensures LogSorted(Apply(cfg, s, CommitAppend(w)).delivery, stream)
    ensures InTurn(Apply(cfg, s, CommitAppend(w)), stream, true)
  {
    var t := Apply(cfg, s, CommitAppend(w));
    if CanCommit(s, w) {
      InsertedIsNew(s, w);
      if Attempted(s, w).Inserted? {
        assert OnPlan(s.rows, s.writers[w]);
        InsertedIsNext(s, w);
        NewRowInTurn(cfg, s, t, w, Attempted(s, w).row, stream);
      } else {
        QuietKeepsTurn(s, t, stream, true);
      }
    }
  }

  lemma NewRowInTurn(cfg: Config, s: System, t: System, w: nat, row: Event, stream: string)
    requires MessagesInv(cfg, s) && InTurn(s, stream, true) && w in s.writers
    requires NextRow(s.rows, s.writers[w], row)
    requires row.streamId == stream ==> forall v :: v in s.writers && v != w ==> !HoldsRows(s, v, stream)
    requires t.delivery == s.delivery && t.writers == s.writers[w := OneStored(s.writers[w], row)]
    ensures InTurn(t, stream, true)
  {
    forall v, a | v in t.writers && a in t.writers[v].done && a.streamId == stream ensures NoneLater(t.delivery, a) {
      if a != row {
        assert Contends(s, v, true) && a in s.writers[v].done;
      }
    }
    forall v | v in t.writers && HoldsRows(t, v, stream)
      ensures HoldsRows(s, v, stream) || (v == w && row.streamId == stream)
    {
      var a :| a in t.writers[v].done && a.streamId == stream;
    }
  }

  lemma {:induction false} SerialRunsInTurn(cfg: Config, init: System, steps: seq<Step>, stream: string)
    requires Initial(init) && SerialRun(cfg, init, steps, stream)
    ensures LogSorted(After(cfg, init, steps).delivery, stream) && InTurn(After(cfg, init, steps), stream, true)
  {
    if steps != [] {
      var front, last := steps[..|steps| - 1], steps[|steps| - 1];
      var s := After(cfg, init, front);
      SerialRunsInTurn(cfg, init, front, stream);
      ReachableAll(cfg, init, front);
      if last.CommitAppend? {
        CommitStep(cfg, s, last.w, stream);
      } else if Writes(s, last) {
        PlanGivesRows(s, last.w);
        WriteStep(cfg, s, last, stream, true);
      } else {
        QuietStep(cfg, s, last, stream, true);
      }
    }
  }

  /**
   * Main result. As long as a stream's rows are committed only while no other call still has rows of
   * it to publish, its messages are on one partition in version order, in every state of every run.
   */
  lemma {:induction false} SerialStreamsInOrder(cfg: Config, init: System, steps: seq<Step>, stream: string)
    requires Initial(init) && SerialRun(cfg, init, steps, stream)
    ensures OnePartition(cfg, After(cfg, init, steps).delivery)
    ensures LogSorted(After(cfg, init, steps).delivery, stream)
  {
    StreamsOnOnePartition(cfg, init, steps);
    SerialRunsInTurn(cfg, init, steps, stream);
  }

  // ----- Exactly when the order can still go wrong -----

  ghost predicate AllPublishOnly(steps: seq<Step>)
  {
    forall step :: step in steps ==> PublishOnly(step)
  }

  /** In turn, calls that only finish their publishing keep the log in order. */
  lemma {:induction false} InTurnStays(cfg: Config, s: System, steps: seq<Step>, stream: string)
    requires AllInv(cfg, s) && AllPublishOnly(steps)
    requires LogSorted(s.delivery, stream) && InTurn(s, stream, false)
    ensures LogSorted(After(cfg, s, steps).delivery, stream) && InTurn(After(cfg, s, steps), stream, false)
  {
    if steps != [] {
      var front, last := steps[..|steps| - 1], steps[|steps| - 1];
      var before := After(cfg, s, front);
      InTurnStays(cfg, s, front, stream);
      RunsKeepAll(cfg, s, front);
      if Writes(before, last) {
        PlanGivesRows(before, last.w);
        WriteStep(cfg, before, last, stream, false);
      } else {
        QuietStep(cfg, before, last, stream, false);
      }
    }
  }

  /** Call `v` publishes its first `n` rows, undisturbed. */
  function DrainSteps(v: nat, n: nat): (steps: seq<Step>)
    ensures forall step :: step in steps ==> PublishOnly(step)
  {
    if n == 0 then [BeginPublishing(v)] else DrainSteps(v, n - 1) + [Publish(v, true, true)]
  }

  /** Afterwards they are gone from the call, and the logs have only grown. */
  ghost predicate Draining(s: System, t: System, v: nat, n: nat)
    requires v in s.writers && n <= |s.writers[v].done|
  {
    && t.writers == s.writers[v := s.writers[v].(publishing := true, done := s.writers[v].done[n..])]
    && |t.delivery.parts| == |s.delivery.parts|
    && forall p :: 0 <= p < |s.delivery.parts| ==> s.delivery.parts[p].log <= t.delivery.parts[p].log
  }

  /** The last of them, if it goes to the main topic, is the last message of its partition. */
  ghost predicate Drained(cfg: Config, s: System, t: System, v: nat, n: nat)
    requires v in s.writers && n <= |s.writers[v].done| && s.delivery.parts != []
  {
    && Draining(s, t, v, n)
    && (n > 0 && Routed(cfg, s.writers[v].done[n - 1]) ==>
          var e := s.writers[v].done[n - 1];
          var p := PartitionOf(cfg, s.delivery, e.streamId);
          var log := t.delivery.parts[p].log;
          |s.delivery.parts[p].log| < |log| && log[|log| - 1] == D.Good(e))
  }

  lemma DrainOneMore(cfg: Config, s: System, t: System, v: nat, n: nat) returns (u: System)
    requires v in s.writers && n < |s.writers[v].done| && s.delivery.parts != [] && Draining(s, t, v, n)
    ensures u == Apply(cfg, t, Publish(v, true, true)) && Drained(cfg, s, u, v, n + 1)
  {
    u := Apply(cfg, t, Publish(v, true, true));
    var wr, e := s.writers[v], s.writers[v].done[n];
    assert t.writers[v].done[0] == e && t.writers[v].done[1..] == wr.done[n + 1..];
    WriteResult(cfg, t, Publish(v, true, true));
    assert PartitionOf(cfg, t.delivery, e.streamId) == PartitionOf(cfg, s.delivery, e.streamId);
    assert u.writers == Popped(t, v).writers;
  }

  ghost function DrainedState(cfg: Config, s: System, v: nat, n: nat): System
  {
    if n == 0 then Apply(cfg, s, BeginPublishing(v))
    else Apply(cfg, DrainedState(cfg, s, v, n - 1), Publish(v, true, true))
  }

  lemma {:induction false} DrainIsRun(cfg: Config, s: System, v: nat, n: nat)
    ensures After(cfg, s, DrainSteps(v, n)) == DrainedState(cfg, s, v, n)
  {
    if n == 0 {
      AfterSnoc(cfg, s, [], BeginPublishing(v));
      assert [] + [BeginPublishing(v)] == [BeginPublishing(v)];
    } else {
      DrainIsRun(cfg, s, v, n - 1);
      AfterSnoc(cfg, s, DrainSteps(v, n - 1), Publish(v, true, true));
    }
  }

  lemma {:induction false} DrainResult(cfg: Config, s: System, v: nat, n: nat) returns (t: System)
    requires v in s.writers && s.writers[v].todo == [] && n <= |s.writers[v].done| && s.delivery.parts != []
    ensures t == DrainedState(cfg, s, v, n) && Drained(cfg, s, t, v, n)
  {
    if n == 0 {
      t := Apply(cfg, s, BeginPublishing(v));
    } else {
      var before := DrainResult(cfg, s, v, n - 1);
      t := DrainOneMore(cfg, s, before, v, n - 1);
    }
  }

  /** The drained row is on the log, after all that was logged before. */
  lemma DrainedLast(cfg: Config, s: System, t: System, v: nat, n: nat)
    requires v in s.writers && 0 < n <= |s.writers[v].done| && s.delivery.parts != [] && Drained(cfg, s, t, v, n)
    requires Routed(cfg, s.writers[v].done[n - 1])
    ensures D.InLogs(t.delivery, s.writers[v].done[n - 1])
    ensures forall x :: OnePartition(cfg, s.delivery) && D.InLogs(s.delivery, x)
              && x.streamId == s.writers[v].done[n - 1].streamId && s.writers[v].done[n - 1].version < x.version
              ==> !LogSorted(t.delivery, x.streamId)
  {
    var a := s.writers[v].done[n - 1];
    var p := PartitionOf(cfg, s.delivery, a.streamId);
    var log := t.delivery.parts[p].log;
    assert log[|log| - 1] == D.Good(a);
    forall x | OnePartition(cfg, s.delivery) && D.InLogs(s.delivery, x)
               && x.streamId == a.streamId && a.version < x.version
      ensures !LogSorted(t.delivery, x.streamId)
    {
      var q, k :| 0 <= q < |s.delivery.parts| && 0 <= k < |s.delivery.parts[q].log|
                  && s.delivery.parts[q].log[k] == D.Good(x);
      assert q == p && log[k] == D.Good(x);
      assert !InVersionOrder(log[k], log[|log| - 1], x.streamId);
    }
  }

  /** A held row that is late on the log can still be published, out of order. */
  lemma LateRowBreaksOrder(cfg: Config, s: System, v: nat, a: Event, x: Event) returns (steps: seq<Step>)
    requires OnePartition(cfg, s.delivery) && s.delivery.parts != [] && Routed(cfg, a)
    requires Contends(s, v, false) && a in s.writers[v].done
    requires D.InLogs(s.delivery, x) && x.streamId == a.streamId && a.version < x.version
    ensures AllPublishOnly(steps) && !LogSorted(After(cfg, s, steps).delivery, a.streamId)
  {
    var i :| 0 <= i < |s.writers[v].done| && s.writers[v].done[i] == a;
    steps := DrainSteps(v, i + 1);
    var t := DrainResult(cfg, s, v, i + 1);
    DrainIsRun(cfg, s, v, i + 1);
    DrainedLast(cfg, s, t, v, i + 1);
  }

  /** Call `w` can publish its row `b` while call `v` still holds its own. */
  lemma PublishOne(cfg: Config, s: System, w: nat, b: Event) returns (steps: seq<Step>)
    requires s.delivery.parts != [] && Routed(cfg, b) && Contends(s, w, false) && b in s.writers[w].done
    ensures AllPublishOnly(steps)
    ensures var u := After(cfg, s, steps);
            && D.InLogs(u.delivery, b) && u.delivery.parts != []
            && forall v :: v != w && v in s.writers ==> v in u.writers && u.writers[v] == s.writers[v]
  {
    var j :| 0 <= j < |s.writers[w].done| && s.writers[w].done[j] == b;
    steps := DrainSteps(w, j + 1);
    var u := DrainResult(cfg, s, w, j + 1);
    DrainIsRun(cfg, s, w, j + 1);
    DrainedLast(cfg, s, u, w, j + 1);
    DrainedFrame(cfg, s, u, w, j + 1);
  }

  lemma DrainedFrame(cfg: Config, s: System, t: System, v: nat, n: nat)
    requires v in s.writers && n <= |s.writers[v].done| && s.delivery.parts != [] && Drained(cfg, s, t, v, n)
    ensures t.delivery.parts != []
    ensures forall w :: w != v && w in s.writers ==> w in t.writers && t.writers[w] == s.writers[w]
  {}

  /** Of two calls that hold rows of a stream, the one with the later row can publish first. */
  lemma TwoHoldersBreakOrder(cfg: Config, s: System, v: nat, w: nat, a: Event, b: Event) returns (steps: seq<Step>)
    requires OnePartition(cfg, s.delivery) && s.delivery.parts != [] && Routed(cfg, a)
    requires v != w && Contends(s, v, false) && Contends(s, w, false)
    requires a in s.writers[v].done && b in s.writers[w].done && a.streamId == b.streamId && a.version < b.version
    ensures AllPublishOnly(steps) && !LogSorted(After(cfg, s, steps).delivery, a.streamId)
  {
    var first := PublishOne(cfg, s, w, b);
    var u := After(cfg, s, first);
    RunsKeepPartition(cfg, s, first);
    var rest := LateRowBreaksOrder(cfg, u, v, a, b);
    RunsCompose(cfg, s, first, rest);
    steps := first + rest;
  }

  lemma DifferentVersions(s: System, v: nat, w: nat, a: Event, b: Event)
    requires TableInv(s) && WritersInv(s) && BatchInv(s)
    requires v != w && v in s.writers && w in s.writers && a in s.writers[v].done && b in s.writers[w].done
    requires a.streamId == b.streamId
    ensures a.version != b.version
  {
    assert WriterOk(s.rows, s.issued, s.writers[v]) && WriterOk(s.rows, s.issued, s.writers[w]);
    if a.version == b.version {
      VersionNamesRow(s.rows, a, b);
    }
  }

  lemma OutOfTurnBreaksOrder(cfg: Config, s: System, stream: string) returns (steps: seq<Step>)
    requires AllInv(cfg, s) && OnePartition(cfg, s.delivery) && s.delivery.parts != []
    requires cfg.resolver.Resolve(stream) == cfg.mainTopic && !InTurn(s, stream, false)
    ensures AllPublishOnly(steps) && !LogSorted(After(cfg, s, steps).delivery, stream)
  {
    if v, a :| Contends(s, v, false) && a in s.writers[v].done && a.streamId == stream && !NoneLater(s.delivery, a) {
      var x :| D.InLogs(s.delivery, x) && x.streamId == a.streamId && a.version < x.version;
      steps := LateRowBreaksOrder(cfg, s, v, a, x);
    } else {
      var v, w :| v != w && Contends(s, v, false) && Contends(s, w, false)
                  && HoldsRows(s, v, stream) && HoldsRows(s, w, stream);
      var a :| a in s.writers[v].done && a.streamId == stream;
      var b :| b in s.writers[w].done && b.streamId == stream;
      DifferentVersions(s, v, w, a, b);
      if a.version < b.version {
        steps := TwoHoldersBreakOrder(cfg, s, v, w, a, b);
      } else {
        steps := TwoHoldersBreakOrder(cfg, s, w, v, b, a);
      }
    }
  }

  /**
   * Main result. In any reachable state whose log still has a stream's messages in version order, the
   * calls that are ready to publish are bound to keep it so iff at most one of them holds rows of the
   * stream and no later row of it is on the log. Two overlapping ingests of one stream break this.
   */
  lemma {:induction false} OrderKeptExactly(cfg: Config, init: System, first: seq<Step>, stream: string)
    requires Initial(init) && cfg.resolver.Resolve(stream) == cfg.mainTopic
    requires After(cfg, init, first).delivery.parts != [] && LogSorted(After(cfg, init, first).delivery, stream)
    ensures InTurn(After(cfg, init, first), stream, false) <==>
            forall more :: AllPublishOnly(more) ==> LogSorted(After(cfg, init, first + more).delivery, stream)
  {
    var s := After(cfg, init, first);
    ReachableAll(cfg, init, first);
    StreamsOnOnePartition(cfg, init, first);
    if InTurn(s, stream, false) {
      forall more | AllPublishOnly(more) ensures LogSorted(After(cfg, init, first + more).delivery, stream) {
        RunsCompose(cfg, init, first, more);
        InTurnStays(cfg, s, more, stream);
      }
    } else {
      var more := OutOfTurnBreaksOrder(cfg, s, stream);
      RunsCompose(cfg, init, first, more);
    }
  }
}
