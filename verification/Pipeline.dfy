/**
 * The whole platform as one machine: any number of ingest and replay calls appending to the table
 * and then publishing, the broker, the consumer, the index and the dead-letter queue. Calls
 * interleave freely, snapshots go stale, remote calls fail before or after taking effect, and any
 * process may crash between two effects. A step that is not enabled changes nothing, so every
 * sequence of steps is a run.
 */
module Pipeline {
  import opened Collections
  import opened Events
  import opened QueryBuilder
  import opened Sql
  import opened Topics
  import opened Versions
  import opened Writers
  import D = Delivery
  import P = Producer

  /** An INSERT that has taken its snapshot and has not yet committed. */
  datatype InFlight = InFlight(e: Event, snap: nat)

  /**
   * One Ingest or Execute call. It turns `todo` into rows one by one, collecting them in `done`;
   * then, `publishing`, it empties `done` in order. `plan` records all it set out to store, and
   * `stored` all it has stored.
   */
  datatype Writer = Writer(
    plan: seq<Draft>, todo: seq<Draft>, inFlight: Option<InFlight>,
    stored: seq<Event>, done: seq<Event>, publishing: bool)

  /**
   * `issued` records every id drawn, `unpublished` the stored rows no message carries or ever will,
   * `ended` the calls that are over, as they were at their end.
   */
  datatype System = System(
    rows: seq<Event>,
    issued: set<string>,
    writers: map<nat, Writer>,
    delivery: D.State,
    elsewhere: seq<Event>,
    unpublished: set<string>,
    ended: seq<Writer>)

  /**
   * The consumer reads only `mainTopic`; `elsewhere` collects what goes to the other topics. `hash`
   * is the balancer's hash of a message key.
   */
  datatype Config = Config(resolver: Resolver, mainTopic: string, hash: string -> nat)

  datatype Step =
    | BeginIngest(w: nat, cmd: Command, tenantId: string)
    | BeginReplay(w: nat, f: ReplayFilter, batch: Batch, matched: seq<Event>)
    | BeginAppend(w: nat, id: string, now: Time)
    | CommitAppend(w: nat)
    | LoseReply(w: nat)                                          // commits, but the caller sees an error
    | Abandon(w: nat)                                            // a failed statement, or a crash
    | BeginPublishing(w: nat)
    | Publish(w: nat, written: bool, acked: bool)
    | Rewrite(w: nat)                                            // the client library repeats a write
    | Finish(w: nat)
    | Garbage(p: nat)                                            // a malformed message on the main topic
    | Consume(step: D.Step)

  predicate Routed(cfg: Config, e: Event)
  {
    cfg.resolver.Resolve(e.streamId) == cfg.mainTopic
  }

  function Ids(s: seq<Event>): set<string>
  {
    set e | e in s :: e.id
  }

  /** The balancer sends all messages with one key to one partition. */
  function PartitionOf(cfg: Config, d: D.State, key: string): (p: nat)
    requires d.parts != []
    ensures p < |d.parts|
  {
    cfg.hash(key) % |d.parts|
  }

  /** The message the producer sends of `e`; the broker does not read its headers. */
  function MessageFor(cfg: Config, e: Event): (m: P.Message)
    ensures m.e == e
  {
    P.MessageWith(cfg.resolver, e, [])
  }

  /** It reaches the broker: the partition of the main topic that its key names, or another topic. */
  function Written(cfg: Config, s: System, e: Event): System
    requires s.delivery.parts != []
  {
    if MessageFor(cfg, e).topic == cfg.mainTopic
    then s.(delivery := D.Apply(s.delivery,
                                D.Receive(PartitionOf(cfg, s.delivery, MessageFor(cfg, e).key), D.Good(e))))
    else s.(elsewhere := s.elsewhere + [e])
  }

  /** No message carries `e`. */
  ghost predicate Unseen(s: System, e: Event)
  {
    !D.InLogs(s.delivery, e) && e !in s.elsewhere
  }

  ghost function Lost(s: System, es: seq<Event>): set<string>
  {
    set e | e in es && Unseen(s, e) :: e.id
  }

  /** A call ends; what it stored, `left` included, and no message carries will never be published. */
  ghost function Retire(s: System, w: nat, left: seq<Event>): System
    requires w in s.writers
  {
    var wr := s.writers[w];
    s.(writers := s.writers - {w}, unpublished := s.unpublished + Lost(s, wr.done + left),
       ended := s.ended + [wr.(stored := wr.stored + left)])
  }

  predicate CanCommit(s: System, w: nat)
  {
    && w in s.writers && s.writers[w].todo != [] && !s.writers[w].publishing
    && s.writers[w].inFlight.Some? && s.writers[w].inFlight.value.snap <= |s.rows|
  }

  function Attempted(s: System, w: nat): Outcome
    requires CanCommit(s, w)
  {
    Commit(s.rows, s.writers[w].inFlight.value.snap, s.writers[w].inFlight.value.e)
  }

  /** The call's next draft is stored as `row`. */
  function OneStored(wr: Writer, row: Event): Writer
    requires wr.todo != []
  {
    Writer(wr.plan, wr.todo[1..], None, wr.stored + [row], wr.done + [row], false)
  }

  /** The statement commits and its reply arrives. */
  ghost function Committed(s: System, w: nat): System
    requires CanCommit(s, w)
  {
    var wr := s.writers[w];
    match Attempted(s, w)
    case Inserted(row) => s.(rows := s.rows + [row], writers := s.writers[w := OneStored(wr, row)])
    case Existing(v) => s.(writers := s.writers[w := OneStored(wr, wr.inFlight.value.e.(version := v))])
    case Collision => Retire(s, w, [])
  }

  /** The statement commits, but its caller sees an error. */
  ghost function ReplyGone(s: System, w: nat): System
    requires CanCommit(s, w)
  {
    match Attempted(s, w)
    case Inserted(row) => Retire(s.(rows := s.rows + [row]), w, [row])
    case _ => Retire(s, w, [])
  }

  predicate CanPublish(s: System, w: nat)
  {
    w in s.writers && s.writers[w].publishing && s.writers[w].done != [] && s.delivery.parts != []
  }

  /** The call is through with the first event of `done`. */
  function Popped(s: System, w: nat): System
    requires w in s.writers && s.writers[w].done != []
  {
    s.(writers := s.writers[w := s.writers[w].(done := s.writers[w].done[1..])])
  }

  /** A new call with these drafts. */
  function NewWriter(plan: seq<Draft>): Writer
  {
    Writer(plan, plan, None, [], [], false)
  }

  ghost function Apply(cfg: Config, s: System, step: Step): System
  {
    match step
    case BeginIngest(w, cmd, tenantId) =>
      if w in s.writers then s else
      s.(writers := s.writers[w := NewWriter([Fresh(cmd, tenantId)])])
    case BeginReplay(w, f, batch, matched) =>
      if w in s.writers || !IsOrdering(OccurredAsc, s.rows, Matching(f), matched) then s else
      var todo := seq(|matched|, i requires 0 <= i < |matched| => Copied(matched[i], batch));
      s.(writers := s.writers[w := NewWriter(todo)])
    case BeginAppend(w, id, now) =>
      if w !in s.writers || s.writers[w].todo == [] || s.writers[w].inFlight.Some? || id in s.issued then s else
      s.(issued := s.issued + {id},
         writers := s.writers[w := s.writers[w].(
           inFlight := Some(InFlight(Realise(s.writers[w].todo[0], id, now), |s.rows|)))])
    case CommitAppend(w) =>
      if CanCommit(s, w) then Committed(s, w) else s
    case LoseReply(w) =>
      if CanCommit(s, w) then ReplyGone(s, w) else s
    case Abandon(w) =>
      if w in s.writers then Retire(s, w, []) else s
    case BeginPublishing(w) =>
      if w !in s.writers || s.writers[w].todo != [] then s else
      s.(writers := s.writers[w := s.writers[w].(publishing := true)])
    case Publish(w, written, acked) =>
      if !CanPublish(s, w) then s else
      var e := s.writers[w].done[0];
      if written || acked then Written(cfg, Popped(s, w), e)
      else Popped(s, w).(unpublished := s.unpublished + Lost(s, [e]))
    case Rewrite(w) =>
      if CanPublish(s, w) then Written(cfg, s, s.writers[w].done[0]) else s
    case Finish(w) =>
      if w in s.writers && s.writers[w].publishing && s.writers[w].done == []
      then s.(writers := s.writers - {w}, ended := s.ended + [s.writers[w]]) else s
    case Garbage(p) => s.(delivery := D.Apply(s.delivery, D.Receive(p, D.Malformed)))
    case Consume(d) =>
      if d.Receive? then s else s.(delivery := D.Apply(s.delivery, d))
  }

  ghost function After(cfg: Config, s: System, steps: seq<Step>): System
  {
    if steps == [] then s else Apply(cfg, After(cfg, s, steps[..|steps| - 1]), steps[|steps| - 1])
  }

  ghost predicate Initial(s: System)
  {
    D.Initial(s.delivery) && s == System([], {}, map[], s.delivery, [], {}, [])
  }

  // ----- The table and the calls -----

  ghost predicate TableInv(s: System)
  {
    Valid(s.rows) && Lineage(s.rows) && RowIds(s.rows) <= s.issued
  }

  ghost predicate WriterOk(rows: seq<Event>, issued: set<string>, wr: Writer)
  {
    && (forall d :: d in wr.todo && d.Copied? ==> d.orig in rows)
    && (forall e :: e in wr.done ==> e in rows)
    && (wr.inFlight.Some? ==>
          && wr.inFlight.value.snap <= |rows|
          && wr.inFlight.value.e.id in issued && wr.inFlight.value.e.id !in RowIds(rows)
          && Sourced(rows, wr.inFlight.value.e))
  }

  ghost predicate WritersInv(s: System)
  {
    && (forall w :: w in s.writers ==> WriterOk(s.rows, s.issued, s.writers[w]))
    && (forall v, w :: v in s.writers && w in s.writers && v != w
          && s.writers[v].inFlight.Some? && s.writers[w].inFlight.Some?
          ==> s.writers[v].inFlight.value.e.id != s.writers[w].inFlight.value.e.id)
  }

  /** A call's facts survive another call's commit. */
  lemma WriterOkLater(rows: seq<Event>, issued: set<string>, wr: Writer, row: Event)
    requires WriterOk(rows, issued, wr)
    requires wr.inFlight.Some? ==> wr.inFlight.value.e.id != row.id
    ensures WriterOk(rows + [row], issued, wr)
  {}

  lemma RowsHavePayload(rows: seq<Event>, e: Event)
    requires Lineage(rows) && e in rows
    ensures HasPayload(e)
  {}

  /** What a commit attempt does to the table, given that its id is fresh. */
  lemma CommitFacts(s: System, w: nat)
    requires TableInv(s) && WritersInv(s) && CanCommit(s, w)
    ensures !Attempted(s, w).Existing?
    ensures var rows := RowsAfter(s.rows, Attempted(s, w));
            Valid(rows) && Lineage(rows) && RowIds(rows) <= s.issued
    ensures Attempted(s, w).Inserted? ==>
            var row := Attempted(s, w).row;
            row.id == s.writers[w].inFlight.value.e.id
            && forall v :: v in s.writers && v != w ==> WriterOk(s.rows + [row], s.issued, s.writers[v])
  {
    var pend := s.writers[w].inFlight.value;
    assert WriterOk(s.rows, s.issued, s.writers[w]);
    CommitCharacterised(s.rows, pend.snap, pend.e);
    CommitKeepsValid(s.rows, pend.snap, pend.e);
    if Attempted(s, w).Inserted? {
      var row := Attempted(s, w).row;
      assert row == pend.e.(version := row.version);
      SourcedAnyVersion(s.rows, pend.e, row.version);
      LineageSnoc(s.rows, row);
      RowIdsSnoc(s.rows, row);
      forall v | v in s.writers && v != w ensures WriterOk(s.rows + [row], s.issued, s.writers[v]) {
        WriterOkLater(s.rows, s.issued, s.writers[v], row);
      }
    }
  }

  lemma SourcedAnyVersion(rows: seq<Event>, e: Event, v: int)
    requires Sourced(rows, e)
    ensures Sourced(rows, e.(version := v))
  {}

  lemma CommitKeepsTable(s: System, w: nat, t: System)
    requires TableInv(s) && WritersInv(s) && CanCommit(s, w) && t == Committed(s, w)
    ensures TableInv(t) && WritersInv(t)
  {
    CommitFacts(s, w);
    var wr := s.writers[w];
    assert WriterOk(s.rows, s.issued, wr);
    if Attempted(s, w).Inserted? {
      assert forall d :: d in wr.todo[1..] ==> d in wr.todo;
      assert WriterOk(t.rows, t.issued, t.writers[w]);
    }
  }

  lemma BeginAppendKeepsTable(cfg: Config, s: System, step: Step)
    requires TableInv(s) && WritersInv(s) && step.BeginAppend?
    ensures TableInv(Apply(cfg, s, step)) && WritersInv(Apply(cfg, s, step))
  {
    var t := Apply(cfg, s, step);
    if t != s {
      var wr := s.writers[step.w];
      assert WriterOk(s.rows, s.issued, wr);
      assert wr.todo[0] in wr.todo;
      if wr.todo[0].Copied? {
        RowsHavePayload(s.rows, wr.todo[0].orig);
      }
      RealisedIsSourced(s.rows, wr.todo[0], step.id, step.now);
      assert Realise(wr.todo[0], step.id, step.now).id == step.id;
      assert WriterOk(t.rows, t.issued, t.writers[step.w]);
      forall v | v in s.writers ensures WriterOk(s.rows, t.issued, s.writers[v]) {
        assert WriterOk(s.rows, s.issued, s.writers[v]);
      }
    }
  }

  /** A step that only touches call `w`, without giving it a new statement, keeps the facts. */
  lemma OneCallChanged(s: System, t: System, w: nat)
    requires TableInv(s) && WritersInv(s)
    requires t.rows == s.rows && t.issued == s.issued
    requires s.writers - {w} == t.writers - {w}
    requires w in t.writers ==> WriterOk(s.rows, s.issued, t.writers[w])
    requires w in t.writers && t.writers[w].inFlight.Some? ==>
               w in s.writers && s.writers[w].inFlight == t.writers[w].inFlight
    ensures TableInv(t) && WritersInv(t)
  {
    forall v | v in t.writers ensures v == w || (v in s.writers && s.writers[v] == t.writers[v]) {
      if v != w {
        assert v in t.writers - {w};
        assert (s.writers - {w})[v] == (t.writers - {w})[v];
      }
    }
  }

  lemma BeginKeepsTable(cfg: Config, s: System, step: Step)
    requires TableInv(s) && WritersInv(s) && (step.BeginIngest? || step.BeginReplay?)
    ensures TableInv(Apply(cfg, s, step)) && WritersInv(Apply(cfg, s, step))
  {
    var t := Apply(cfg, s, step);
    if t != s {
      assert s.writers - {step.w} == t.writers - {step.w};
      if step.BeginReplay? {
        assert forall m :: m in step.matched ==> m in s.rows;
      }
      OneCallChanged(s, t, step.w);
    }
  }

  lemma EndingKeepsTable(cfg: Config, s: System, step: Step)
    requires TableInv(s) && WritersInv(s) && (step.Abandon? || step.Finish?)
    ensures TableInv(Apply(cfg, s, step)) && WritersInv(Apply(cfg, s, step))
  {}

  lemma BeginPublishingKeepsTable(cfg: Config, s: System, step: Step)
    requires TableInv(s) && WritersInv(s) && step.BeginPublishing?
    ensures TableInv(Apply(cfg, s, step)) && WritersInv(Apply(cfg, s, step))
  {
    assert Apply(cfg, s, step).writers - {step.w} == s.writers - {step.w};
    OneCallChanged(s, Apply(cfg, s, step), step.w);
  }

  /** A write touches neither the table nor the calls. */
  lemma WrittenFrame(cfg: Config, s: System, e: Event)
    requires s.delivery.parts != []
    ensures var t := Written(cfg, s, e);
            t.rows == s.rows && t.issued == s.issued && t.writers == s.writers
  {}

  lemma {:induction false} PublishingKeepsTable(cfg: Config, s: System, step: Step)
    requires TableInv(s) && WritersInv(s) && (step.Publish? || step.Rewrite?)
    ensures TableInv(Apply(cfg, s, step)) && WritersInv(Apply(cfg, s, step))
    ensures Apply(cfg, s, step).rows == s.rows
  {
    if CanPublish(s, step.w) {
      var wr := s.writers[step.w];
      var t := if step.Rewrite? then s else Popped(s, step.w);
      WrittenFrame(cfg, t, wr.done[0]);
      assert t.writers - {step.w} == s.writers - {step.w};
      assert WriterOk(s.rows, s.issued, wr);
      OneCallChanged(s, Apply(cfg, s, step), step.w);
    }
  }

  lemma AttemptKeepsTable(cfg: Config, s: System, step: Step)
    requires TableInv(s) && WritersInv(s) && (step.CommitAppend? || step.LoseReply?)
    ensures TableInv(Apply(cfg, s, step)) && WritersInv(Apply(cfg, s, step))
    ensures s.rows <= Apply(cfg, s, step).rows
  {
    if CanCommit(s, step.w) {
      CommitFacts(s, step.w);
      CommitKeepsTable(s, step.w, Committed(s, step.w));
    }
  }

  /** Only a commit touches the rows. */
  lemma RowsFrame(cfg: Config, s: System, step: Step)
    requires !step.CommitAppend? && !step.LoseReply?
    ensures Apply(cfg, s, step).rows == s.rows
  {}

  /** The broker's and the consumer's steps touch nothing else. */
  lemma DeliveryFrame(cfg: Config, s: System, step: Step)
    requires step.Garbage? || step.Consume?
    ensures Apply(cfg, s, step) == s.(delivery := Apply(cfg, s, step).delivery)
  {}

  lemma SameTable(s: System, t: System)
    requires TableInv(s) && WritersInv(s) && t == s.(delivery := t.delivery)
    ensures TableInv(t) && WritersInv(t)
  {}

  lemma {:induction false} StepKeepsTable(cfg: Config, s: System, step: Step)
    requires TableInv(s) && WritersInv(s)
    ensures TableInv(Apply(cfg, s, step)) && WritersInv(Apply(cfg, s, step))
    ensures s.rows <= Apply(cfg, s, step).rows
  {
    if step.CommitAppend? || step.LoseReply? {
      AttemptKeepsTable(cfg, s, step);
    } else {
      RowsFrame(cfg, s, step);
      if step.BeginAppend? {
        BeginAppendKeepsTable(cfg, s, step);
      } else if step.BeginIngest? || step.BeginReplay? {
        BeginKeepsTable(cfg, s, step);
      } else if step.Garbage? || step.Consume? {
        DeliveryFrame(cfg, s, step);
        SameTable(s, Apply(cfg, s, step));
      } else if step.Abandon? || step.Finish? {
        EndingKeepsTable(cfg, s, step);
      } else if step.BeginPublishing? {
        BeginPublishingKeepsTable(cfg, s, step);
      } else {
        PublishingKeepsTable(cfg, s, step);
      }
    }
  }

  // ----- Messages and documents -----

  /** Every message carries a stored row, on the topic its stream is routed to. */
  ghost predicate MessagesInv(cfg: Config, s: System)
  {
    && D.Inv(s.delivery)
    && (forall e :: D.InLogs(s.delivery, e) ==> e in s.rows && Routed(cfg, e))
    && (forall e :: e in s.elsewhere ==> e in s.rows && !Routed(cfg, e))
  }

  lemma ReceiveLogs(d: D.State, p: nat, m: D.Msg, e: Event)
    ensures D.InLogs(D.Apply(d, D.Receive(p, m)), e) <==>
            D.InLogs(d, e) || (p < |d.parts| && m == D.Good(e))
  {
    var t := D.Apply(d, D.Receive(p, m));
    if D.InLogs(d, e) {
      D.StepKeepsLogged(d, D.Receive(p, m), e);
    }
    if p < |d.parts| && m == D.Good(e) {
      assert t.parts[p].log[|d.parts[p].log|] == D.Good(e);
    }
    if D.InLogs(t, e) {
      var q, k :| 0 <= q < |t.parts| && 0 <= k < |t.parts[q].log| && t.parts[q].log[k] == D.Good(e);
      assert k < |d.parts[q].log| ==> d.parts[q].log[k] == D.Good(e);
    }
  }

  lemma ConsumeKeepsLogs(d: D.State, step: D.Step, e: Event)
    requires !step.Receive?
    ensures D.InLogs(D.Apply(d, step), e) <==> D.InLogs(d, e)
  {
    var t := D.Apply(d, step);
    if D.InLogs(d, e) {
      D.StepKeepsLogged(d, step, e);
    }
    if D.InLogs(t, e) {
      var q, k :| 0 <= q < |t.parts| && 0 <= k < |t.parts[q].log| && t.parts[q].log[k] == D.Good(e);
      assert d.parts[q].log[k] == D.Good(e);
    }
  }

  lemma WrittenKeepsMessages(cfg: Config, s: System, e: Event)
    requires MessagesInv(cfg, s) && e in s.rows && s.delivery.parts != []
    ensures MessagesInv(cfg, Written(cfg, s, e))
  {
    var p := PartitionOf(cfg, s.delivery, e.streamId);
    D.StepKeepsInv(s.delivery, D.Receive(p, D.Good(e)));
    forall x | Routed(cfg, e) && D.InLogs(Written(cfg, s, e).delivery, x) ensures D.InLogs(s.delivery, x) || x == e {
      ReceiveLogs(s.delivery, p, D.Good(e), x);
    }
  }

  lemma PublishingKeepsMessages(cfg: Config, s: System, step: Step)
    requires WritersInv(s) && MessagesInv(cfg, s) && (step.Publish? || step.Rewrite?)
    ensures MessagesInv(cfg, Apply(cfg, s, step))
  {
    if CanPublish(s, step.w) {
      var wr := s.writers[step.w];
      assert WriterOk(s.rows, s.issued, wr) && wr.done[0] in wr.done;
      var t := if step.Rewrite? then s else Popped(s, step.w);
      WrittenKeepsMessages(cfg, t, wr.done[0]);
    }
  }

  lemma DeliveryKeepsMessages(cfg: Config, s: System, step: Step)
    requires MessagesInv(cfg, s) && (step.Garbage? || step.Consume?)
    ensures MessagesInv(cfg, Apply(cfg, s, step))
  {
    var d := if step.Garbage? then D.Receive(step.p, D.Malformed) else step.step;
    if step.Garbage? || !d.Receive? {
      D.StepKeepsInv(s.delivery, d);
      forall e | D.InLogs(Apply(cfg, s, step).delivery, e) ensures D.InLogs(s.delivery, e) {
        if step.Garbage? {
          ReceiveLogs(s.delivery, step.p, D.Malformed, e);
        } else {
          ConsumeKeepsLogs(s.delivery, d, e);
        }
      }
    }
  }

  /** Of the calls' steps, only publishing reaches a topic. */
  lemma TopicsFrame(cfg: Config, s: System, step: Step)
    requires !step.Publish? && !step.Rewrite? && !step.Garbage? && !step.Consume?
    ensures Apply(cfg, s, step).delivery == s.delivery && Apply(cfg, s, step).elsewhere == s.elsewhere
  {}

  lemma MessagesLater(cfg: Config, s: System, t: System)
    requires MessagesInv(cfg, s) && s.rows <= t.rows && t.delivery == s.delivery && t.elsewhere == s.elsewhere
    ensures MessagesInv(cfg, t)
  {}

  lemma {:induction false} StepKeepsMessages(cfg: Config, s: System, step: Step)
    requires TableInv(s) && WritersInv(s) && MessagesInv(cfg, s)
    ensures MessagesInv(cfg, Apply(cfg, s, step))
  {
    if step.Publish? || step.Rewrite? {
      PublishingKeepsMessages(cfg, s, step);
    } else if step.Garbage? || step.Consume? {
      DeliveryKeepsMessages(cfg, s, step);
    } else {
      StepKeepsTable(cfg, s, step);
      TopicsFrame(cfg, s, step);
      MessagesLater(cfg, s, Apply(cfg, s, step));
    }
  }

  // ----- Conservation -----

  /** A stored row still to be published by a running call. */
  ghost predicate Waiting(s: System, r: Event)
  {
    exists w :: w in s.writers && r in s.writers[w].done
  }

  /** Every stored row is on some topic, waiting to be published, or recorded as unpublished. */
  ghost predicate Tracked(s: System, r: Event)
  {
    r.id in s.unpublished || r in s.elsewhere || D.InLogs(s.delivery, r) || Waiting(s, r)
  }

  ghost predicate ConservationInv(s: System)
  {
    forall r :: r in s.rows ==> Tracked(s, r)
  }

  /** If the logs only grow and no call but `w` loses rows, what is tracked stays tracked. */
  lemma TrackedLater(s: System, t: System, w: nat, r: Event)
    requires Tracked(s, r)
    requires s.unpublished <= t.unpublished && s.elsewhere <= t.elsewhere
    requires D.InLogs(s.delivery, r) ==> D.InLogs(t.delivery, r)
    requires forall v :: v in s.writers && v != w ==> v in t.writers && t.writers[v].done == s.writers[v].done
    requires w in s.writers && r in s.writers[w].done ==> Tracked(t, r)
    ensures Tracked(t, r)
  {}

  lemma LogsGrow(cfg: Config, s: System, step: Step, r: Event)
    requires D.InLogs(s.delivery, r)
    ensures D.InLogs(Apply(cfg, s, step).delivery, r)
  {
    match step
    case Publish(w, _, _) =>
      if CanPublish(s, w) {
        var e := s.writers[w].done[0];
        D.StepKeepsLogged(s.delivery, D.Receive(PartitionOf(cfg, s.delivery, e.streamId), D.Good(e)), r);
      }
    case Rewrite(w) =>
      if CanPublish(s, w) {
        var e := s.writers[w].done[0];
        D.StepKeepsLogged(s.delivery, D.Receive(PartitionOf(cfg, s.delivery, e.streamId), D.Good(e)), r);
      }
    case Garbage(p) => D.StepKeepsLogged(s.delivery, D.Receive(p, D.Malformed), r);
    case Consume(d) => D.StepKeepsLogged(s.delivery, d, r);
    case _ =>
  }

  function WriterOf(step: Step): nat
  {
    match step
    case Garbage(_) => 0
    case Consume(_) => 0
    case BeginIngest(w, _, _) => w
    case BeginReplay(w, _, _, _) => w
    case BeginAppend(w, _, _) => w
    case CommitAppend(w) => w
    case LoseReply(w) => w
    case Abandon(w) => w
    case BeginPublishing(w) => w
    case Publish(w, _, _) => w
    case Rewrite(w) => w
    case Finish(w) => w
  }

  /** The stepping call's own rows: each is kept, published, or recorded. */
  lemma OwnRowsTracked(cfg: Config, s: System, step: Step, r: Event)
    requires var w := WriterOf(step); w in s.writers && r in s.writers[w].done
    ensures Tracked(Apply(cfg, s, step), r)
  {
    var w := WriterOf(step);
    var t := Apply(cfg, s, step);
    if w in t.writers && r in t.writers[w].done {
      assert Waiting(t, r);
    } else if step.Publish? {
      PublishedTracked(cfg, s, step, r);
    } else {
      RetiredTracked(cfg, s, step, r);
    }
  }

  lemma PublishedTracked(cfg: Config, s: System, step: Step, r: Event)
    requires step.Publish? && step.w in s.writers && r in s.writers[step.w].done
    requires step.w in Apply(cfg, s, step).writers ==> r !in Apply(cfg, s, step).writers[step.w].done
    ensures Tracked(Apply(cfg, s, step), r)
  {
    if CanPublish(s, step.w) {
      assert s.writers[step.w].done[0] == r;
      ReceiveLogs(s.delivery, PartitionOf(cfg, s.delivery, r.streamId), D.Good(r), r);
    }
  }

  lemma RetiredTracked(cfg: Config, s: System, step: Step, r: Event)
    requires !step.Publish? && WriterOf(step) in s.writers && r in s.writers[WriterOf(step)].done
    requires WriterOf(step) in Apply(cfg, s, step).writers ==> r !in Apply(cfg, s, step).writers[WriterOf(step)].done
    ensures Tracked(Apply(cfg, s, step), r)
  {}

  lemma StepFrame(cfg: Config, s: System, step: Step)
    ensures var t := Apply(cfg, s, step);
            && s.unpublished <= t.unpublished && s.elsewhere <= t.elsewhere
            && forall v :: v in s.writers && v != WriterOf(step) ==> v in t.writers && t.writers[v] == s.writers[v]
  {}

  lemma StepKeepsConservation(cfg: Config, s: System, step: Step)
    requires TableInv(s) && WritersInv(s) && ConservationInv(s)
    ensures ConservationInv(Apply(cfg, s, step))
  {
    var t := Apply(cfg, s, step);
    var w := WriterOf(step);
    StepFrame(cfg, s, step);
    forall r | r in t.rows ensures Tracked(t, r) {
      if r in s.rows {
        if D.InLogs(s.delivery, r) {
          LogsGrow(cfg, s, step, r);
        }
        if w in s.writers && r in s.writers[w].done {
          OwnRowsTracked(cfg, s, step, r);
        }
        TrackedLater(s, t, w, r);
      } else {
        NewRowTracked(cfg, s, step, r);
      }
    }
  }

  lemma NewRowTracked(cfg: Config, s: System, step: Step, r: Event)
    requires TableInv(s) && WritersInv(s)
    requires r in Apply(cfg, s, step).rows && r !in s.rows
    ensures Tracked(Apply(cfg, s, step), r)
  {
    var t := Apply(cfg, s, step);
    assert step.CommitAppend? || step.LoseReply?;
    CommitFacts(s, step.w);
    if step.CommitAppend? {
      assert r in t.writers[step.w].done;
      assert Waiting(t, r);
    }
  }

  // ----- Whole runs -----

  lemma AfterSnoc(cfg: Config, s: System, steps: seq<Step>, step: Step)
    ensures After(cfg, s, steps + [step]) == Apply(cfg, After(cfg, s, steps), step)
  {}

  lemma {:induction false} RunsCompose(cfg: Config, s: System, first: seq<Step>, more: seq<Step>)
    ensures After(cfg, s, first + more) == After(cfg, After(cfg, s, first), more)
  {
    if more == [] {
      assert first + more == first;
    } else {
      var front, last := more[..|more| - 1], more[|more| - 1];
      RunsCompose(cfg, s, first, front);
      SameStep(cfg, s, After(cfg, s, first), first + front, front, last);
      Regrouped(first, more);
    }
  }

  lemma Regrouped(first: seq<Step>, more: seq<Step>)
    requires more != []
    ensures var front, last := more[..|more| - 1], more[|more| - 1];
            first + more == (first + front) + [last] && more == front + [last]
  {}

  lemma SameStep(cfg: Config, s: System, t: System, steps: seq<Step>, others: seq<Step>, step: Step)
    requires After(cfg, s, steps) == After(cfg, t, others)
    ensures After(cfg, s, steps + [step]) == After(cfg, t, others + [step])
  {
    AfterSnoc(cfg, s, steps, step);
    AfterSnoc(cfg, t, others, step);
  }

  ghost predicate Inv(cfg: Config, s: System)
  {
    TableInv(s) && WritersInv(s) && MessagesInv(cfg, s) && ConservationInv(s)
  }

  lemma StepKeepsInv(cfg: Config, s: System, step: Step)
    requires Inv(cfg, s)
    ensures Inv(cfg, Apply(cfg, s, step)) && s.rows <= Apply(cfg, s, step).rows
  {
    StepKeepsTable(cfg, s, step);
    StepKeepsMessages(cfg, s, step);
    StepKeepsConservation(cfg, s, step);
  }

  lemma {:induction false} RunsKeepInv(cfg: Config, s: System, steps: seq<Step>)
    requires Inv(cfg, s)
    ensures Inv(cfg, After(cfg, s, steps)) && s.rows <= After(cfg, s, steps).rows
  {
    if steps != [] {
      RunsKeepInv(cfg, s, steps[..|steps| - 1]);
      StepKeepsInv(cfg, After(cfg, s, steps[..|steps| - 1]), steps[|steps| - 1]);
    }
  }

  lemma {:induction false} ReachableInv(cfg: Config, init: System, steps: seq<Step>)
    requires Initial(init)
    ensures Inv(cfg, After(cfg, init, steps))
  {
    D.ReachableInv(init.delivery, []);
    RunsKeepInv(cfg, init, steps);
  }
}
