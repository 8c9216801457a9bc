/**
 * What becomes of each call's batch, under any interleaving: running or over, failed or complete, it
 * has stored a first part of its plan, in order; a batch that was not stored as a whole is never seen
 * on a topic, and neither is any other row recorded as unpublished.
 */
module Batches {
  import opened Collections
  import opened Events
  import opened Pipeline
  import opened Versions
  import opened Writers
  import D = Delivery

  // ----- Plans -----

  /** The row is the draft's event, under some id and time, with the version it was given. */
  predicate RealisedBy(d: Draft, row: Event)
  {
    row == Realise(d, row.id, row.occurredAt).(version := row.version)
  }

  /** The rows realise the first drafts of the plan, in order. */
  ghost predicate Follows(plan: seq<Draft>, stored: seq<Event>)
  {
    |stored| <= |plan| && forall i :: 0 <= i < |stored| ==> RealisedBy(plan[i], stored[i])
  }

  /** They are in the table, with rising versions in every stream. */
  ghost predicate Rising(rows: seq<Event>, stored: seq<Event>)
  {
    && (forall i :: 0 <= i < |stored| ==> stored[i] in rows)
    && (forall i, j :: 0 <= i < j < |stored| && stored[i].streamId == stored[j].streamId
          ==> stored[i].version < stored[j].version)
  }

  /** The last elements of a sequence. */
  ghost predicate IsTail<T(!new)>(tail: seq<T>, s: seq<T>)
  {
    |tail| <= |s| && forall i :: 0 <= i < |tail| ==> tail[i] == s[|s| - |tail| + i]
  }

  /** What is still to be stored, and what is still to be published, of the plan and of the rows. */
  ghost predicate Halves(wr: Writer)
  {
    && IsTail(wr.todo, wr.plan) && |wr.todo| == |wr.plan| - |wr.stored|
    && IsTail(wr.done, wr.stored)
    && if wr.publishing then wr.todo == [] else wr.done == wr.stored
  }

  /** The event of a statement under way realises the next draft. */
  ghost predicate UnderWay(wr: Writer)
  {
    wr.inFlight.Some? ==> wr.todo != [] && RealisedBy(wr.todo[0], wr.inFlight.value.e)
  }

  ghost predicate OnPlan(rows: seq<Event>, wr: Writer)
  {
    Follows(wr.plan, wr.stored) && Rising(rows, wr.stored) && Halves(wr) && UnderWay(wr)
  }

  /** A call that is over: what it had stored, all of its plan if it came to publishing. */
  ghost predicate EndedOnPlan(rows: seq<Event>, wr: Writer)
  {
    && Follows(wr.plan, wr.stored) && Rising(rows, wr.stored)
    && (wr.publishing ==> |wr.stored| == |wr.plan|)
  }

  ghost predicate PlansInv(s: System)
  {
    && (forall w :: w in s.writers ==> OnPlan(s.rows, s.writers[w]))
    && (forall wr :: wr in s.ended ==> EndedOnPlan(s.rows, wr))
  }

  /** One call's rows: in the table, of rising versions, the last of them still to be published. */
  ghost predicate RowsOnPlan(s: System, w: nat)
  {
    w in s.writers && Rising(s.rows, s.writers[w].stored) && Halves(s.writers[w])
  }

  lemma PlanGivesRows(s: System, w: nat)
    requires PlansInv(s) && w in s.writers
    ensures RowsOnPlan(s, w)
  {
    assert OnPlan(s.rows, s.writers[w]);
  }

  // One call at a time.

  lemma NewOnPlan(rows: seq<Event>, plan: seq<Draft>)
    ensures OnPlan(rows, NewWriter(plan))
  {}

  lemma DraftedOnPlan(rows: seq<Event>, wr: Writer, id: string, now: Time, snap: nat)
    requires OnPlan(rows, wr) && wr.todo != []
    ensures OnPlan(rows, wr.(inFlight := Some(InFlight(Realise(wr.todo[0], id, now), snap))))
  {
    RealiseIsRealised(wr.todo[0], id, now);
  }

  lemma RealiseIsRealised(d: Draft, id: string, now: Time)
    ensures RealisedBy(d, Realise(d, id, now))
  {}

  lemma PublishingOnPlan(rows: seq<Event>, wr: Writer)
    requires OnPlan(rows, wr) && wr.todo == []
    ensures OnPlan(rows, wr.(publishing := true))
  {}

  lemma PoppedOnPlan(rows: seq<Event>, wr: Writer)
    requires OnPlan(rows, wr) && wr.publishing && wr.done != []
    ensures OnPlan(rows, wr.(done := wr.done[1..]))
  {}

  /** `row` realises the call's next draft and is the latest of its stream. */
  ghost predicate NextRow(rows: seq<Event>, wr: Writer, row: Event)
  {
    && wr.todo != [] && RealisedBy(wr.todo[0], row)
    && forall r :: r in rows && r.streamId == row.streamId ==> r.version < row.version
  }

  lemma FollowsMore(plan: seq<Draft>, stored: seq<Event>, row: Event)
    requires Follows(plan, stored) && |stored| < |plan| && RealisedBy(plan[|stored|], row)
    ensures Follows(plan, stored + [row])
  {
    forall i | 0 <= i < |stored| + 1 ensures RealisedBy(plan[i], (stored + [row])[i]) {
      assert i < |stored| ==> RealisedBy(plan[i], stored[i]);
    }
  }

  lemma RisingMore(rows: seq<Event>, stored: seq<Event>, row: Event)
    requires Rising(rows, stored) && forall r :: r in rows && r.streamId == row.streamId ==> r.version < row.version
    ensures Rising(rows + [row], stored + [row])
  {}

  lemma HalvesMore(wr: Writer, row: Event)
    requires Halves(wr) && !wr.publishing && wr.todo != []
    ensures Halves(OneStored(wr, row)) && UnderWay(OneStored(wr, row))
    ensures |wr.stored| < |wr.plan| && wr.plan[|wr.stored|] == wr.todo[0]
  {}

  lemma StoredOnPlan(rows: seq<Event>, wr: Writer, row: Event)
    requires OnPlan(rows, wr) && !wr.publishing && NextRow(rows, wr, row)
    ensures OnPlan(rows + [row], OneStored(wr, row))
    ensures EndedOnPlan(rows + [row], wr.(stored := wr.stored + [row]))
  {
    HalvesMore(wr, row);
    FollowsMore(wr.plan, wr.stored, row);
    RisingMore(rows, wr.stored, row);
  }

  lemma InsertedIsNext(s: System, w: nat)
    requires TableInv(s) && WritersInv(s) && CanCommit(s, w) && Attempted(s, w).Inserted?
    requires UnderWay(s.writers[w])
    ensures NextRow(s.rows, s.writers[w], Attempted(s, w).row)
  {
    var pend, row := s.writers[w].inFlight.value, Attempted(s, w).row;
    assert WriterOk(s.rows, s.issued, s.writers[w]);
    CommitCharacterised(s.rows, pend.snap, pend.e);
    forall r | r in s.rows && r.streamId == row.streamId ensures r.version < row.version {
      TakenIsRange(s.rows, row.streamId, r.version);
    }
    VersionIrrelevant(s.writers[w].todo[0], pend.e, row.version);
  }

  lemma VersionIrrelevant(d: Draft, row: Event, v: int)
    requires RealisedBy(d, row)
    ensures RealisedBy(d, row.(version := v))
  {}

  // All calls.

  lemma OnPlanLater(rows: seq<Event>, more: seq<Event>, wr: Writer)
    requires rows <= more
    ensures OnPlan(rows, wr) ==> OnPlan(more, wr)
    ensures EndedOnPlan(rows, wr) ==> EndedOnPlan(more, wr)
  {}

  lemma ReplacedOnPlan(s: System, t: System, w: nat, wr: Writer)
    requires PlansInv(s) && s.rows <= t.rows && OnPlan(t.rows, wr)
    requires t.writers == s.writers[w := wr] && t.ended == s.ended
    ensures PlansInv(t)
  {
    forall v | v in s.writers ensures OnPlan(t.rows, s.writers[v]) {
      OnPlanLater(s.rows, t.rows, s.writers[v]);
    }
    forall ex | ex in s.ended ensures EndedOnPlan(t.rows, ex) {
      OnPlanLater(s.rows, t.rows, ex);
    }
  }

  lemma RetiredOnPlan(s: System, t: System, w: nat, wr: Writer)
    requires PlansInv(s) && s.rows <= t.rows && EndedOnPlan(t.rows, wr)
    requires t.writers == s.writers - {w} && t.ended == s.ended + [wr]
    ensures PlansInv(t)
  {
    forall v | v in s.writers ensures OnPlan(t.rows, s.writers[v]) {
      OnPlanLater(s.rows, t.rows, s.writers[v]);
    }
    forall ex | ex in s.ended ensures EndedOnPlan(t.rows, ex) {
      OnPlanLater(s.rows, t.rows, ex);
    }
  }

  lemma CommitKeepsPlans(s: System, w: nat)
    requires TableInv(s) && WritersInv(s) && PlansInv(s) && CanCommit(s, w)
    ensures PlansInv(Committed(s, w)) && PlansInv(ReplyGone(s, w))
  {
    CommitFacts(s, w);
    var wr := s.writers[w];
    assert OnPlan(s.rows, wr);
    if Attempted(s, w).Inserted? {
      var row := Attempted(s, w).row;
      InsertedIsNext(s, w);
      StoredOnPlan(s.rows, wr, row);
      ReplacedOnPlan(s, Committed(s, w), w, OneStored(wr, row));
      RetiredOnPlan(s, ReplyGone(s, w), w, wr.(stored := wr.stored + [row]));
    } else {
      RetireKeepsPlans(s, w);
    }
  }

  lemma RetireKeepsPlans(s: System, w: nat)
    requires PlansInv(s) && w in s.writers
    ensures PlansInv(Retire(s, w, []))
  {
    var wr := s.writers[w];
    assert OnPlan(s.rows, wr) && wr.stored + [] == wr.stored;
    RetiredOnPlan(s, Retire(s, w, []), w, wr);
  }

  lemma FinishKeepsPlans(s: System, t: System, w: nat)
    requires PlansInv(s) && w in s.writers
    requires t == s.(writers := s.writers - {w}, ended := s.ended + [s.writers[w]])
    ensures PlansInv(t)
  {
    assert OnPlan(s.rows, s.writers[w]);
    RetiredOnPlan(s, t, w, s.writers[w]);
  }

  lemma BeginPublishingKeepsPlans(s: System, t: System, w: nat)
    requires PlansInv(s) && w in s.writers && s.writers[w].todo == []
    requires t == s.(writers := s.writers[w := s.writers[w].(publishing := true)])
    ensures PlansInv(t)
  {
    assert OnPlan(s.rows, s.writers[w]);
    PublishingOnPlan(s.rows, s.writers[w]);
    ReplacedOnPlan(s, t, w, s.writers[w].(publishing := true));
  }

  /** What the steps do that write no row and touch no plan. */
  lemma QuietFrame(cfg: Config, s: System, step: Step)
    requires step.Rewrite? || step.Garbage? || step.Consume?
    ensures var t := Apply(cfg, s, step);
            t.rows == s.rows && t.writers == s.writers && t.ended == s.ended && t.unpublished == s.unpublished
  {}

  lemma PublishKeepsPlans(s: System, t: System, w: nat)
    requires PlansInv(s) && CanPublish(s, w)
    requires t.rows == s.rows && t.writers == Popped(s, w).writers && t.ended == s.ended
    ensures PlansInv(t)
  {
    var wr := s.writers[w];
    assert OnPlan(s.rows, wr);
    PoppedOnPlan(s.rows, wr);
    ReplacedOnPlan(s, t, w, wr.(done := wr.done[1..]));
  }

  lemma PublishFrame(cfg: Config, s: System, step: Step)
    requires step.Publish? && CanPublish(s, step.w)
    ensures var t := Apply(cfg, s, step);
            t.rows == s.rows && t.writers == Popped(s, step.w).writers && t.ended == s.ended
  {}

  lemma BegunOnPlan(s: System, t: System, w: nat, plan: seq<Draft>)
    requires PlansInv(s) && t == s.(writers := s.writers[w := NewWriter(plan)])
    ensures PlansInv(t)
  {
    NewOnPlan(s.rows, plan);
    ReplacedOnPlan(s, t, w, NewWriter(plan));
  }

  lemma DraftedKeepsPlans(s: System, t: System, w: nat, id: string, now: Time)
    requires PlansInv(s) && w in s.writers && s.writers[w].todo != []
    requires var wr := s.writers[w];
             t == s.(issued := s.issued + {id},
                     writers := s.writers[w := wr.(inFlight := Some(InFlight(Realise(wr.todo[0], id, now), |s.rows|)))])
    ensures PlansInv(t)
  {
    var wr := s.writers[w];
    assert OnPlan(s.rows, wr);
    DraftedOnPlan(s.rows, wr, id, now, |s.rows|);
    ReplacedOnPlan(s, t, w, wr.(inFlight := Some(InFlight(Realise(wr.todo[0], id, now), |s.rows|))));
  }

  lemma BeginKeepsPlans(cfg: Config, s: System, step: Step)
    requires PlansInv(s) && (step.BeginIngest? || step.BeginReplay?)
    ensures PlansInv(Apply(cfg, s, step))
  {
    var t := Apply(cfg, s, step);
    if t != s {
      BegunOnPlan(s, t, step.w, t.writers[step.w].plan);
    }
  }

  lemma BeginAppendKeepsPlans(cfg: Config, s: System, step: Step)
    requires PlansInv(s) && step.BeginAppend?
    ensures PlansInv(Apply(cfg, s, step))
  {
    if Apply(cfg, s, step) != s {
      DraftedKeepsPlans(s, Apply(cfg, s, step), step.w, step.id, step.now);
    }
  }

  lemma AttemptKeepsPlans(cfg: Config, s: System, step: Step)
    requires TableInv(s) && WritersInv(s) && PlansInv(s) && (step.CommitAppend? || step.LoseReply? || step.Abandon?)
    ensures PlansInv(Apply(cfg, s, step))
  {
    if step.Abandon? {
      if step.w in s.writers {
        RetireKeepsPlans(s, step.w);
      }
    } else if CanCommit(s, step.w) {
      CommitKeepsPlans(s, step.w);
    }
  }

  lemma PublishingKeepsPlans(cfg: Config, s: System, step: Step)
    requires PlansInv(s) && (step.BeginPublishing? || step.Publish? || step.Finish?)
    ensures PlansInv(Apply(cfg, s, step))
  {
    var t := Apply(cfg, s, step);
    if step.BeginPublishing? {
      if step.w in s.writers && s.writers[step.w].todo == [] {
        BeginPublishingKeepsPlans(s, t, step.w);
      }
    } else if step.Publish? {
      if CanPublish(s, step.w) {
        PublishFrame(cfg, s, step);
        PublishKeepsPlans(s, t, step.w);
      }
    } else if t != s {
      FinishKeepsPlans(s, t, step.w);
    }
  }

  lemma SamePlans(s: System, t: System)
    requires PlansInv(s) && t.rows == s.rows && t.writers == s.writers && t.ended == s.ended
    ensures PlansInv(t)
  {}

  lemma StepKeepsPlans(cfg: Config, s: System, step: Step)
    requires TableInv(s) && WritersInv(s) && PlansInv(s)
    ensures PlansInv(Apply(cfg, s, step))
  {
    if step.CommitAppend? || step.LoseReply? || step.Abandon? {
      AttemptKeepsPlans(cfg, s, step);
    } else if step.BeginPublishing? || step.Publish? || step.Finish? {
      PublishingKeepsPlans(cfg, s, step);
    } else if step.BeginAppend? {
      BeginAppendKeepsPlans(cfg, s, step);
    } else if step.BeginIngest? || step.BeginReplay? {
      BeginKeepsPlans(cfg, s, step);
    } else {
      QuietFrame(cfg, s, step);
      SamePlans(s, Apply(cfg, s, step));
    }
  }

  // ----- Who has seen what -----

  /** Calls own their rows, and a call that is still appending has published none of them. */
  ghost predicate BatchInv(s: System)
  {
    && (forall v, w, e :: v in s.writers && w in s.writers && v != w && e in s.writers[v].done
          ==> e !in s.writers[w].done)
    && (forall w, e :: w in s.writers && !s.writers[w].publishing && e in s.writers[w].done ==> Unseen(s, e))
  }

  lemma StepKeepsUnseen(cfg: Config, s: System, step: Step, e: Event)
    requires Unseen(s, e)
    requires (step.Publish? || step.Rewrite?) && CanPublish(s, step.w) ==> e != s.writers[step.w].done[0]
    ensures Unseen(Apply(cfg, s, step), e)
  {}

  /** A call's collected rows after a step: rows it had, or a row that was not in the table. */
  lemma DoneRows(cfg: Config, s: System, step: Step, w: nat, e: Event)
    requires TableInv(s) && WritersInv(s)
    requires w in Apply(cfg, s, step).writers && e in Apply(cfg, s, step).writers[w].done
    ensures (w in s.writers && e in s.writers[w].done) || (e !in s.rows && step == CommitAppend(w))
    ensures w in s.writers && s.writers[w].publishing ==> Apply(cfg, s, step).writers[w].publishing
  {
    if step.CommitAppend? {
      if CanCommit(s, step.w) {
        InsertedIsNew(s, step.w);
      }
    } else {
      DoneOnlyShrinks(cfg, s, step, w, e);
    }
  }

  lemma InsertedIsNew(s: System, w: nat)
    requires TableInv(s) && WritersInv(s) && CanCommit(s, w)
    ensures !Attempted(s, w).Existing?
    ensures Attempted(s, w).Inserted? ==> Attempted(s, w).row !in s.rows
  {
    CommitFacts(s, w);
    assert WriterOk(s.rows, s.issued, s.writers[w]);
    assert forall r :: r in s.rows ==> r.id in RowIds(s.rows);
  }

  lemma DoneOnlyShrinks(cfg: Config, s: System, step: Step, w: nat, e: Event)
    requires !step.CommitAppend?
    requires w in Apply(cfg, s, step).writers && e in Apply(cfg, s, step).writers[w].done
    ensures w in s.writers && e in s.writers[w].done
    ensures s.writers[w].publishing ==> Apply(cfg, s, step).writers[w].publishing
  {}

  lemma StepKeepsOwnership(cfg: Config, s: System, step: Step, v: nat, w: nat, e: Event)
    requires TableInv(s) && WritersInv(s) && BatchInv(s)
    requires v in Apply(cfg, s, step).writers && w in Apply(cfg, s, step).writers && v != w
    requires e in Apply(cfg, s, step).writers[v].done
    ensures e !in Apply(cfg, s, step).writers[w].done
  {
    assert v in s.writers ==> WriterOk(s.rows, s.issued, s.writers[v]);
    assert w in s.writers ==> WriterOk(s.rows, s.issued, s.writers[w]);
    DoneRows(cfg, s, step, v, e);
    if e in Apply(cfg, s, step).writers[w].done {
      DoneRows(cfg, s, step, w, e);
    }
  }

  lemma StepKeepsBatchUnseen(cfg: Config, s: System, step: Step, w: nat, e: Event)
    requires TableInv(s) && WritersInv(s) && MessagesInv(cfg, s) && BatchInv(s)
    requires w in Apply(cfg, s, step).writers && !Apply(cfg, s, step).writers[w].publishing
    requires e in Apply(cfg, s, step).writers[w].done
    ensures Unseen(Apply(cfg, s, step), e)
  {
    DoneRows(cfg, s, step, w, e);
    if (step.Publish? || step.Rewrite?) && CanPublish(s, step.w) {
      assert s.writers[step.w].done[0] in s.writers[step.w].done;
    }
    StepKeepsUnseen(cfg, s, step, e);
  }

  lemma StepKeepsBatches(cfg: Config, s: System, step: Step)
    requires TableInv(s) && WritersInv(s) && MessagesInv(cfg, s) && BatchInv(s)
    ensures BatchInv(Apply(cfg, s, step))
  {
    var t := Apply(cfg, s, step);
    forall v, w, e | v in t.writers && w in t.writers && v != w && e in t.writers[v].done
      ensures e !in t.writers[w].done
    {
      StepKeepsOwnership(cfg, s, step, v, w, e);
    }
    forall w, e | w in t.writers && !t.writers[w].publishing && e in t.writers[w].done ensures Unseen(t, e) {
      StepKeepsBatchUnseen(cfg, s, step, w, e);
    }
  }

  // ----- Unpublished rows -----

  /** A row recorded as unpublished is on no topic and nobody is about to publish it. */
  ghost predicate Gone(s: System, r: Event)
  {
    Unseen(s, r) && !Waiting(s, r)
  }

  ghost predicate LostInv(s: System)
  {
    && s.unpublished <= RowIds(s.rows)
    && (forall r :: r in s.rows && r.id in s.unpublished ==> Gone(s, r))
    && (forall wr :: wr in s.ended && !wr.publishing ==> Ids(wr.stored) <= s.unpublished)
  }

  /** A row that was gone stays gone. */
  lemma StepKeepsGone(cfg: Config, s: System, step: Step, r: Event)
    requires TableInv(s) && WritersInv(s) && r in s.rows && Gone(s, r)
    ensures Gone(Apply(cfg, s, step), r)
  {
    if (step.Publish? || step.Rewrite?) && CanPublish(s, step.w) {
      assert s.writers[step.w].done[0] in s.writers[step.w].done;
    }
    StepKeepsUnseen(cfg, s, step, r);
    var t := Apply(cfg, s, step);
    if w :| w in t.writers && r in t.writers[w].done {
      DoneRows(cfg, s, step, w, r);
    }
  }

  /** What a call leaves behind unseen when it ends is gone, and recorded. */
  lemma RetireLoses(s: System, w: nat, left: seq<Event>, r: Event)
    requires w in s.writers && r in s.writers[w].done + left && Unseen(s, r)
    requires forall v :: v in s.writers && v != w ==> r !in s.writers[v].done
    ensures Gone(Retire(s, w, left), r) && r.id in Retire(s, w, left).unpublished
  {}

  /** What a step records as unpublished is gone after it. */
  ghost predicate NewlyGone(s: System, t: System)
  {
    forall id :: id in t.unpublished && id !in s.unpublished ==> exists r :: r in t.rows && r.id == id && Gone(t, r)
  }

  /** A call that ends before it publishes has all it stored recorded as unpublished. */
  ghost predicate NewlyEnded(s: System, t: System)
  {
    forall wr :: wr in t.ended && wr !in s.ended && !wr.publishing ==> Ids(wr.stored) <= t.unpublished
  }

  lemma RetireLosesAll(s: System, w: nat, left: seq<Event>)
    requires w in s.writers && (forall r :: r in s.writers[w].done + left ==> r in s.rows)
    requires forall v, r :: v in s.writers && v != w && r in s.writers[w].done + left ==> r !in s.writers[v].done
    ensures NewlyGone(s, Retire(s, w, left))
  {
    var t := Retire(s, w, left);
    forall id | id in t.unpublished && id !in s.unpublished
      ensures exists r :: r in t.rows && r.id == id && Gone(t, r)
    {
      var r :| r in s.writers[w].done + left && Unseen(s, r) && r.id == id;
      RetireLoses(s, w, left, r);
    }
  }

  /** A call's rows are in the table and no other call's. */
  lemma DoneIsOwn(s: System, w: nat)
    requires WritersInv(s) && BatchInv(s) && w in s.writers
    ensures forall r :: r in s.writers[w].done ==> r in s.rows
    ensures forall v, r :: v in s.writers && v != w && r in s.writers[w].done ==> r !in s.writers[v].done
    ensures !s.writers[w].publishing ==> forall r :: r in s.writers[w].done ==> Unseen(s, r)
  {
    assert WriterOk(s.rows, s.issued, s.writers[w]);
  }

  lemma AbandonLoses(s: System, w: nat)
    requires WritersInv(s) && BatchInv(s) && RowsOnPlan(s, w)
    ensures NewlyGone(s, Retire(s, w, [])) && NewlyEnded(s, Retire(s, w, []))
  {
    var wr := s.writers[w];
    assert wr.done + [] == wr.done;
    DoneIsOwn(s, w);
    RetireLosesAll(s, w, []);
    if !wr.publishing {
      RetireRecords(s, w, []);
    } else {
      PublishingRecords(s, w);
    }
  }

  lemma PublishingRecords(s: System, w: nat)
    requires w in s.writers && s.writers[w].publishing
    ensures NewlyEnded(s, Retire(s, w, []))
  {}

  /** A call that stored all of `done + left`, none of it seen, has all of it recorded at its end. */
  lemma RetireRecords(s: System, w: nat, left: seq<Event>)
    requires w in s.writers && s.writers[w].stored == s.writers[w].done
    requires forall r :: r in s.writers[w].done + left ==> Unseen(s, r)
    ensures NewlyEnded(s, Retire(s, w, left))
  {}

  lemma NewRowIsNobodys(s: System, w: nat, row: Event)
    requires WritersInv(s) && row !in s.rows
    ensures forall v :: v in s.writers ==> row !in s.writers[v].done
  {
    forall v | v in s.writers ensures row !in s.writers[v].done {
      assert WriterOk(s.rows, s.issued, s.writers[v]);
    }
  }

  lemma ReplyGoneLoses(cfg: Config, s: System, w: nat)
    requires TableInv(s) && WritersInv(s) && MessagesInv(cfg, s) && BatchInv(s)
    requires CanCommit(s, w) && Attempted(s, w).Inserted? && Halves(s.writers[w])
    ensures NewlyGone(s, ReplyGone(s, w)) && NewlyEnded(s, ReplyGone(s, w))
  {
    var wr, row := s.writers[w], Attempted(s, w).row;
    assert WriterOk(s.rows, s.issued, wr);
    InsertedIsNew(s, w);
    NewRowIsNobodys(s, w, row);
    assert Unseen(s, row);
    LeftBehind(s, s.(rows := s.rows + [row]), w, row);
  }

  lemma LeftBehind(s: System, u: System, w: nat, row: Event)
    requires BatchInv(s) && w in s.writers && !s.writers[w].publishing && s.writers[w].stored == s.writers[w].done
    requires u == s.(rows := s.rows + [row]) && Unseen(s, row)
    requires forall v :: v in s.writers ==> row !in s.writers[v].done
    requires forall r :: r in s.writers[w].done ==> r in s.rows
    ensures NewlyGone(s, Retire(u, w, [row])) && NewlyEnded(s, Retire(u, w, [row]))
  {
    RetireLosesAll(u, w, [row]);
    forall r | r in u.writers[w].done + [row] ensures Unseen(u, r) {
      assert r != row ==> r in s.writers[w].done && Unseen(s, r);
    }
    RetireRecords(u, w, [row]);
    assert NewlyGone(u, Retire(u, w, [row])) && NewlyEnded(u, Retire(u, w, [row]));
  }

  lemma TailRises(rows: seq<Event>, stored: seq<Event>, at: nat)
    requires Rising(rows, stored) && at < |stored|
    ensures stored[at] !in stored[at + 1..]
  {
    forall i | at < i < |stored| ensures stored[i] != stored[at] {
      assert stored[i].streamId == stored[at].streamId ==> stored[at].version < stored[i].version;
    }
  }

  lemma HeadIsDistinct(rows: seq<Event>, wr: Writer)
    requires Rising(rows, wr.stored) && Halves(wr) && wr.done != []
    ensures wr.done[0] !in wr.done[1..]
  {
    var at := |wr.stored| - |wr.done|;
    TailRises(rows, wr.stored, at);
    TailOfTail(wr.stored, at);
  }

  lemma TailOfTail(s: seq<Event>, at: nat)
    requires at < |s|
    ensures s[at..][0] == s[at] && s[at..][1..] == s[at + 1..]
  {}

  lemma PoppedIsGone(s: System, w: nat, t: System)
    requires w in s.writers && s.writers[w].done != [] && s.writers[w].done[0] in s.rows
    requires s.writers[w].done[0] !in s.writers[w].done[1..]
    requires forall v :: v in s.writers && v != w ==> s.writers[w].done[0] !in s.writers[v].done
    requires t == Popped(s, w).(unpublished := s.unpublished + Lost(s, [s.writers[w].done[0]]))
    ensures NewlyGone(s, t)
  {
    var e := s.writers[w].done[0];
    forall id | id in t.unpublished && id !in s.unpublished
      ensures exists r :: r in t.rows && r.id == id && Gone(t, r)
    {
      assert e in t.rows && e.id == id && Gone(t, e);
    }
  }

  lemma HeadIsOwn(s: System, w: nat)
    requires WritersInv(s) && BatchInv(s) && CanPublish(s, w) && RowsOnPlan(s, w)
    ensures var e := s.writers[w].done[0];
            && e in s.rows && e !in s.writers[w].done[1..]
            && forall v :: v in s.writers && v != w ==> e !in s.writers[v].done
  {
    var wr := s.writers[w];
    assert WriterOk(s.rows, s.issued, wr);
    HeadIsDistinct(s.rows, wr);
    assert wr.done[0] in wr.done;
  }

  lemma UnwrittenResult(cfg: Config, s: System, w: nat)
    requires CanPublish(s, w)
    ensures Apply(cfg, s, Publish(w, false, false)) ==
            Popped(s, w).(unpublished := s.unpublished + Lost(s, [s.writers[w].done[0]]))
  {}

  lemma SameEnded(s: System, t: System)
    requires t.ended == s.ended
    ensures NewlyEnded(s, t)
    ensures t.unpublished == s.unpublished ==> NewlyGone(s, t)
  {}

  lemma UnwrittenLoses(cfg: Config, s: System, w: nat)
    requires WritersInv(s) && BatchInv(s) && CanPublish(s, w) && RowsOnPlan(s, w)
    ensures NewlyGone(s, Apply(cfg, s, Publish(w, false, false)))
    ensures NewlyEnded(s, Apply(cfg, s, Publish(w, false, false)))
  {
    var t := Popped(s, w).(unpublished := s.unpublished + Lost(s, [s.writers[w].done[0]]));
    HeadIsOwn(s, w);
    PoppedIsGone(s, w, t);
    SameEnded(s, t);
    UnwrittenResult(cfg, s, w);
  }

  predicate MayLose(step: Step)
  {
    step.CommitAppend? || step.LoseReply? || step.Abandon? || (step.Publish? && !step.written && !step.acked)
  }

  lemma NothingLost(cfg: Config, s: System, step: Step)
    requires !MayLose(step)
    ensures NewlyGone(s, Apply(cfg, s, step)) && NewlyEnded(s, Apply(cfg, s, step))
  {}

  lemma CommitFrame(s: System, w: nat)
    requires CanCommit(s, w)
    ensures if Attempted(s, w).Collision? then Committed(s, w) == Retire(s, w, [])
            else Committed(s, w).ended == s.ended && Committed(s, w).unpublished == s.unpublished
  {}

  lemma CommitLoses(s: System, w: nat, t: System)
    requires WritersInv(s) && BatchInv(s) && RowsOnPlan(s, w)
    requires t == Retire(s, w, []) || (t.ended == s.ended && t.unpublished == s.unpublished)
    ensures NewlyGone(s, t) && NewlyEnded(s, t)
  {
    AbandonLoses(s, w);
    if t != Retire(s, w, []) {
      SameEnded(s, t);
    }
  }

  lemma AttemptLoses(cfg: Config, s: System, w: nat)
    requires TableInv(s) && WritersInv(s) && MessagesInv(cfg, s) && BatchInv(s) && CanCommit(s, w) && RowsOnPlan(s, w)
    ensures NewlyGone(s, Committed(s, w)) && NewlyEnded(s, Committed(s, w))
    ensures NewlyGone(s, ReplyGone(s, w)) && NewlyEnded(s, ReplyGone(s, w))
  {
    CommitFrame(s, w);
    CommitLoses(s, w, Committed(s, w));
    if Attempted(s, w).Inserted? {
      ReplyGoneLoses(cfg, s, w);
    } else {
      AbandonLoses(s, w);
    }
  }

  lemma StepLoses(cfg: Config, s: System, step: Step)
    requires TableInv(s) && WritersInv(s) && MessagesInv(cfg, s) && PlansInv(s) && BatchInv(s)
    ensures NewlyGone(s, Apply(cfg, s, step)) && NewlyEnded(s, Apply(cfg, s, step))
  {
    if !MayLose(step) {
      NothingLost(cfg, s, step);
    } else if step.Publish? {
      if CanPublish(s, step.w) {
        PlanGivesRows(s, step.w);
        UnwrittenLoses(cfg, s, step.w);
      }
    } else if step.Abandon? {
      if step.w in s.writers {
        PlanGivesRows(s, step.w);
        AbandonLoses(s, step.w);
      }
    } else if CanCommit(s, step.w) {
      PlanGivesRows(s, step.w);
      AttemptLoses(cfg, s, step.w);
    }
  }

  lemma StepKeepsLost(cfg: Config, s: System, step: Step)
    requires TableInv(s) && WritersInv(s) && LostInv(s) && TableInv(Apply(cfg, s, step))
    requires s.rows <= Apply(cfg, s, step).rows
    requires NewlyGone(s, Apply(cfg, s, step)) && NewlyEnded(s, Apply(cfg, s, step))
    ensures LostInv(Apply(cfg, s, step))
  {
    var t := Apply(cfg, s, step);
    StepFrame(cfg, s, step);
    forall r | r in t.rows && r.id in t.unpublished ensures Gone(t, r) {
      LostIsGone(cfg, s, step, r);
    }
  }

  lemma LostIsGone(cfg: Config, s: System, step: Step, r: Event)
    requires TableInv(s) && WritersInv(s) && LostInv(s) && TableInv(Apply(cfg, s, step))
    requires s.rows <= Apply(cfg, s, step).rows && NewlyGone(s, Apply(cfg, s, step))
    requires r in Apply(cfg, s, step).rows && r.id in Apply(cfg, s, step).unpublished
    ensures Gone(Apply(cfg, s, step), r)
  {
    var t := Apply(cfg, s, step);
    if r.id in s.unpublished {
      var was :| was in s.rows && was.id == r.id;
      IdNamesRow(t.rows, was, r);
      StepKeepsGone(cfg, s, step, r);
    } else {
      var gone :| gone in t.rows && gone.id == r.id && Gone(t, gone);
      IdNamesRow(t.rows, gone, r);
    }
  }

  // ----- One publisher per row -----

  /** Nobody but the call that stored a row, running or over, is to publish it. */
  ghost predicate StoredInv(s: System)
  {
    && (forall v, w, e :: v in s.writers && w in s.writers && v != w && e in s.writers[v].stored
          ==> e !in s.writers[w].done)
    && (forall wr, w, e :: wr in s.ended && w in s.writers && e in wr.stored ==> e !in s.writers[w].done)
  }

  /** A running call's rows after a step: rows it had, or a row that was not in the table. */
  lemma StoredRows(cfg: Config, s: System, step: Step, v: nat, e: Event)
    requires TableInv(s) && WritersInv(s)
    requires v in Apply(cfg, s, step).writers && e in Apply(cfg, s, step).writers[v].stored
    ensures (v in s.writers && e in s.writers[v].stored) || (e !in s.rows && step == CommitAppend(v))
  {
    if step.CommitAppend? {
      if CanCommit(s, step.w) {
        InsertedIsNew(s, step.w);
      }
    } else {
      StoredKept(cfg, s, step, v);
    }
  }

  lemma StoredKept(cfg: Config, s: System, step: Step, v: nat)
    requires !step.CommitAppend? && v in Apply(cfg, s, step).writers
    ensures if v in s.writers then Apply(cfg, s, step).writers[v].stored == s.writers[v].stored
            else Apply(cfg, s, step).writers[v].stored == []
  {}

  /** The rows of a call that is over after a step: it was over before, or it is the stepping one. */
  lemma EndedRows(cfg: Config, s: System, step: Step, wr: Writer, e: Event)
    requires TableInv(s) && WritersInv(s)
    requires wr in Apply(cfg, s, step).ended && wr !in s.ended && e in wr.stored
    ensures var v := WriterOf(step);
            && v in s.writers && v !in Apply(cfg, s, step).writers
            && (e in s.writers[v].stored || (e !in s.rows && step == LoseReply(v)))
  {
    if step.LoseReply? && CanCommit(s, step.w) {
      InsertedIsNew(s, step.w);
    }
  }

  lemma RunningKeepStored(cfg: Config, s: System, step: Step, v: nat, w: nat, e: Event)
    requires TableInv(s) && WritersInv(s) && StoredInv(s) && (v in s.writers ==> RowsOnPlan(s, v))
    requires v in Apply(cfg, s, step).writers && w in Apply(cfg, s, step).writers && v != w
    requires e in Apply(cfg, s, step).writers[v].stored
    ensures e !in Apply(cfg, s, step).writers[w].done
  {
    StoredRows(cfg, s, step, v, e);
    assert w in s.writers ==> WriterOk(s.rows, s.issued, s.writers[w]);
    if e in Apply(cfg, s, step).writers[w].done {
      DoneRows(cfg, s, step, w, e);
    }
  }

  lemma EndedKeepStored(cfg: Config, s: System, step: Step, wr: Writer, w: nat, e: Event)
    requires TableInv(s) && WritersInv(s) && PlansInv(s) && StoredInv(s)
    requires wr in Apply(cfg, s, step).ended && w in Apply(cfg, s, step).writers && e in wr.stored
    ensures e !in Apply(cfg, s, step).writers[w].done
  {
    assert w in s.writers ==> WriterOk(s.rows, s.issued, s.writers[w]);
    if wr in s.ended {
      assert EndedOnPlan(s.rows, wr);
    } else {
      EndedRows(cfg, s, step, wr, e);
      assert OnPlan(s.rows, s.writers[WriterOf(step)]);
    }
    if e in Apply(cfg, s, step).writers[w].done {
      DoneRows(cfg, s, step, w, e);
    }
  }

  lemma StepKeepsStored(cfg: Config, s: System, step: Step)
    requires TableInv(s) && WritersInv(s) && PlansInv(s) && StoredInv(s)
    ensures StoredInv(Apply(cfg, s, step))
  {
    var t := Apply(cfg, s, step);
    forall v, w, e | v in t.writers && w in t.writers && v != w && e in t.writers[v].stored
      ensures e !in t.writers[w].done
    {
      if v in s.writers {
        PlanGivesRows(s, v);
      }
      RunningKeepStored(cfg, s, step, v, w, e);
    }
    forall wr, w, e | wr in t.ended && w in t.writers && e in wr.stored ensures e !in t.writers[w].done {
      EndedKeepStored(cfg, s, step, wr, w, e);
    }
  }

  // ----- Publishing in order -----

  /** Of the rows a call is to publish, only the first may have been written already. */
  ghost predicate TailInv(s: System)
  {
    forall w, e :: w in s.writers && s.writers[w].done != [] && e in s.writers[w].done[1..] ==> Unseen(s, e)
  }

  /** The later rows of a call after a step: later rows it had, or a row that was not in the table. */
  lemma TailRows(cfg: Config, s: System, step: Step, w: nat, e: Event)
    requires TableInv(s) && WritersInv(s)
    requires w in Apply(cfg, s, step).writers && Apply(cfg, s, step).writers[w].done != []
    requires e in Apply(cfg, s, step).writers[w].done[1..]
    ensures (w in s.writers && s.writers[w].done != [] && e in s.writers[w].done[1..])
            || (e !in s.rows && step == CommitAppend(w))
  {
    if step.CommitAppend? {
      if CanCommit(s, step.w) {
        InsertedIsNew(s, step.w);
        if Attempted(s, step.w).Inserted? {
          TailMore(s.writers[step.w].done, Attempted(s, step.w).row);
        }
      }
    } else {
      TailKept(cfg, s, step, w);
      if s.writers[w].done != Apply(cfg, s, step).writers[w].done {
        TailOfTail(s.writers[w].done, 1);
      }
    }
  }

  lemma TailMore(done: seq<Event>, row: Event)
    ensures forall e :: e in (done + [row])[1..] ==> (done != [] && e in done[1..]) || e == row
  {
    if done != [] {
      assert (done + [row])[1..] == done[1..] + [row];
    }
  }

  lemma TailKept(cfg: Config, s: System, step: Step, w: nat)
    requires !step.CommitAppend? && w in Apply(cfg, s, step).writers && Apply(cfg, s, step).writers[w].done != []
    ensures w in s.writers && s.writers[w].done != []
    ensures var done := Apply(cfg, s, step).writers[w].done;
            done == s.writers[w].done || done == s.writers[w].done[1..]
  {}

  /** A later row of one call is the next row of none. */
  lemma TailIsNotHead(s: System, w: nat, v: nat, e: Event)
    requires BatchInv(s) && RowsOnPlan(s, w) && s.writers[w].done != [] && e in s.writers[w].done[1..]
    requires v in s.writers && s.writers[v].done != []
    ensures e != s.writers[v].done[0]
  {
    if v == w {
      HeadIsDistinct(s.rows, s.writers[w]);
    } else {
      assert s.writers[v].done[0] in s.writers[v].done;
    }
  }

  lemma TailStaysUnseen(cfg: Config, s: System, step: Step, w: nat, e: Event)
    requires TableInv(s) && WritersInv(s) && MessagesInv(cfg, s) && BatchInv(s) && TailInv(s)
    requires w in s.writers ==> RowsOnPlan(s, w)
    requires w in Apply(cfg, s, step).writers && Apply(cfg, s, step).writers[w].done != []
    requires e in Apply(cfg, s, step).writers[w].done[1..]
    ensures Unseen(Apply(cfg, s, step), e)
  {
    TailRows(cfg, s, step, w, e);
    if (step.Publish? || step.Rewrite?) && CanPublish(s, step.w) {
      TailIsNotHead(s, w, step.w, e);
    }
    StepKeepsUnseen(cfg, s, step, e);
  }

  lemma StepKeepsTail(cfg: Config, s: System, step: Step)
    requires TableInv(s) && WritersInv(s) && MessagesInv(cfg, s) && PlansInv(s) && BatchInv(s) && TailInv(s)
    ensures TailInv(Apply(cfg, s, step))
  {
    var t := Apply(cfg, s, step);
    forall w, e | w in t.writers && t.writers[w].done != [] && e in t.writers[w].done[1..] ensures Unseen(t, e) {
      if w in s.writers {
        PlanGivesRows(s, w);
      }
      TailStaysUnseen(cfg, s, step, w, e);
    }
  }

  // ----- Whole runs -----

  ghost predicate AllInv(cfg: Config, s: System)
  {
    Inv(cfg, s) && PlansInv(s) && BatchInv(s) && LostInv(s) && StoredInv(s) && TailInv(s)
  }

  lemma StepKeepsAll(cfg: Config, s: System, step: Step)
    requires AllInv(cfg, s)
    ensures AllInv(cfg, Apply(cfg, s, step))
  {
    StepKeepsInv(cfg, s, step);
    StepKeepsPlans(cfg, s, step);
    StepKeepsBatches(cfg, s, step);
    StepLoses(cfg, s, step);
    StepKeepsLost(cfg, s, step);
    StepKeepsStored(cfg, s, step);
    StepKeepsTail(cfg, s, step);
  }

  lemma EndedStays(cfg: Config, s: System, step: Step)
    ensures s.ended <= Apply(cfg, s, step).ended
  {}

  lemma {:induction false} RunsKeepAll(cfg: Config, s: System, steps: seq<Step>)
    requires AllInv(cfg, s)
    ensures AllInv(cfg, After(cfg, s, steps)) && s.ended <= After(cfg, s, steps).ended
  {
    if steps != [] {
      var front, last := steps[..|steps| - 1], steps[|steps| - 1];
      RunsKeepAll(cfg, s, front);
      StepKeepsAll(cfg, After(cfg, s, front), last);
      EndedStays(cfg, After(cfg, s, front), last);
    }
  }

  lemma {:induction false} ReachableAll(cfg: Config, init: System, steps: seq<Step>)
    requires Initial(init)
    ensures AllInv(cfg, After(cfg, init, steps))
  {
    ReachableInv(cfg, init, []);
    RunsKeepAll(cfg, init, steps);
  }
}
