/**
 * Replays as runs of the platform: what an undisturbed replay call stores, and how its batch ends up split.
 */
module Replays {
  import opened Batches
  import opened Collections
  import opened Events
  import opened Guarantees
  import opened Histories
  import opened Pipeline
  import opened QueryBuilder
  import opened Sql
  import opened Writers

  // ----- One replay, undisturbed -----

  function CopyPlan(matched: seq<Event>, batch: Batch): (plan: seq<Draft>)
    ensures |plan| == |matched| && forall i :: 0 <= i < |matched| ==> plan[i] == Copied(matched[i], batch)
  {
    seq(|matched|, i requires 0 <= i < |matched| => Copied(matched[i], batch))
  }

  lemma BegunReplay(cfg: Config, s: System, w: nat, f: ReplayFilter, batch: Batch, matched: seq<Event>)
    requires w !in s.writers && IsOrdering(OccurredAsc, s.rows, Matching(f), matched)
    ensures Apply(cfg, s, BeginReplay(w, f, batch, matched)) ==
            s.(writers := s.writers[w := NewWriter(CopyPlan(matched, batch))])
  {
    assert seq(|matched|, i requires 0 <= i < |matched| => Copied(matched[i], batch)) == CopyPlan(matched, batch);
  }

  /** Calls that do not publish reach no topic. */
  lemma {:induction false} QuietRun(cfg: Config, s: System, steps: seq<Step>)
    requires forall step :: step in steps ==> !step.Publish? && !step.Rewrite? && !step.Garbage? && !step.Consume?
    ensures After(cfg, s, steps).delivery == s.delivery
  {
    if steps != [] {
      QuietRun(cfg, s, steps[..|steps| - 1]);
      TopicsFrame(cfg, After(cfg, s, steps[..|steps| - 1]), steps[|steps| - 1]);
    }
  }

  lemma {:induction false} SoloStepsAppend(w: nat, n: nat, ids: nat -> string, clock: nat -> Time)
    ensures forall step :: step in SoloSteps(w, n, ids, clock) ==> step.BeginAppend? || step.CommitAppend?
  {
    if n > 0 {
      SoloStepsAppend(w, n - 1, ids, clock);
    }
  }

  ghost function ReplaySteps(w: nat, f: ReplayFilter, batch: Batch, matched: seq<Event>, ids: nat -> string,
                             clock: nat -> Time): seq<Step>
  {
    [BeginReplay(w, f, batch, matched)] + SoloSteps(w, |matched|, ids, clock)
  }

  /** The call has stored a copy of every match, and published none. */
  ghost predicate ReplayStored(s: System, t: System, w: nat, matched: seq<Event>, batch: Batch, added: seq<Event>)
  {
    && |added| == |matched| && t.rows == s.rows + added && t.delivery == s.delivery
    && w in t.writers && t.writers[w] == Writer(CopyPlan(matched, batch), [], None, added, added, false)
    && forall i :: 0 <= i < |added| ==> RealisedBy(Copied(matched[i], batch), added[i])
  }

  lemma {:induction false} StoreReplay(cfg: Config, s: System, w: nat, f: ReplayFilter, batch: Batch,
                                       matched: seq<Event>, ids: nat -> string, clock: nat -> Time)
    returns (added: seq<Event>)
    requires Inv(cfg, s) && w !in s.writers && IsOrdering(OccurredAsc, s.rows, Matching(f), matched)
    requires (forall i :: ids(i) !in s.issued) && (forall i, j :: i != j ==> ids(i) != ids(j))
    ensures ReplayStored(s, After(cfg, s, ReplaySteps(w, f, batch, matched, ids, clock)), w, matched, batch, added)
  {
    var begin, n := BeginReplay(w, f, batch, matched), |matched|;
    var begun := Apply(cfg, s, begin);
    BegunReplay(cfg, s, w, f, batch, matched);
    StepKeepsInv(cfg, s, begin);
    added := SoloCallAppends(cfg, begun, w, n, ids, clock);
    SoloStepsAppend(w, n, ids, clock);
    QuietRun(cfg, begun, SoloSteps(w, n, ids, clock));
    AfterOne(cfg, s, begin);
    RunsCompose(cfg, s, [begin], SoloSteps(w, n, ids, clock));
    SoloIsReplay(s, begun, After(cfg, begun, SoloSteps(w, n, ids, clock)), w, matched, batch, added, ids, clock);
  }

  lemma SoloIsReplay(s: System, begun: System, t: System, w: nat, matched: seq<Event>, batch: Batch,
                     added: seq<Event>, ids: nat -> string, clock: nat -> Time)
    requires begun == s.(writers := s.writers[w := NewWriter(CopyPlan(matched, batch))])
    requires |added| == |matched| && SoloDone(begun, t, w, added, ids, clock) && t.delivery == s.delivery
    ensures ReplayStored(s, t, w, matched, batch, added)
  {
    assert CopyPlan(matched, batch)[|matched|..] == [] && [] + added == added;
    forall i | 0 <= i < |added| ensures RealisedBy(Copied(matched[i], batch), added[i]) {
      RealiseIsRealised(Copied(matched[i], batch), ids(i), clock(i));
      VersionIrrelevant(Copied(matched[i], batch), Realise(Copied(matched[i], batch), ids(i), clock(i)),
                        added[i].version);
    }
  }

  // ----- How a batch ends up split -----

  /** A publish that fails, and no crash: the first of two rows is on its topic, the second never will be. */
  lemma PublishOneOfTwo(cfg: Config, s: System, w: nat) returns (wr: Writer)
    requires BatchInv(s) && TailInv(s) && s.delivery.parts != [] && RowsOnPlan(s, w)
    requires |s.writers[w].done| == 2 && s.writers[w].publishing
    ensures var t := Apply(cfg, Apply(cfg, Apply(cfg, s, Publish(w, true, true)), Publish(w, false, false)), Finish(w));
            && wr in t.ended && wr.stored == s.writers[w].stored
            && !Unseen(t, s.writers[w].done[0]) && s.writers[w].done[1].id in t.unpublished
  {
    var done := s.writers[w].done;
    SecondInTail(done);
    TailUnseenAfter(cfg, s, w, done[1]);
    PublishFrame(cfg, s, Publish(w, true, true));
    PublishWrites(cfg, s, w);
    WrittenIsSeen(cfg, Popped(s, w), done[0]);
    StepKeepsPartitions(cfg, s, Publish(w, true, true));
    wr := LoseTheRest(cfg, Apply(cfg, s, Publish(w, true, true)), w, done[0]);
  }

  lemma SecondInTail(done: seq<Event>)
    requires |done| >= 2
    ensures done[1] in done[1..] && done[1..][0] == done[1]
  {}

  lemma LoseTheRest(cfg: Config, s: System, w: nat, seen: Event) returns (wr: Writer)
    requires s.delivery.parts != [] && w in s.writers && s.writers[w].publishing && |s.writers[w].done| == 1
    requires Unseen(s, s.writers[w].done[0]) && !Unseen(s, seen)
    ensures var t := Apply(cfg, Apply(cfg, s, Publish(w, false, false)), Finish(w));
            && wr in t.ended && wr == s.writers[w].(done := [])
            && !Unseen(t, seen) && s.writers[w].done[0].id in t.unpublished
  {
    UnwrittenResult(cfg, s, w);
    assert s.writers[w].done[1..] == [];
    wr := s.writers[w].(done := []);
  }

  /**
   * From any state in which nothing runs and two rows match, a replay of both and one failed publish
   * lead to a batch that stays split for ever: one copy on its topic, the other nowhere downstream.
   */
  lemma {:induction false} FailedPublishSplits(cfg: Config, init: System, first: seq<Step>, f: ReplayFilter,
                                               matched: seq<Event>, ids: nat -> string)
    returns (steps: seq<Step>, wr: Writer)
    requires Initial(init) && init.delivery.parts != [] && 0 !in After(cfg, init, first).writers
    requires IsOrdering(OccurredAsc, After(cfg, init, first).rows, Matching(f), matched) && |matched| == 2
    requires forall i :: ids(i) !in After(cfg, init, first).issued
    requires forall i, j :: i != j ==> ids(i) != ids(j)
    ensures wr in After(cfg, init, steps).ended && |wr.stored| == 2
    ensures SplitForever(cfg, init, steps, wr.stored[0], wr.stored[1])
  {
    var s, batch, clock := After(cfg, init, first), Batch("batch", 0, "reason"), (i: nat) => 0;
    ReachableAll(cfg, init, first);
    var added := StoreReplay(cfg, s, 0, f, batch, matched, ids, clock);
    var stored := first + ReplaySteps(0, f, batch, matched, ids, clock);
    RunsCompose(cfg, init, first, ReplaySteps(0, f, batch, matched, ids, clock));
    PartitionsStay(cfg, init, first);
    steps, wr := PublishHalf(cfg, init, stored, 0);
  }

  /** A call with two rows to publish: the second publish fails. */
  lemma PublishHalf(cfg: Config, init: System, stored: seq<Step>, w: nat) returns (steps: seq<Step>, wr: Writer)
    requires Initial(init) && w in After(cfg, init, stored).writers
    requires var u := After(cfg, init, stored);
             u.delivery.parts != [] && |u.writers[w].done| == 2 && u.writers[w].stored == u.writers[w].done
             && u.writers[w].todo == []
    ensures wr in After(cfg, init, steps).ended && |wr.stored| == 2
    ensures SplitForever(cfg, init, steps, wr.stored[0], wr.stored[1])
  {
    var begun := stored + [BeginPublishing(w)];
    AfterSnoc(cfg, init, stored, BeginPublishing(w));
    ReachableAll(cfg, init, begun);
    PlanGivesRows(After(cfg, init, begun), w);
    wr := PublishOneOfTwo(cfg, After(cfg, init, begun), w);
    AfterTwoMore(cfg, init, begun, Publish(w, true, true), Publish(w, false, false));
    steps := begun + [Publish(w, true, true)] + [Publish(w, false, false)] + [Finish(w)];
    AfterSnoc(cfg, init, begun + [Publish(w, true, true)] + [Publish(w, false, false)], Finish(w));
    SplitFrom(cfg, init, steps, wr, wr.stored[0], wr.stored[1]);
  }

  lemma SplitFrom(cfg: Config, init: System, steps: seq<Step>, wr: Writer, seen: Event, lost: Event)
    requires Initial(init) && wr in After(cfg, init, steps).ended && seen in wr.stored && lost in wr.stored
    requires !Unseen(After(cfg, init, steps), seen) && lost.id in After(cfg, init, steps).unpublished
    ensures SplitForever(cfg, init, steps, seen, lost)
  {
    assert steps + [] == steps;
    forall more
      ensures !Unseen(After(cfg, init, steps + more), seen) && NeverSeen(After(cfg, init, steps + more), lost)
    {
      EndedRowFate(cfg, init, steps, [], wr, seen);
      EndedRowFate(cfg, init, steps, more, wr, seen);
      EndedRowFate(cfg, init, steps, more, wr, lost);
    }
  }
}
