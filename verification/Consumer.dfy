/**
 * The consume loop: Consumer.Run (internal/infrastructure/kafka/consumer.go) driving Service.handle
 * (internal/application/consume/service.go). One call of Run is a stretch of the delivery machine
 * between two restarts.
 */
module Consumer {
  import opened Delivery
  import opened Events
  import opened ReadModel

  /** What happens in one turn of the loop: the fetch, and the fate of each remote call. */
  datatype Turn =
    | Cancelled
    | FetchFails
    | Message(p: nat, indexWritten: bool, indexAcked: bool, dlqWritten: bool, dlqAcked: bool,
              commitWritten: bool, commitAcked: bool)

  class DlqProducer {
    var entries: seq<Event>

    constructor ()
      ensures entries == []
    {
      entries := [];
    }

    method Publish(e: Event, written: bool, acked: bool) returns (ok: bool)
      modifies this
      ensures ok == acked
      ensures entries == old(entries) + if written || acked then [e] else []
    {
      if written || acked {
        entries := entries + [e];
      }
      ok := acked;
    }
  }

  class Service {
    const indexer: Indexer
    const dlq: DlqProducer
    ghost var skipped: set<string>

    constructor (indexer: Indexer, dlq: DlqProducer)
      ensures this.indexer == indexer && this.dlq == dlq && skipped == {}
    {
      this.indexer, this.dlq := indexer, dlq;
      skipped := {};
    }

    /** Indexes one event; on failure dead-letters it; a double failure is only recorded. */
    method Handle(e: Event, turn: Turn)
      requires turn.Message?
      modifies this, indexer, dlq
      ensures indexer.docs ==
              if turn.indexWritten || turn.indexAcked then Upsert(old(indexer.docs), e) else old(indexer.docs)
      ensures dlq.entries == old(dlq.entries) +
              if !turn.indexAcked && (turn.dlqWritten || turn.dlqAcked) then [e] else []
      ensures skipped == old(skipped) + if turn.indexAcked || turn.dlqAcked then {} else {e.id}
      ensures e.id in indexer.docs || e in dlq.entries || e.id in skipped
    {
      var ok := indexer.Index(e, turn.indexWritten, turn.indexAcked);
      if !ok {
        RouteToDlq(e, turn);
      }
    }

    method RouteToDlq(e: Event, turn: Turn)
      requires turn.Message?
      modifies this, dlq
      ensures dlq.entries == old(dlq.entries) + if turn.dlqWritten || turn.dlqAcked then [e] else []
      ensures skipped == old(skipped) + if turn.dlqAcked then {} else {e.id}
    {
      var ok := dlq.Publish(e, turn.dlqWritten, turn.dlqAcked);
      if !ok {
        skipped := skipped + {e.id};
      }
    }
  }

  class Consumer {
    var parts: seq<Partition>

    constructor (parts: seq<Partition>)
      ensures this.parts == parts
    {
      this.parts := parts;
    }

    /** The delivery state these objects are in; the counters are passed along. */
    ghost predicate Shows(svc: Service, s: State)
      reads this, svc, svc.indexer, svc.dlq
    {
      && s.parts == parts && s.docs == svc.indexer.docs
      && s.dlq == svc.dlq.entries && s.skipped == svc.skipped
    }

    /** Handles or skips the fetched message, then commits its offset. */
    method Process(svc: Service, turn: Turn, ghost now: State)
      requires turn.Message? && Shows(svc, now) && Pending(now, turn.p)
      modifies this, svc, svc.indexer, svc.dlq
      ensures Shows(svc, TurnState(now, turn))
    {
      var p := turn.p;
      match parts[p].log[parts[p].committed] {
        case Malformed =>
        case Good(e) => svc.Handle(e, turn);
      }
      if turn.commitWritten || turn.commitAcked {
        parts := parts[p := parts[p].(committed := parts[p].committed + 1)];
      }
    }

    /** The loop: `trail` lists the partitions before each turn taken. */
    method Loop(svc: Service, turns: seq<Turn>, ghost start: State)
      returns (ok: bool, ghost steps: seq<Step>, ghost trail: seq<seq<Partition>>)
      requires Shows(svc, start) && start.phase == Idle
      modifies this, svc, svc.indexer, svc.dlq
      ensures Shows(svc, LoopEnd(start, turns)) && ok == LoopEnd(start, turns).phase.Idle?
      ensures After(start, steps) == LoopEnd(start, turns)
      ensures forall s :: s in steps ==> !s.Receive? && !s.Restart?
      ensures Trail(start.parts, turns, trail) && Ended(trail[|trail| - 1], turns, |trail| - 1, ok, parts)
      ensures Passed(start, LoopEnd(start, turns), turns)
    {
      steps := [];
      trail := [parts];
      ghost var now := start;
      for i := 0 to |turns|
        invariant Shows(svc, now) && now.phase == Idle && now == After(start, steps)
        invariant LoopEnd(start, turns) == LoopEnd(now, turns[i..])
        invariant forall s :: s in steps ==> !s.Receive? && !s.Restart?
        invariant |trail| == i + 1 && trail[i] == parts && Trail(start.parts, turns, trail)
        invariant Passed(start, now, turns)
      {
        var turn := turns[i];
        LoopUnfolds(now, turns, i);
        match turn {
          case Cancelled =>
            return true, steps, trail;
          case FetchFails =>
            AfterSnoc(start, steps, Crash);
            return false, steps + [Crash], trail;
          case Message(p, _, _, _, _, _, commitAcked) =>
            if p < |parts| && parts[p].committed < |parts[p].log| {
              TurnPasses(start, now, turns, i);
              steps := TurnRuns(start, steps, turn);
              Process(svc, turn, now);
              now := TurnState(now, turn);
              if !commitAcked {
                return false, steps, trail;
              }
            }
            TrailGrows(start.parts, turns, trail, parts);
            trail := trail + [parts];
        }
      }
      ok := true;
    }

    /**
     * Runs until the context is cancelled (true) or an error ends the process (false), turn by turn.
     * `steps` is the run of the delivery machine it performs, `trail` the partitions before each turn taken:
     * a turn with a pending message passes it, malformed or not, if its commit is acknowledged, and
     * otherwise ends the loop.
     */
    method Run(svc: Service, turns: seq<Turn>, ghost start: State)
      returns (ok: bool, ghost steps: seq<Step>, ghost trail: seq<seq<Partition>>)
      requires Shows(svc, start) && start.phase == Idle
      modifies this, svc, svc.indexer, svc.dlq
      ensures Shows(svc, LoopEnd(start, turns)) && ok == LoopEnd(start, turns).phase.Idle?
      ensures After(start, steps) == LoopEnd(start, turns)
      ensures forall s :: s in steps ==> !s.Receive? && !s.Restart?
      ensures 0 < |trail| <= |turns| + 1 && trail[0] == old(parts)
      ensures forall i, p :: 0 <= i < |trail| - 1 && turns[i].Message? && turns[i].p == p ==>
                if p < |trail[i]| && trail[i][p].committed < |trail[i][p].log|
                then turns[i].commitAcked
                     && trail[i + 1] == trail[i][p := Partition(trail[i][p].log, trail[i][p].committed + 1)]
                else trail[i + 1] == trail[i]
      ensures forall i :: 0 <= i < |trail| - 1 ==> turns[i].Message?
      ensures var n := |trail| - 1;
              if n == |turns| || turns[n].Cancelled? then ok && parts == trail[n]
              else if turns[n].FetchFails? then !ok && parts == trail[n]
              else
                var was, p := trail[n], turns[n].p;
                && !ok && p < |was| && was[p].committed < |was[p].log| && !turns[n].commitAcked
                && parts == if turns[n].commitWritten
                            then was[p := Partition(was[p].log, was[p].committed + 1)] else was
      ensures |parts| == |old(parts)|
      ensures forall p, k :: && 0 <= p < |parts|
                             && old(parts)[p].committed <= k < parts[p].committed <= |parts[p].log| ==>
                var m := parts[p].log[k];
                && (m.Malformed? || m.e.id in svc.indexer.docs || m.e in svc.dlq.entries || m.e.id in svc.skipped)
                && ((forall i :: 0 <= i < |turns| && turns[i].Message? ==> turns[i].indexAcked) ==>
                      m.Malformed? || m.e.id in svc.indexer.docs)
    {
      ok, steps, trail := Loop(svc, turns, start);
      ghost var n := |trail| - 1;
      TrailMeans(start.parts, turns, trail);
      PassedMeans(start, LoopEnd(start, turns), turns);
    }
  }

  /** The turns after which the loop went on led through these partitions. */
  ghost predicate Trail(parts: seq<Partition>, turns: seq<Turn>, trail: seq<seq<Partition>>)
  {
    && 0 < |trail| <= |turns| + 1 && trail[0] == parts
    && forall i :: 0 <= i < |trail| - 1 ==> WentOn(trail[i], trail[i + 1], turns[i])
  }

  /** How the loop ended: after all turns, or at turn `n`, which found the partitions `was`. */
  ghost predicate Ended(was: seq<Partition>, turns: seq<Turn>, n: nat, ok: bool, parts: seq<Partition>)
    requires n <= |turns|
  {
    if n == |turns| || turns[n].Cancelled? then ok && parts == was
    else if turns[n].FetchFails? then !ok && parts == was
    else
      var p := turns[n].p;
      && !ok && p < |was| && was[p].committed < |was[p].log| && !turns[n].commitAcked
      && parts == if turns[n].commitWritten then was[p := Partition(was[p].log, was[p].committed + 1)] else was
  }

  lemma TrailMeans(parts: seq<Partition>, turns: seq<Turn>, trail: seq<seq<Partition>>)
    requires Trail(parts, turns, trail)
    ensures forall i, p :: 0 <= i < |trail| - 1 && turns[i].Message? && turns[i].p == p ==>
              if p < |trail[i]| && trail[i][p].committed < |trail[i][p].log|
              then turns[i].commitAcked
                   && trail[i + 1] == trail[i][p := Partition(trail[i][p].log, trail[i][p].committed + 1)]
              else trail[i + 1] == trail[i]
    ensures forall i :: 0 <= i < |trail| - 1 ==> turns[i].Message?
  {
    forall i | 0 <= i < |trail| - 1 ensures turns[i].Message? {
      assert WentOn(trail[i], trail[i + 1], turns[i]);
    }
    forall i, p | 0 <= i < |trail| - 1 && turns[i].Message? && turns[i].p == p
      ensures if p < |trail[i]| && trail[i][p].committed < |trail[i][p].log|
              then turns[i].commitAcked
                   && trail[i + 1] == trail[i][p := Partition(trail[i][p].log, trail[i][p].committed + 1)]
              else trail[i + 1] == trail[i]
    {
      assert WentOn(trail[i], trail[i + 1], turns[i]);
    }
  }

  lemma PassedMeans(start: State, now: State, turns: seq<Turn>)
    requires Passed(start, now, turns)
    ensures |now.parts| == |start.parts|
    ensures forall p, k :: && 0 <= p < |now.parts|
                           && start.parts[p].committed <= k < now.parts[p].committed <= |now.parts[p].log| ==>
              var m := now.parts[p].log[k];
              && (m.Malformed? || m.e.id in now.docs || m.e in now.dlq || m.e.id in now.skipped)
              && ((forall i :: 0 <= i < |turns| && turns[i].Message? ==> turns[i].indexAcked) ==>
                    m.Malformed? || m.e.id in now.docs)
  {
    forall p, k | && 0 <= p < |now.parts|
                  && start.parts[p].committed <= k < now.parts[p].committed <= |now.parts[p].log|
      ensures Settled(now, now.parts[p].log[k], turns)
    {}
  }

  /** How many of the turns fetch from partition `p`. */
  function Visits(turns: seq<Turn>, p: nat): nat
  {
    if turns == [] then 0 else
    var last := turns[|turns| - 1];
    Visits(turns[..|turns| - 1], p) + if last.Message? && last.p == p then 1 else 0
  }

  /** Each turn passes one message of its partition, whatever the message is, until none is left. */
  lemma {:induction false} TurnsAdvance(parts: seq<Partition>, turns: seq<Turn>, trail: seq<seq<Partition>>, n: nat,
                                        p: nat)
    requires Trail(parts, turns, trail) && n < |trail| && p < |parts| && parts[p].committed <= |parts[p].log|
    ensures |trail[n]| == |parts| && trail[n][p].log == parts[p].log
    ensures var to := parts[p].committed + Visits(turns[..n], p);
            trail[n][p].committed == if to < |parts[p].log| then to else |parts[p].log|
  {
    if n > 0 {
      TurnsAdvance(parts, turns, trail, n - 1, p);
      assert WentOn(trail[n - 1], trail[n], turns[n - 1]);
      assert turns[..n][..n - 1] == turns[..n - 1];
    }
  }

  lemma LoopUnfolds(s: State, turns: seq<Turn>, i: nat)
    requires i < |turns|
    ensures LoopEnd(s, turns[i..]) ==
            if turns[i].Cancelled? then s
            else if turns[i].FetchFails? then s.(phase := Down)
            else if !Pending(s, turns[i].p) then LoopEnd(s, turns[i + 1..])
            else if turns[i].commitAcked then LoopEnd(TurnState(s, turns[i]), turns[i + 1..])
            else TurnState(s, turns[i])
  {
    assert turns[i..][0] == turns[i] && turns[i..][1..] == turns[i + 1..];
  }

  lemma TrailGrows(parts: seq<Partition>, turns: seq<Turn>, trail: seq<seq<Partition>>, next: seq<Partition>)
    requires Trail(parts, turns, trail) && |trail| <= |turns|
    requires WentOn(trail[|trail| - 1], next, turns[|trail| - 1])
    ensures Trail(parts, turns, trail + [next])
  {}

  /** A run that goes on with one turn. */
  lemma TurnRuns(start: State, steps: seq<Step>, turn: Turn) returns (more: seq<Step>)
    requires turn.Message? && After(start, steps).phase == Idle && Pending(After(start, steps), turn.p)
    requires forall s :: s in steps ==> !s.Receive? && !s.Restart?
    ensures After(start, more) == TurnState(After(start, steps), turn)
    ensures forall s :: s in more ==> !s.Receive? && !s.Restart?
  {
    var now := After(start, steps);
    var taken := StepsOf(Current(now, turn.p), turn);
    TurnResult(now, turn);
    TurnStepsLocal(Current(now, turn.p), turn);
    RunsCompose(start, steps, taken);
    more := steps + taken;
  }

  /** The loop goes on after this turn. */
  ghost predicate WentOn(was: seq<Partition>, next: seq<Partition>, turn: Turn)
  {
    && turn.Message?
    && if turn.p < |was| && was[turn.p].committed < |was[turn.p].log|
       then turn.commitAcked
            && next == was[turn.p := Partition(was[turn.p].log, was[turn.p].committed + 1)]
       else next == was
  }

  /** What became of a message that was passed: it is indexed, if no indexing failed. */
  ghost predicate Settled(now: State, m: Msg, turns: seq<Turn>)
  {
    Accounted(now, m) && (AllIndexed(turns) ==> m.Malformed? || m.e.id in now.docs)
  }

  ghost predicate Passed(start: State, now: State, turns: seq<Turn>)
  {
    && |now.parts| == |start.parts|
    && forall p, k :: && 0 <= p < |now.parts|
                      && start.parts[p].committed <= k < now.parts[p].committed <= |now.parts[p].log|
                      ==> Settled(now, now.parts[p].log[k], turns)
  }

  ghost predicate AllIndexed(turns: seq<Turn>)
  {
    forall i :: 0 <= i < |turns| && turns[i].Message? ==> turns[i].indexAcked
  }

  lemma TurnPasses(start: State, s: State, turns: seq<Turn>, i: nat)
    requires i < |turns| && turns[i].Message? && Pending(s, turns[i].p) && Passed(start, s, turns)
    ensures Passed(start, TurnState(s, turns[i]), turns)
  {
    var t, q := TurnState(s, turns[i]), turns[i].p;
    forall p, k | 0 <= p < |t.parts| && start.parts[p].committed <= k < t.parts[p].committed <= |t.parts[p].log|
      ensures Settled(t, t.parts[p].log[k], turns)
    {
      if k < s.parts[p].committed {
        assert Settled(s, s.parts[p].log[k], turns);
      } else {
        assert p == q && k == s.parts[p].committed && t.parts[p].log[k] == Current(s, q);
      }
    }
  }

  /** Where a sequence of turns leads; a turn whose partition has no message waits for the next. */
  ghost function LoopEnd(s: State, turns: seq<Turn>): State
    decreases turns
  {
    if turns == [] then s else
    match turns[0]
    case Cancelled => s
    case FetchFails => s.(phase := Down)
    case Message(p, _, _, _, _, _, acked) =>
      if !Pending(s, p) then LoopEnd(s, turns[1..])
      else if acked then LoopEnd(TurnState(s, turns[0]), turns[1..])
      else TurnState(s, turns[0])
  }

  /** The machine steps of one turn that fetched message `m`. */
  ghost function StepsOf(m: Msg, turn: Turn): seq<Step>
    requires turn.Message?
  {
    [Fetch(turn.p)] + HandlingSteps(m, turn)
    + [if turn.commitWritten || turn.commitAcked then CommitOffset(turn.commitAcked) else Crash]
  }

  ghost function HandlingSteps(m: Msg, turn: Turn): seq<Step>
    requires turn.Message?
  {
    if m.Malformed? then [Skip]
    else [Index(turn.indexWritten, turn.indexAcked)]
         + if turn.indexAcked then [] else [DeadLetter(turn.dlqWritten, turn.dlqAcked)]
  }

  /** The state in which the current message has been handled and its offset is still to be committed. */
  ghost function HandledState(s: State, turn: Turn): State
    requires turn.Message? && Pending(s, turn.p)
  {
    var m := Current(s, turn.p);
    if m.Malformed? then s.(phase := Handled(turn.p)) else
    s.(phase := Handled(turn.p), calls := s.calls + 1,
       docs := if turn.indexWritten || turn.indexAcked then Upsert(s.docs, m.e) else s.docs,
       dlq := s.dlq + (if !turn.indexAcked && (turn.dlqWritten || turn.dlqAcked) then [m.e] else []),
       skipped := s.skipped + if turn.indexAcked || turn.dlqAcked then {} else {m.e.id})
  }

  lemma HandlingResult(s: State, turn: Turn)
    requires turn.Message? && s.phase == Idle && Pending(s, turn.p)
    ensures After(s, [Fetch(turn.p)] + HandlingSteps(Current(s, turn.p), turn)) == HandledState(s, turn)
  {
    var fetch := [Fetch(turn.p)];
    assert fetch[..0] == [];
    assert After(s, fetch) == Apply(s, Fetch(turn.p));
    if Current(s, turn.p).Malformed? {
      AfterSnoc(s, fetch, Skip);
    } else {
      var index := Index(turn.indexWritten, turn.indexAcked);
      AfterSnoc(s, fetch, index);
      AfterSnoc(s, fetch + [index], DeadLetter(turn.dlqWritten, turn.dlqAcked));
      assert fetch + ([index] + []) == fetch + [index];
      assert fetch + ([index] + [DeadLetter(turn.dlqWritten, turn.dlqAcked)])
          == fetch + [index] + [DeadLetter(turn.dlqWritten, turn.dlqAcked)];
    }
  }

  /** The state after the whole turn: the offset moves exactly if the commit reached the broker. */
  ghost function TurnState(s: State, turn: Turn): State
    requires turn.Message? && Pending(s, turn.p)
  {
    var h := HandledState(s, turn);
    var next := s.parts[turn.p].(committed := s.parts[turn.p].committed + 1);
    if turn.commitWritten || turn.commitAcked
    then h.(parts := s.parts[turn.p := next], commits := s.commits + 1,
            phase := if turn.commitAcked then Idle else Down)
    else h.(phase := Down)
  }

  /** One turn of the loop is a run of the machine. */
  lemma TurnResult(s: State, turn: Turn)
    requires turn.Message? && s.phase == Idle && Pending(s, turn.p)
    ensures After(s, StepsOf(Current(s, turn.p), turn)) == TurnState(s, turn)
  {
    HandlingResult(s, turn);
    var last := if turn.commitWritten || turn.commitAcked then CommitOffset(turn.commitAcked) else Crash;
    AfterSnoc(s, [Fetch(turn.p)] + HandlingSteps(Current(s, turn.p), turn), last);
    CommitResult(s, turn, last);
  }

  lemma CommitResult(s: State, turn: Turn, last: Step)
    requires turn.Message? && Pending(s, turn.p)
    requires last == if turn.commitWritten || turn.commitAcked then CommitOffset(turn.commitAcked) else Crash
    ensures Apply(HandledState(s, turn), last) == TurnState(s, turn)
  {}

  lemma TurnStepsLocal(m: Msg, turn: Turn)
    requires turn.Message?
    ensures forall step :: step in StepsOf(m, turn) ==> !step.Receive? && !step.Restart?
  {}
}
