/**
 * At-least-once delivery from the main topic to the document index: partition logs with committed
 * offsets, one consumer that may crash between any two effects, and a dead-letter queue. Every
 * remote call may take effect without its reply arriving. A step that is not enabled changes nothing.
 */
module Delivery {
  import opened Events

  datatype Msg = Good(e: Event) | Malformed

  datatype Partition = Partition(log: seq<Msg>, committed: nat)

  /** Where the consumer stands with the message at the committed offset of partition `p`. */
  datatype Phase =
    | Idle
    | Fetched(p: nat)
    | IndexFailed(p: nat)
    | Handled(p: nat)
    | Down

  /** `skipped`, `calls`, `commits` and `restarts` only record what happened. */
  datatype State = State(
    parts: seq<Partition>,
    docs: map<string, Event>,
    dlq: seq<Event>,
    phase: Phase,
    skipped: set<string>,
    calls: nat,
    commits: nat,
    restarts: nat)

  datatype Step =
    | Receive(p: nat, m: Msg)               // the broker appends a message
    | Fetch(p: nat)
    | Skip                                  // malformed message
    | Index(written: bool, acked: bool)
    | DeadLetter(written: bool, acked: bool)
    | CommitOffset(acked: bool)
    | Crash
    | Restart

  predicate Pending(s: State, p: nat)
  {
    p < |s.parts| && s.parts[p].committed < |s.parts[p].log|
  }

  function Current(s: State, p: nat): Msg
    requires Pending(s, p)
  {
    s.parts[p].log[s.parts[p].committed]
  }

  /** The index holds one document per event id. */
  function Upsert(docs: map<string, Event>, e: Event): map<string, Event>
  {
    docs[e.id := e]
  }

  function Apply(s: State, step: Step): State
  {
    match step
    case Receive(p, m) =>
      if p < |s.parts| then s.(parts := s.parts[p := s.parts[p].(log := s.parts[p].log + [m])]) else s
    case Fetch(p) =>
      if s.phase == Idle && Pending(s, p)
      then s.(phase := Fetched(p), calls := s.calls + if Current(s, p).Good? then 1 else 0) else s
    case Skip =>
      if s.phase.Fetched? && Pending(s, s.phase.p) && Current(s, s.phase.p).Malformed?
      then s.(phase := Handled(s.phase.p)) else s
    case Index(written, acked) =>
      if s.phase.Fetched? && Pending(s, s.phase.p) && Current(s, s.phase.p).Good?
      then s.(docs := if written || acked then Upsert(s.docs, Current(s, s.phase.p).e) else s.docs,
              phase := if acked then Handled(s.phase.p) else IndexFailed(s.phase.p)) else s
    case DeadLetter(written, acked) =>
      if s.phase.IndexFailed? && Pending(s, s.phase.p) && Current(s, s.phase.p).Good?
      then var e := Current(s, s.phase.p).e;
           s.(dlq := if written || acked then s.dlq + [e] else s.dlq,
              skipped := if acked then s.skipped else s.skipped + {e.id},
              phase := Handled(s.phase.p)) else s
    case CommitOffset(acked) =>
      if s.phase.Handled? && Pending(s, s.phase.p)
      then var p := s.phase.p;
           s.(parts := s.parts[p := s.parts[p].(committed := s.parts[p].committed + 1)],
              commits := s.commits + 1,
              phase := if acked then Idle else Down) else s
    case Crash => s.(phase := Down)
    case Restart => if s.phase == Down then s.(phase := Idle, restarts := s.restarts + 1) else s
  }

  function After(s: State, steps: seq<Step>): State
  {
    if steps == [] then s else Apply(After(s, steps[..|steps| - 1]), steps[|steps| - 1])
  }

  // ----- Invariants -----

  ghost predicate InLogs(s: State, e: Event)
  {
    exists p, k :: 0 <= p < |s.parts| && 0 <= k < |s.parts[p].log| && s.parts[p].log[k] == Good(e)
  }

  /** What became of a message: malformed, a document, a dead letter, or a recorded double failure. */
  predicate Accounted(s: State, m: Msg)
  {
    m.Malformed? || m.e.id in s.docs || m.e in s.dlq || m.e.id in s.skipped
  }

  ghost predicate CommittedAccounted(s: State)
  {
    forall p, k :: 0 <= p < |s.parts| && 0 <= k < s.parts[p].committed <= |s.parts[p].log| ==>
      Accounted(s, s.parts[p].log[k])
  }

  ghost predicate Bounds(s: State)
  {
    && (forall p :: 0 <= p < |s.parts| ==> s.parts[p].committed <= |s.parts[p].log|)
    && (s.phase.Fetched? || s.phase.IndexFailed? || s.phase.Handled? ==> Pending(s, s.phase.p))
    && (s.phase.IndexFailed? ==> Current(s, s.phase.p).Good?)
    && (s.phase.Handled? ==> Accounted(s, Current(s, s.phase.p)))
  }

  /** Documents and dead letters are copies of logged events. */
  ghost predicate FromLogs(s: State)
  {
    && (forall id :: id in s.docs ==> s.docs[id].id == id && InLogs(s, s.docs[id]))
    && (forall e :: e in s.dlq ==> InLogs(s, e))
  }

  function Total(parts: seq<Partition>): nat
  {
    if parts == [] then 0 else Total(parts[..|parts| - 1]) + parts[|parts| - 1].committed
  }

  ghost predicate Counted(s: State)
  {
    && s.commits == Total(s.parts)
    && s.calls <= s.commits + s.restarts + if s.phase == Idle then 0 else 1
  }

  ghost predicate Inv(s: State)
  {
    Bounds(s) && CommittedAccounted(s) && FromLogs(s) && Counted(s)
  }

  /** What no step takes back. */
  ghost predicate Grows(s: State, t: State)
  {
    && |s.parts| == |t.parts|
    && (forall p :: 0 <= p < |s.parts| ==>
          s.parts[p].log <= t.parts[p].log && s.parts[p].committed <= t.parts[p].committed)
    && s.docs.Keys <= t.docs.Keys && s.dlq <= t.dlq && s.skipped <= t.skipped
  }

  lemma StepGrows(s: State, step: Step)
    ensures Grows(s, Apply(s, step))
  {}

  lemma StepKeepsAccounts(s: State, step: Step)
    requires Bounds(s) && CommittedAccounted(s)
    ensures Bounds(Apply(s, step)) && CommittedAccounted(Apply(s, step))
  {
    var t := Apply(s, step);
    forall p, k | 0 <= p < |t.parts| && 0 <= k < t.parts[p].committed <= |t.parts[p].log|
      ensures Accounted(t, t.parts[p].log[k])
    {
      if k < s.parts[p].committed {
        assert Accounted(s, s.parts[p].log[k]);
      }
    }
  }

  lemma StepKeepsLogged(s: State, step: Step, e: Event)
    requires InLogs(s, e)
    ensures InLogs(Apply(s, step), e)
  {
    var p, k :| 0 <= p < |s.parts| && 0 <= k < |s.parts[p].log| && s.parts[p].log[k] == Good(e);
    assert Apply(s, step).parts[p].log[k] == Good(e);
  }

  lemma StepKeepsFromLogs(s: State, step: Step)
    requires Bounds(s) && FromLogs(s)
    ensures FromLogs(Apply(s, step))
  {
    var t := Apply(s, step);
    forall e | InLogs(s, e) ensures InLogs(t, e) {
      StepKeepsLogged(s, step, e);
    }
    if s.phase.Fetched? || s.phase.IndexFailed? {
      var m := Current(s, s.phase.p);
      if m.Good? {
        assert InLogs(s, m.e);
      }
    }
  }

  lemma {:induction false} TotalUpdate(parts: seq<Partition>, p: nat, q: Partition)
    requires p < |parts|
    ensures Total(parts[p := q]) == Total(parts) - parts[p].committed + q.committed
  {
    var n := |parts| - 1;
    if p < n {
      assert parts[p := q][..n] == parts[..n][p := q];
      TotalUpdate(parts[..n], p, q);
    } else {
      assert parts[p := q][..n] == parts[..n];
    }
  }

  lemma StepKeepsCounted(s: State, step: Step)
    requires Bounds(s) && Counted(s)
    ensures Counted(Apply(s, step))
  {
    if step.Receive? && step.p < |s.parts| {
      TotalUpdate(s.parts, step.p, Apply(s, step).parts[step.p]);
    }
    if step.CommitOffset? && s.phase.Handled? {
      TotalUpdate(s.parts, s.phase.p, Apply(s, step).parts[s.phase.p]);
    }
  }

  lemma StepKeepsInv(s: State, step: Step)
    requires Inv(s)
    ensures Inv(Apply(s, step)) && Grows(s, Apply(s, step))
  {
    StepGrows(s, step);
    StepKeepsAccounts(s, step);
    StepKeepsFromLogs(s, step);
    StepKeepsCounted(s, step);
  }

  // ----- Whole runs -----

  lemma {:induction false} RunsCompose(s: State, first: seq<Step>, more: seq<Step>)
    ensures After(s, first + more) == After(After(s, first), more)
  {
    if more == [] {
      assert first + more == first;
    } else {
      var n := |more| - 1;
      assert (first + more)[..|first| + n] == first + more[..n];
      RunsCompose(s, first, more[..n]);
    }
  }

  lemma AfterSnoc(s: State, steps: seq<Step>, step: Step)
    ensures After(s, steps + [step]) == Apply(After(s, steps), step)
  {}

  /** `n` empty partitions and a consumer that has just started. */
  ghost predicate Initial(s: State)
  {
    && (forall p :: 0 <= p < |s.parts| ==> s.parts[p] == Partition([], 0))
    && s == State(s.parts, map[], [], Idle, {}, 0, 0, 0)
  }

  lemma {:induction false} EmptyTotal(parts: seq<Partition>)
    requires forall p :: 0 <= p < |parts| ==> parts[p] == Partition([], 0)
    ensures Total(parts) == 0
  {
    if parts != [] {
      EmptyTotal(parts[..|parts| - 1]);
    }
  }

  lemma {:induction false} RunsKeepInv(s: State, steps: seq<Step>)
    requires Inv(s)
    ensures Inv(After(s, steps)) && Grows(s, After(s, steps))
  {
    if steps != [] {
      RunsKeepInv(s, steps[..|steps| - 1]);
      StepKeepsInv(After(s, steps[..|steps| - 1]), steps[|steps| - 1]);
    }
  }

  lemma {:induction false} ReachableInv(init: State, steps: seq<Step>)
    requires Initial(init)
    ensures Inv(After(init, steps))
  {
    EmptyTotal(init.parts);
    RunsKeepInv(init, steps);
  }

  /**
   * Main result. In every run, however often the consumer crashes: no offset below a committed one
   * was lost, the offsets moved one message per commit, and the handler was called at most once per
   * committed message, plus once per restart, plus once.
   */
  lemma {:induction false} ConsumerAccounting(init: State, steps: seq<Step>)
    requires Initial(init)
    ensures var s := After(init, steps);
            && CommittedAccounted(s)
            && (forall p :: 0 <= p < |s.parts| ==> s.parts[p].committed <= |s.parts[p].log|)
            && s.commits == Total(s.parts)
            && s.calls <= s.commits + s.restarts + 1
  {
    ReachableInv(init, steps);
  }

  // ----- Redelivery confluence -----

  /** In both logs together, an id names one event. */
  ghost predicate IdsConsistent(s: State, t: State)
  {
    forall a, b :: (InLogs(s, a) || InLogs(t, a)) && (InLogs(s, b) || InLogs(t, b)) && a.id == b.id ==> a == b
  }

  lemma SameDocuments(s: State, t: State)
    requires FromLogs(s) && FromLogs(t) && IdsConsistent(s, t) && s.docs.Keys == t.docs.Keys
    ensures s.docs == t.docs
  {}

  /**
   * Two runs that indexed the same ids end with the same index, whatever the order, duplicates,
   * crashes and lost replies on the way.
   */
  lemma {:induction false} DocumentsDetermined(init: State, left: seq<Step>, right: seq<Step>)
    requires Initial(init)
    requires IdsConsistent(After(init, left), After(init, right))
    requires After(init, left).docs.Keys == After(init, right).docs.Keys
    ensures After(init, left).docs == After(init, right).docs
  {
    ReachableInv(init, left);
    ReachableInv(init, right);
    SameDocuments(After(init, left), After(init, right));
  }
}
