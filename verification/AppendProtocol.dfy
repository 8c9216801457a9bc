/**
 * Any number of concurrent EventStore.Append calls on one table: each begins with a snapshot,
 * waits while others commit, then commits, fails, or commits and loses its reply. Event ids are
 * arbitrary, so a call may repeat an id that was already used. A step that is not enabled changes
 * nothing, so every sequence of steps is a run.
 */
module AppendProtocol {
  import opened Collections
  import opened Events
  import opened Versions

  datatype Call = Call(e: Event, snap: nat)

  /** `acks` records the (id, version) pairs that successful calls returned to their callers. */
  datatype State = State(rows: seq<Event>, calls: map<nat, Call>, acks: set<(string, int)>)

  datatype Step =
    | Begin(c: nat, e: Event)
    | CommitCall(c: nat)
    | CommitLosingReply(c: nat)
    | Fail(c: nat)

  const EMPTY := State([], map[], {})

  ghost predicate Inv(s: State)
  {
    && Valid(s.rows)
    && (forall c :: c in s.calls ==> s.calls[c].snap <= |s.rows|)
    && (forall a :: a in s.acks ==> exists r :: r in s.rows && r.id == a.0 && r.version == a.1)
  }

  /** The version a successful outcome returns. */
  function Returned(o: Outcome): Option<int>
  {
    match o
    case Inserted(row) => Some(row.version)
    case Existing(v) => Some(v)
    case Collision => None
  }

  function Apply(s: State, step: Step): State
  {
    match step
    case Begin(c, e) =>
      if c in s.calls then s else s.(calls := s.calls[c := Call(e, |s.rows|)])
    case CommitCall(c) =>
      if c !in s.calls || |s.rows| < s.calls[c].snap then s else
      var out := Commit(s.rows, s.calls[c].snap, s.calls[c].e);
      var v := Returned(out);
      State(RowsAfter(s.rows, out), s.calls - {c},
            if v.Some? then s.acks + {(s.calls[c].e.id, v.value)} else s.acks)
    case CommitLosingReply(c) =>
      if c !in s.calls || |s.rows| < s.calls[c].snap then s else
      var out := Commit(s.rows, s.calls[c].snap, s.calls[c].e);
      s.(rows := RowsAfter(s.rows, out), calls := s.calls - {c})
    case Fail(c) => s.(calls := s.calls - {c})
  }

  function After(s: State, steps: seq<Step>): State
  {
    if steps == [] then s else Apply(After(s, steps[..|steps| - 1]), steps[|steps| - 1])
  }

  lemma StepKeepsInv(s: State, step: Step)
    requires Inv(s)
    ensures Inv(Apply(s, step))
    ensures s.rows <= Apply(s, step).rows && s.acks <= Apply(s, step).acks
  {
    if step.CommitCall? || step.CommitLosingReply? {
      if step.c in s.calls {
        var call := s.calls[step.c];
        CommitKeepsValid(s.rows, call.snap, call.e);
        var out := Commit(s.rows, call.snap, call.e);
        if out.Inserted? {
          assert out.row in s.rows + [out.row];
          assert out.row.id == call.e.id;
        }
        forall a | a in Apply(s, step).acks
          ensures exists r :: r in Apply(s, step).rows && r.id == a.0 && r.version == a.1
        {
          if a in s.acks {
            var r :| r in s.rows && r.id == a.0 && r.version == a.1;
            assert r in Apply(s, step).rows;
          }
        }
      }
    }
  }

  /**
   * Whatever the interleaving: versions stay gap-free and ids unique, rows are only ever added at
   * the end, and replies given are never withdrawn.
   */
  lemma {:induction false} RunsKeepInv(s: State, steps: seq<Step>)
    requires Inv(s)
    ensures Inv(After(s, steps))
    ensures s.rows <= After(s, steps).rows && s.acks <= After(s, steps).acks
  {
    if steps != [] {
      RunsKeepInv(s, steps[..|steps| - 1]);
      StepKeepsInv(After(s, steps[..|steps| - 1]), steps[|steps| - 1]);
    }
  }

  lemma {:induction false} RunsCompose(s: State, first: seq<Step>, more: seq<Step>)
    ensures After(s, first + more) == After(After(s, first), more)
  {
    if more == [] {
      assert first + more == first;
    } else {
      var n := |more| - 1;
      assert (first + more)[..|first| + n] == first + more[..n];
      RunsCompose(s, first, more[..n]);
    }
  }

  /**
   * Main result. In every state reachable from the empty table, the rows of each stream carry
   * versions 1..n in commit order, and no two rows share an id.
   */
  lemma {:induction false} GapFreeUnderConcurrency(steps: seq<Step>, stream: string)
    ensures var rows := After(EMPTY, steps).rows;
            && (forall k :: 0 <= k < |StreamRows(rows, stream)| ==> StreamRows(rows, stream)[k].version == k + 1)
            && (forall v :: Taken(rows, stream, v) <==> 1 <= v <= |StreamRows(rows, stream)|)
            && UniqueIds(rows)
  {
    RunsKeepInv(EMPTY, steps);
    var rows := After(EMPTY, steps).rows;
    StreamVersionsExact(rows, stream);
    forall v ensures Taken(rows, stream, v) <==> 1 <= v <= |StreamRows(rows, stream)| {
      TakenIsRange(rows, stream, v);
    }
  }

  /**
   * A version returned for an id is the version of that id's only row, then and in all later
   * states: two successful calls with one id always return the same version.
   */
  lemma {:induction false} RepliesAreForever(first: seq<Step>, more: seq<Step>, id: string, v: int)
    requires (id, v) in After(EMPTY, first).acks
    ensures var rows := After(EMPTY, first + more).rows;
            && Lookup(rows, id).Some? && Lookup(rows, id).value.version == v
            && (forall w :: (id, w) in After(EMPTY, first + more).acks ==> w == v)
  {
    RunsCompose(EMPTY, first, more);
    RunsKeepInv(EMPTY, first);
    RunsKeepInv(After(EMPTY, first), more);
    var end := After(EMPTY, first + more);
    forall w | (id, w) in end.acks
      ensures Lookup(end.rows, id).Some? && Lookup(end.rows, id).value.version == w
    {
      var a := (id, w);
      var r :| r in end.rows && r.id == a.0 && r.version == a.1;
      assert r.id in RowIds(end.rows);
      IdNamesRow(end.rows, r, Lookup(end.rows, id).value);
    }
    assert (id, v) in end.acks;
  }

  /**
   * A retry of an id that has a row (for instance after a lost reply) changes no row and returns
   * that row's version, whatever its snapshot and whatever else the retry carries.
   */
  lemma {:induction false} RetryChangesNothing(steps: seq<Step>, c: nat)
    requires var s := After(EMPTY, steps); c in s.calls && s.calls[c].e.id in RowIds(s.rows)
    ensures var s := After(EMPTY, steps);
            var t := Apply(s, CommitCall(c));
            && t.rows == s.rows
            && t.acks == s.acks + {(s.calls[c].e.id, Lookup(s.rows, s.calls[c].e.id).value.version)}
  {
    RunsKeepInv(EMPTY, steps);
  }

  /**
   * A call with a new id commits a row iff no row of its stream was committed since it began. A
   * call that is rejected leaves the table as it was, so it consumes no version.
   */
  lemma FreshCallOutcome(s: State, c: nat)
    requires Inv(s) && c in s.calls && s.calls[c].e.id !in RowIds(s.rows)
    ensures var e := s.calls[c].e;
            var t := Apply(s, CommitCall(c));
            if Overtaken(s.rows, s.calls[c].snap, e.streamId) then t == s.(calls := s.calls - {c})
            else t.rows == s.rows + [e.(version := |StreamRows(s.rows, e.streamId)| + 1)]
  {
    CommitCharacterised(s.rows, s.calls[c].snap, s.calls[c].e);
  }

  /**
   * A call with a new id that nobody overtakes stores its event as the next version of the stream, whether
   * or not its reply arrives, and the reply that arrives names that version; a failed one stores nothing.
   */
  lemma LoneCallOutcome(s: State, c: nat, e: Event)
    requires Inv(s) && c !in s.calls && e.id !in RowIds(s.rows)
    ensures var next := |StreamRows(s.rows, e.streamId)| + 1;
            var begun := Apply(s, Begin(c, e));
            && Apply(begun, CommitCall(c)) ==
               s.(rows := s.rows + [e.(version := next)], acks := s.acks + {(e.id, next)})
            && Apply(begun, CommitLosingReply(c)) == s.(rows := s.rows + [e.(version := next)])
            && Apply(begun, Fail(c)) == s
  {
    CommitCharacterised(s.rows, |s.rows|, e);
    assert s.calls[c := Call(e, |s.rows|)] - {c} == s.calls;
  }
}
