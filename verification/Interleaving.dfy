/**
 * The append loop of the replay engine among other clients, as a run of the whole platform: its turns are
 * the steps of one call, interleaved with the steps of all other calls, the broker and the consumer.
 */
module Interleaving {
  import opened Collections
  import opened Events
  import opened Pipeline
  import opened Postgres
  import opened ReplayBatch
  import opened Versions
  import opened Writers

  // ----- What other calls do to the table -----

  /** A step of the broker, of the consumer, or of another call, which draws none of these ids. */
  ghost predicate OfOthers(step: Step, w: nat, ids: nat -> string)
  {
    || step.Garbage? || step.Consume?
    || (WriterOf(step) != w && (step.BeginAppend? ==> forall i :: ids(i) != step.id))
  }

  ghost predicate AllOfOthers(steps: seq<Step>, w: nat, ids: nat -> string)
  {
    forall step :: step in steps ==> OfOthers(step, w, ids)
  }

  /** The INSERT that a step commits, if it does. */
  function StatementOf(s: System, step: Step): seq<Statement>
  {
    if (step.CommitAppend? || step.LoseReply?) && CanCommit(s, step.w)
    then [Statement(s.writers[step.w].inFlight.value.e, s.writers[step.w].inFlight.value.snap)] else []
  }

  ghost function StatementsOf(cfg: Config, s: System, steps: seq<Step>): seq<Statement>
  {
    if steps == [] then [] else
    var front := steps[..|steps| - 1];
    StatementsOf(cfg, s, front) + StatementOf(After(cfg, s, front), steps[|steps| - 1])
  }

  lemma OneStatement(rows: seq<Event>, st: Statement)
    requires st.snap <= |rows|
    ensures Meanwhile(rows, [st]) == RowsAfter(rows, Commit(rows, st.snap, st.e))
  {
    assert [st][..0] == [];
  }

  lemma StepIsStatement(cfg: Config, s: System, step: Step)
    ensures Apply(cfg, s, step).rows == Meanwhile(s.rows, StatementOf(s, step))
  {
    if step.CommitAppend? || step.LoseReply? {
      if CanCommit(s, step.w) {
        OneStatement(s.rows, StatementOf(s, step)[0]);
      }
    } else {
      RowsFrame(cfg, s, step);
    }
  }

  lemma MeanwhileSnoc(rows: seq<Event>, stmts: seq<Statement>, s: Statement)
    ensures Meanwhile(rows, stmts + [s]) == AfterStatement(Meanwhile(rows, stmts), s)
  {
    assert (stmts + [s])[..|stmts|] == stmts;
  }

  lemma {:induction false} MeanwhileConcat(rows: seq<Event>, a: seq<Statement>, b: seq<Statement>)
    ensures Meanwhile(rows, a + b) == Meanwhile(Meanwhile(rows, a), b)
  {
    if b == [] {
      assert a + b == a;
    } else {
      var n := |b| - 1;
      assert a + b == (a + b[..n]) + [b[n]] && b == b[..n] + [b[n]];
      MeanwhileConcat(rows, a, b[..n]);
      SameStatement(rows, Meanwhile(rows, a), a + b[..n], b[..n], b[n]);
    }
  }

  lemma SameStatement(rows: seq<Event>, later: seq<Event>, a: seq<Statement>, b: seq<Statement>, s: Statement)
    requires Meanwhile(rows, a) == Meanwhile(later, b)
    ensures Meanwhile(rows, a + [s]) == Meanwhile(later, b + [s])
  {
    MeanwhileSnoc(rows, a, s);
    MeanwhileSnoc(later, b, s);
  }

  /** What a run does to the table is what its INSERTs do, one after the other. */
  lemma {:induction false} RunIsStatements(cfg: Config, s: System, steps: seq<Step>)
    ensures After(cfg, s, steps).rows == Meanwhile(s.rows, StatementsOf(cfg, s, steps))
  {
    if steps != [] {
      var front := steps[..|steps| - 1];
      RunIsStatements(cfg, s, front);
      StepIsStatement(cfg, After(cfg, s, front), steps[|steps| - 1]);
      MeanwhileConcat(s.rows, StatementsOf(cfg, s, front), StatementOf(After(cfg, s, front), steps[|steps| - 1]));
    }
  }

  lemma OthersStepLeaves(cfg: Config, s: System, step: Step, w: nat, ids: nat -> string)
    requires OfOthers(step, w, ids) && w in s.writers
    ensures var t := Apply(cfg, s, step);
            && w in t.writers && t.writers[w] == s.writers[w]
            && forall i :: ids(i) !in s.issued ==> ids(i) !in t.issued
  {
    if step.Garbage? || step.Consume? {
      DeliveryFrame(cfg, s, step);
    } else {
      StepFrame(cfg, s, step);
      IssuedFrame(cfg, s, step);
    }
  }

  lemma IssuedFrame(cfg: Config, s: System, step: Step)
    ensures Apply(cfg, s, step).issued == s.issued
            || (step.BeginAppend? && Apply(cfg, s, step).issued == s.issued + {step.id})
  {}

  /** Others leave the call as it is, and its ids unused. */
  lemma {:induction false} OthersLeave(cfg: Config, s: System, steps: seq<Step>, w: nat, ids: nat -> string)
    requires AllOfOthers(steps, w, ids) && w in s.writers
    ensures var t := After(cfg, s, steps);
            && w in t.writers && t.writers[w] == s.writers[w]
            && forall i :: ids(i) !in s.issued ==> ids(i) !in t.issued
  {
    if steps != [] {
      OthersLeave(cfg, s, steps[..|steps| - 1], w, ids);
      OthersStepLeaves(cfg, After(cfg, s, steps[..|steps| - 1]), steps[|steps| - 1], w, ids);
    }
  }

  // ----- One turn -----

  /** What others do before and during the i-th append. */
  datatype Others = Others(before: nat -> seq<Step>, during: nat -> seq<Step>)

  /** Up to the point where the statement of turn i has met the table. */
  ghost function MeetSteps(w: nat, i: nat, env: Env, others: Others): seq<Step>
  {
    others.before(i) + [BeginAppend(w, env.ids(i), env.clock(i))] + others.during(i)
  }

  /** The call is before turn i: it has stored i copies, and its later ids are unused. */
  ghost predicate BeforeTurn(s: System, w: nat, matched: seq<Event>, batch: Batch, env: Env, i: nat)
  {
    && i < |matched| && w in s.writers && !s.writers[w].publishing && s.writers[w].inFlight.None?
    && |s.writers[w].todo| == |matched| - i
    && (forall j :: i <= j < |matched| ==> s.writers[w].todo[j - i] == Copied(matched[j], batch))
    && forall j :: i <= j ==> env.ids(j) !in s.issued
  }

  /** The statements other clients commit, as the engine's contract counts them, are those of the steps. */
  ghost predicate SameOthers(cfg: Config, s: System, w: nat, env: Env, others: Others, i: nat)
  {
    && AllOfOthers(others.before(i), w, env.ids) && AllOfOthers(others.during(i), w, env.ids)
    && env.before(i) == StatementsOf(cfg, s, others.before(i))
    && env.during(i) == StatementsOf(cfg, After(cfg, s, others.before(i) + [BeginAppend(w, env.ids(i), env.clock(i))]),
                                     others.during(i))
  }

  /** The statement of turn i waits: it has seen the table others left before, and meets what they left since. */
  ghost predicate Met(s: System, u: System, w: nat, env: Env, i: nat)
    requires w in s.writers && s.writers[w].todo != []
  {
    var snapped := Meanwhile(s.rows, env.before(i));
    && u.rows == Meanwhile(snapped, env.during(i)) && w in u.writers
    && u.writers[w] == s.writers[w].(
         inFlight := Some(InFlight(Realise(s.writers[w].todo[0], env.ids(i), env.clock(i)), |snapped|)))
    && forall j :: j != i && env.ids(j) !in s.issued && env.ids(j) != env.ids(i) ==> env.ids(j) !in u.issued
  }

  lemma BeginResult(cfg: Config, s: System, w: nat, id: string, now: Time)
    requires w in s.writers && s.writers[w].todo != [] && s.writers[w].inFlight.None? && id !in s.issued
    ensures Apply(cfg, s, BeginAppend(w, id, now)) ==
            s.(issued := s.issued + {id},
               writers := s.writers[w := s.writers[w].(
                 inFlight := Some(InFlight(Realise(s.writers[w].todo[0], id, now), |s.rows|)))])
  {}

  lemma TurnMeets(cfg: Config, s: System, w: nat, matched: seq<Event>, batch: Batch, env: Env, others: Others, i: nat)
    requires BeforeTurn(s, w, matched, batch, env, i) && SameOthers(cfg, s, w, env, others, i)
    ensures Met(s, After(cfg, s, MeetSteps(w, i, env, others)), w, env, i)
  {
    var begin := BeginAppend(w, env.ids(i), env.clock(i));
    var quiet := After(cfg, s, others.before(i));
    OthersLeave(cfg, s, others.before(i), w, env.ids);
    RunIsStatements(cfg, s, others.before(i));
    BeginResult(cfg, quiet, w, env.ids(i), env.clock(i));
    AfterSnoc(cfg, s, others.before(i), begin);
    var begun := After(cfg, s, others.before(i) + [begin]);
    OthersLeave(cfg, begun, others.during(i), w, env.ids);
    RunIsStatements(cfg, begun, others.during(i));
    RunsCompose(cfg, s, others.before(i) + [begin], others.during(i));
  }

  /** On a table with this row next, the version of a copy is forced. */
  lemma CopyForced(met: seq<Event>, after: seq<Event>, orig: Event, batch: Batch, id: string, now: Time)
    requires GapFree(after) && met <= after && |met| < |after| && IsCopy(after[|met|], orig, batch, id, now)
    ensures after[|met|] == ReplayCopy(orig, batch, id, now).(version := |StreamRows(met, orig.streamId)| + 1)
  {
    assert Numbered(after, |met|) && after[..|met|] == met;
  }

  /** How the statement of turn i ends: in the machine exactly as in the engine's contract. */
  function LastStep(w: nat, fault: Fault): Step
  {
    match fault
    case NoFault => CommitAppend(w)
    case ReplyLost => LoseReply(w)
    case NeverRan => Abandon(w)
  }

  /** The waiting statement inserts its copy unless it was overtaken. */
  lemma MetAttempt(cfg: Config, u: System, w: nat, snap: nat, orig: Event, batch: Batch, id: string, now: Time)
    requires Inv(cfg, u) && w in u.writers && !u.writers[w].publishing
    requires u.writers[w].inFlight == Some(InFlight(ReplayCopy(orig, batch, id, now), snap)) && u.writers[w].todo != []
    ensures CanCommit(u, w)
    ensures if Overtaken(u.rows, snap, orig.streamId) then Attempted(u, w).Collision?
            else Attempted(u, w) ==
                 Inserted(ReplayCopy(orig, batch, id, now).(version := |StreamRows(u.rows, orig.streamId)| + 1))
  {
    assert WriterOk(u.rows, u.issued, u.writers[w]);
    CommitCharacterised(u.rows, snap, ReplayCopy(orig, batch, id, now));
  }

  lemma EndResult(cfg: Config, u: System, w: nat, fault: Fault)
    requires CanCommit(u, w) && !Attempted(u, w).Existing?
    ensures Apply(cfg, u, LastStep(w, fault)).rows ==
            if fault != NeverRan && Attempted(u, w).Inserted? then u.rows + [Attempted(u, w).row] else u.rows
    ensures fault == NoFault && Attempted(u, w).Inserted? ==>
              Apply(cfg, u, LastStep(w, fault)) ==
              u.(rows := u.rows + [Attempted(u, w).row],
                 writers := u.writers[w := OneStored(u.writers[w], Attempted(u, w).row)])
  {}

  // ----- The loop -----

  /** The first `i` turns, each acknowledged. */
  ghost function LoopSteps(w: nat, i: nat, env: Env, others: Others): seq<Step>
  {
    if i == 0 then [] else LoopSteps(w, i - 1, env, others) + MeetSteps(w, i - 1, env, others) + [CommitAppend(w)]
  }

  /** The loop up to and including a last turn, which ends as its fault says. */
  ghost function RunSteps(w: nat, last: nat, env: Env, others: Others): seq<Step>
  {
    LoopSteps(w, last, env, others) + MeetSteps(w, last, env, others) + [LastStep(w, env.faults(last))]
  }

  ghost predicate SameOthersUpTo(cfg: Config, s: System, w: nat, env: Env, others: Others, n: nat)
  {
    forall i :: 0 <= i < n ==> SameOthers(cfg, After(cfg, s, LoopSteps(w, i, env, others)), w, env, others, i)
  }

  /** The waiting statement of a turn, and what it meets, from the engine's contract. */
  ghost predicate Waits(u: System, w: nat, orig: Event, batch: Batch, env: Env, i: nat, turn: Turn)
  {
    && u.rows == turn.met && w in u.writers && !u.writers[w].publishing && u.writers[w].todo != []
    && u.writers[w].inFlight == Some(InFlight(ReplayCopy(orig, batch, env.ids(i), env.clock(i)), turn.snap))
  }

  lemma TurnWaits(cfg: Config, s: System, w: nat, matched: seq<Event>, batch: Batch, env: Env, others: Others, i: nat,
                  turn: Turn)
    requires BeforeTurn(s, w, matched, batch, env, i) && SameOthers(cfg, s, w, env, others, i)
    requires Meets(s.rows, turn, env.before(i), env.during(i))
    ensures Waits(After(cfg, s, MeetSteps(w, i, env, others)), w, matched[i], batch, env, i, turn)
  {
    TurnMeets(cfg, s, w, matched, batch, env, others, i);
    assert s.writers[w].todo[0] == Copied(matched[i], batch);
  }

  /** However the turn ends, the table is as the engine's contract says. */
  lemma TurnEnds(cfg: Config, u: System, w: nat, orig: Event, batch: Batch, env: Env, i: nat, turn: Turn,
                 after: seq<Event>)
    requires Inv(cfg, u) && Waits(u, w, orig, batch, env, i, turn) && turn.snap <= |turn.met|
    requires Valid(after) && turn.met <= after
    requires var lands := Lands(turn.met, turn.snap, orig.streamId, env.faults(i));
             lands ==> |turn.met| < |after| && IsCopy(after[|turn.met|], orig, batch, env.ids(i), env.clock(i))
    ensures var t := Apply(cfg, u, LastStep(w, env.faults(i)));
            if Lands(turn.met, turn.snap, orig.streamId, env.faults(i))
            then t.rows == turn.met + [after[|turn.met|]] else t.rows == turn.met
    ensures env.faults(i) == NoFault && Lands(turn.met, turn.snap, orig.streamId, env.faults(i)) ==>
              Apply(cfg, u, CommitAppend(w)) ==
              u.(rows := u.rows + [after[|turn.met|]],
                 writers := u.writers[w := OneStored(u.writers[w], after[|turn.met|])])
  {
    MetAttempt(cfg, u, w, turn.snap, orig, batch, env.ids(i), env.clock(i));
    EndResult(cfg, u, w, env.faults(i));
    if Lands(turn.met, turn.snap, orig.streamId, env.faults(i)) {
      CopyForced(turn.met, after, orig, batch, env.ids(i), env.clock(i));
    }
  }

  /** After an acknowledged turn the call is before the next one. */
  lemma TurnDone(s: System, u: System, t: System, w: nat, matched: seq<Event>, batch: Batch, env: Env, i: nat,
                 row: Event)
    requires BeforeTurn(s, w, matched, batch, env, i) && i + 1 < |matched| && Met(s, u, w, env, i)
    requires t == u.(rows := u.rows + [row], writers := u.writers[w := OneStored(u.writers[w], row)])
    requires forall j, k :: j != k ==> env.ids(j) != env.ids(k)
    ensures BeforeTurn(t, w, matched, batch, env, i + 1)
  {
    forall j | i + 1 <= j < |matched| ensures t.writers[w].todo[j - (i + 1)] == Copied(matched[j], batch) {
      assert s.writers[w].todo[1..][j - (i + 1)] == s.writers[w].todo[j - i];
    }
  }

  /** What turn i starts from. */
  ghost function StartTable(rows: seq<Event>, after: seq<Event>, turns: seq<Turn>, i: nat): seq<Event>
    requires i < |turns| && (i > 0 ==> |turns[i - 1].met| < |after|)
  {
    if i == 0 then rows else turns[i - 1].met + [after[|turns[i - 1].met|]]
  }

  lemma StartsAgree(rows: seq<Event>, after: seq<Event>, matched: seq<Event>, turns: seq<Turn>, env: Env, batch: Batch,
                    i: nat)
    requires BatchRan(rows, after, matched, turns, env, batch) && i < |turns|
    ensures i > 0 ==> |turns[i - 1].met| < |after|
    ensures StartTable(rows, after, turns, i) == StartOf(rows, turns, i)
  {
    TurnTimes(rows, after, matched, turns, env, batch);
    if i > 0 {
      var m := |turns[i - 1].met|;
      assert turns[i - 1].met == after[..m] && turns[i].met[..m + 1] == after[..m + 1];
    }
  }

  lemma TurnFacts(rows: seq<Event>, after: seq<Event>, matched: seq<Event>, turns: seq<Turn>, env: Env, batch: Batch,
                  i: nat)
    requires BatchRan(rows, after, matched, turns, env, batch) && Timed(rows, after, matched, turns, env) && i < |turns|
    ensures turns[i].snap <= |turns[i].met| && turns[i].met <= after
    ensures Lands(turns[i].met, turns[i].snap, matched[i].streamId, env.faults(i)) ==>
              |turns[i].met| < |after| && IsCopy(after[|turns[i].met|], matched[i], batch, env.ids(i), env.clock(i))
    ensures i < |turns| - 1 ==>
              env.faults(i) == NoFault && Lands(turns[i].met, turns[i].snap, matched[i].streamId, env.faults(i))
    ensures Meets(StartOf(rows, turns, i), turns[i], env.before(i), env.during(i))
  {
    assert TurnRan(rows, after, matched, turns, env, batch, i) && TurnTimed(rows, turns, env, i);
    assert i < |turns| - 1 ==> TurnAcked(matched, turns, env, i);
  }

  /** Before turn i the machine's table is the one the engine's contract gives. */
  lemma {:induction false} LoopReaches(cfg: Config, s: System, w: nat, after: seq<Event>, matched: seq<Event>,
                                       turns: seq<Turn>, env: Env, batch: Batch, others: Others, i: nat)
    returns (t: System)
    requires Inv(cfg, s) && matched != [] && BeforeTurn(s, w, matched, batch, env, 0)
    requires FreshIds(env, s.rows) && Valid(after) && i < |turns|
    requires BatchRan(s.rows, after, matched, turns, env, batch) && Timed(s.rows, after, matched, turns, env)
    requires SameOthersUpTo(cfg, s, w, env, others, |turns|)
    ensures t == After(cfg, s, LoopSteps(w, i, env, others))
    ensures BeforeTurn(t, w, matched, batch, env, i) && (i > 0 ==> |turns[i - 1].met| < |after|)
    ensures t.rows == StartTable(s.rows, after, turns, i)
  {
    if i == 0 {
      t := s;
    } else {
      var before := LoopReaches(cfg, s, w, after, matched, turns, env, batch, others, i - 1);
      t := LoopGoesOn(cfg, s, before, w, after, matched, turns, env, batch, others, i);
    }
  }

  /** From before turn i - 1 to before turn i of the loop. */
  lemma LoopGoesOn(cfg: Config, s: System, before: System, w: nat, after: seq<Event>, matched: seq<Event>,
                   turns: seq<Turn>, env: Env, batch: Batch, others: Others, i: nat) returns (t: System)
    requires Inv(cfg, s) && FreshIds(env, s.rows) && Valid(after) && 0 < i < |turns|
    requires BatchRan(s.rows, after, matched, turns, env, batch) && Timed(s.rows, after, matched, turns, env)
    requires before == After(cfg, s, LoopSteps(w, i - 1, env, others))
    requires BeforeTurn(before, w, matched, batch, env, i - 1) && SameOthers(cfg, before, w, env, others, i - 1)
    requires (i > 1 ==> |turns[i - 2].met| < |after|) && before.rows == StartTable(s.rows, after, turns, i - 1)
    ensures t == After(cfg, s, LoopSteps(w, i, env, others))
    ensures BeforeTurn(t, w, matched, batch, env, i) && |turns[i - 1].met| < |after|
    ensures t.rows == StartTable(s.rows, after, turns, i)
  {
    RunsKeepInv(cfg, s, LoopSteps(w, i - 1, env, others));
    LoopUnfolds(cfg, s, w, i - 1, env, others);
    FromTurnToTurn(cfg, s.rows, before, w, after, matched, turns, env, batch, others, i - 1);
    t := After(cfg, s, LoopSteps(w, i, env, others));
  }

  lemma LoopUnfolds(cfg: Config, s: System, w: nat, i: nat, env: Env, others: Others)
    ensures After(cfg, s, LoopSteps(w, i + 1, env, others)) ==
            Apply(cfg, After(cfg, After(cfg, s, LoopSteps(w, i, env, others)), MeetSteps(w, i, env, others)),
                  CommitAppend(w))
  {
    RunsCompose(cfg, s, LoopSteps(w, i, env, others), MeetSteps(w, i, env, others));
    AfterSnoc(cfg, s, LoopSteps(w, i, env, others) + MeetSteps(w, i, env, others), CommitAppend(w));
  }

  lemma FromTurnToTurn(cfg: Config, rows: seq<Event>, t: System, w: nat, after: seq<Event>, matched: seq<Event>,
                       turns: seq<Turn>, env: Env, batch: Batch, others: Others, i: nat)
    requires Inv(cfg, t) && FreshIds(env, rows) && Valid(after) && i + 1 < |turns|
    requires BatchRan(rows, after, matched, turns, env, batch) && Timed(rows, after, matched, turns, env)
    requires BeforeTurn(t, w, matched, batch, env, i) && SameOthers(cfg, t, w, env, others, i)
    requires (i > 0 ==> |turns[i - 1].met| < |after|) && t.rows == StartTable(rows, after, turns, i)
    ensures |turns[i].met| < |after|
    ensures var u := Apply(cfg, After(cfg, t, MeetSteps(w, i, env, others)), CommitAppend(w));
            u.rows == StartTable(rows, after, turns, i + 1) && BeforeTurn(u, w, matched, batch, env, i + 1)
  {
    StartsAgree(rows, after, matched, turns, env, batch, i);
    TurnFacts(rows, after, matched, turns, env, batch, i);
    OneTurnMore(cfg, t, w, after, matched, env, batch, others, i, turns[i]);
  }

  lemma OneTurnMore(cfg: Config, s: System, w: nat, after: seq<Event>, matched: seq<Event>, env: Env, batch: Batch,
                    others: Others, i: nat, turn: Turn)
    requires Inv(cfg, s) && BeforeTurn(s, w, matched, batch, env, i) && SameOthers(cfg, s, w, env, others, i)
    requires i + 1 < |matched| && Meets(s.rows, turn, env.before(i), env.during(i)) && turn.snap <= |turn.met|
    requires Valid(after) && turn.met <= after && env.faults(i) == NoFault
    requires Lands(turn.met, turn.snap, matched[i].streamId, env.faults(i))
    requires |turn.met| < |after| && IsCopy(after[|turn.met|], matched[i], batch, env.ids(i), env.clock(i))
    requires forall j, k :: j != k ==> env.ids(j) != env.ids(k)
    ensures var t := Apply(cfg, After(cfg, s, MeetSteps(w, i, env, others)), CommitAppend(w));
            t.rows == turn.met + [after[|turn.met|]] && BeforeTurn(t, w, matched, batch, env, i + 1)
  {
    var u := After(cfg, s, MeetSteps(w, i, env, others));
    RunsKeepInv(cfg, s, MeetSteps(w, i, env, others));
    TurnMeets(cfg, s, w, matched, batch, env, others, i);
    TurnWaits(cfg, s, w, matched, batch, env, others, i, turn);
    TurnEnds(cfg, u, w, matched[i], batch, env, i, turn, after);
    TurnDone(s, u, Apply(cfg, u, CommitAppend(w)), w, matched, batch, env, i, after[|turn.met|]);
  }

  /**
   * Main result. Among any steps of other calls, of the broker and of the consumer: the table that the
   * engine's append loop leaves, by its contract, is the table that the platform's run leaves in which one
   * call takes the same turns, interleaved with those steps, and ends as its last append did.
   */
  lemma {:induction false} LoopIsRunAmongOthers(cfg: Config, s: System, w: nat, after: seq<Event>, matched: seq<Event>,
                                                turns: seq<Turn>, env: Env, batch: Batch, others: Others)
    requires Inv(cfg, s) && matched != [] && BeforeTurn(s, w, matched, batch, env, 0)
    requires FreshIds(env, s.rows) && Valid(after) && turns != []
    requires BatchRan(s.rows, after, matched, turns, env, batch) && Timed(s.rows, after, matched, turns, env)
    requires SameOthersUpTo(cfg, s, w, env, others, |turns|)
    ensures After(cfg, s, RunSteps(w, |turns| - 1, env, others)).rows == after
  {
    var n := |turns| - 1;
    var loop := LoopSteps(w, n, env, others);
    var t := LoopReaches(cfg, s, w, after, matched, turns, env, batch, others, n);
    RunsKeepInv(cfg, s, loop);
    StartsAgree(s.rows, after, matched, turns, env, batch, n);
    TurnFacts(s.rows, after, matched, turns, env, batch, n);
    RunsCompose(cfg, s, loop, MeetSteps(w, n, env, others));
    AfterSnoc(cfg, s, loop + MeetSteps(w, n, env, others), LastStep(w, env.faults(n)));
    LastTurn(cfg, t, w, after, matched, env, batch, others, n, turns[n]);
  }

  lemma LastTurn(cfg: Config, s: System, w: nat, after: seq<Event>, matched: seq<Event>, env: Env, batch: Batch,
                 others: Others, i: nat, turn: Turn)
    requires Inv(cfg, s) && BeforeTurn(s, w, matched, batch, env, i) && SameOthers(cfg, s, w, env, others, i)
    requires Meets(s.rows, turn, env.before(i), env.during(i)) && turn.snap <= |turn.met|
    requires Valid(after) && turn.met <= after
    requires if Lands(turn.met, turn.snap, matched[i].streamId, env.faults(i))
             then |after| == |turn.met| + 1 && IsCopy(after[|turn.met|], matched[i], batch, env.ids(i), env.clock(i))
             else |after| == |turn.met|
    ensures Apply(cfg, After(cfg, s, MeetSteps(w, i, env, others)), LastStep(w, env.faults(i))).rows == after
  {
    var u := After(cfg, s, MeetSteps(w, i, env, others));
    RunsKeepInv(cfg, s, MeetSteps(w, i, env, others));
    TurnWaits(cfg, s, w, matched, batch, env, others, i, turn);
    TurnEnds(cfg, u, w, matched[i], batch, env, i, turn, after);
    WholeOrNext(turn.met, after);
  }

  lemma WholeOrNext(met: seq<Event>, after: seq<Event>)
    requires met <= after
    ensures |after| == |met| ==> after == met
    ensures |after| == |met| + 1 ==> after == met + [after[|met|]]
  {}
}
