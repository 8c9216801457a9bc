/**
 * The append loop of ReplayEngine.Execute (internal/application/replay/service.go) among other clients:
 * what it leaves in the table, turn by turn, while others commit before and during each of its appends.
 */
module ReplayBatch {
  import opened Collections
  import opened Events
  import opened Postgres
  import opened Versions
  import opened Writers

  /**
   * The values one call draws from its surroundings, the fate of its i-th append and publish, and the
   * statements other clients commit before its i-th append takes its snapshot and while it runs.
   */
  datatype Env = Env(
    queryUp: bool, replayId: string, startedAt: Time,
    ids: nat -> string, clock: nat -> Time, spans: nat -> string,
    faults: nat -> Fault, written: nat -> bool, acked: nat -> bool,
    before: nat -> seq<Statement>, during: nat -> seq<Statement>)

  /** Row `c` is the copy of `orig`, whatever its version. */
  predicate IsCopy(c: Event, orig: Event, batch: Batch, id: string, now: Time)
  {
    c == ReplayCopy(orig, batch, id, now).(version := c.version)
  }

  /** Another client inserts an event with this id at some time during the call. */
  ghost predicate ByOthers(env: Env, id: string)
  {
    exists i :: id in StatementIds(env.before(i)) || id in StatementIds(env.during(i))
  }

  ghost predicate FreshIds(env: Env, rows: seq<Event>)
  {
    && (forall i :: env.ids(i) !in RowIds(rows) && !ByOthers(env, env.ids(i)))
    && (forall i, j :: i != j ==> env.ids(i) != env.ids(j))
  }

  // ----- One batch of appends, read off the table it leaves -----

  /** One turn of the append loop: its snapshot saw `met[..snap]`, its statement met the table `met`. */
  datatype Turn = Turn(snap: nat, met: seq<Event>)

  predicate TurnLands(matched: seq<Event>, turns: seq<Turn>, env: Env, i: nat)
    requires i < |turns| <= |matched|
  {
    turns[i].snap <= |turns[i].met| && Lands(turns[i].met, turns[i].snap, matched[i].streamId, env.faults(i))
  }

  predicate TurnAcked(matched: seq<Event>, turns: seq<Turn>, env: Env, i: nat)
    requires i < |turns| <= |matched|
  {
    env.faults(i) == NoFault && TurnLands(matched, turns, env, i)
  }

  /** What turn i did: if its statement landed, the row after those it met is the copy of match i. */
  ghost predicate TurnRan(rows: seq<Event>, after: seq<Event>, matched: seq<Event>, turns: seq<Turn>, env: Env,
                          batch: Batch, i: nat)
    requires i < |turns| <= |matched|
  {
    var t := turns[i];
    && |rows| <= t.snap <= |t.met| && rows <= t.met <= after
    && (TurnLands(matched, turns, env, i) ==>
          |t.met| < |after| && IsCopy(after[|t.met|], matched[i], batch, env.ids(i), env.clock(i)))
  }

  /** Row `k` is the copy that turn i left. */
  ghost predicate CopyAt(matched: seq<Event>, turns: seq<Turn>, env: Env, i: nat, k: nat)
  {
    i < |turns| <= |matched| && |turns[i].met| == k && TurnLands(matched, turns, env, i)
  }

  ghost predicate TurnsRan(rows: seq<Event>, after: seq<Event>, matched: seq<Event>, turns: seq<Turn>, env: Env,
                           batch: Batch)
    requires |turns| <= |matched|
  {
    forall i :: 0 <= i < |turns| ==> TurnRan(rows, after, matched, turns, env, batch, i)
  }

  /** One turn after the other, going on only after an acknowledged one. */
  ghost predicate TurnsFollow(matched: seq<Event>, turns: seq<Turn>, env: Env)
    requires |turns| <= |matched|
  {
    && (forall i :: 0 <= i < |turns| - 1 ==> TurnAcked(matched, turns, env, i))
    && (forall i, j :: 0 <= i < j < |turns| ==> |turns[i].met| < turns[j].snap)
  }

  /** Every new row is a copy some turn left, or another client's. */
  ghost predicate RowsExplained(rows: seq<Event>, after: seq<Event>, matched: seq<Event>, turns: seq<Turn>, env: Env)
  {
    forall k :: |rows| <= k < |after| ==> ByOthers(env, after[k].id) || exists i :: CopyAt(matched, turns, env, i, k)
  }

  /** What the append loop did to the table, turn by turn and row by row. */
  ghost predicate BatchRan(rows: seq<Event>, after: seq<Event>, matched: seq<Event>, turns: seq<Turn>, env: Env,
                           batch: Batch)
  {
    && |turns| <= |matched| && rows <= after
    && TurnsRan(rows, after, matched, turns, env, batch)
    && TurnsFollow(matched, turns, env)
    && RowsExplained(rows, after, matched, turns, env)
  }

  /** From the table `start`, others committed `before`, then the snapshot was taken, then they committed `during`. */
  ghost predicate Meets(start: seq<Event>, t: Turn, before: seq<Statement>, during: seq<Statement>)
  {
    t == Turn(|Meanwhile(start, before)|, Meanwhile(Meanwhile(start, before), during))
  }

  /** The table the turn before turn i left: what that one met and its copy. */
  function StartOf(rows: seq<Event>, turns: seq<Turn>, i: nat): seq<Event>
    requires i < |turns|
  {
    if i == 0 then rows else turns[i].met[..Min(|turns[i].met|, |turns[i - 1].met| + 1)]
  }

  /** What turn i met, exactly. */
  ghost predicate TurnTimed(rows: seq<Event>, turns: seq<Turn>, env: Env, i: nat)
    requires i < |turns|
  {
    Meets(StartOf(rows, turns, i), turns[i], env.before(i), env.during(i))
  }

  /** The turns met just what others did meanwhile, and the last of them left the table as it is. */
  ghost predicate Timed(rows: seq<Event>, after: seq<Event>, matched: seq<Event>, turns: seq<Turn>, env: Env)
  {
    && |turns| <= |matched|
    && (forall i :: 0 <= i < |turns| ==> TurnTimed(rows, turns, env, i))
    && if turns == [] then after == rows else
       var n := |turns| - 1;
       turns[n].met <= after && |after| == |turns[n].met| + if TurnLands(matched, turns, env, n) then 1 else 0
  }

  /** Every match was copied and acknowledged. */
  ghost predicate AllAcked(matched: seq<Event>, turns: seq<Turn>, env: Env)
  {
    |turns| == |matched| && forall i :: 0 <= i < |turns| ==> TurnAcked(matched, turns, env, i)
  }

  /** The call stopped at an append that failed, was overtaken, or lost its reply. */
  ghost predicate StoppedShort(matched: seq<Event>, turns: seq<Turn>, env: Env)
  {
    0 < |turns| <= |matched| && !TurnAcked(matched, turns, env, |turns| - 1)
  }

  /** `replayed` lists the rows the acknowledged turns left. */
  ghost predicate ListsCopies(after: seq<Event>, turns: seq<Turn>, replayed: seq<Event>)
  {
    |replayed| == |turns| && forall i :: 0 <= i < |turns| ==> turns[i].met + [replayed[i]] <= after
  }

  // ----- The loop, step by step -----

  /** The turns so far were all acknowledged, on a table of fewer than `now` rows. */
  ghost predicate AllBefore(matched: seq<Event>, turns: seq<Turn>, env: Env, now: nat)
    requires |turns| <= |matched|
  {
    forall j :: 0 <= j < |turns| ==> TurnAcked(matched, turns, env, j) && |turns[j].met| < now
  }

  ghost predicate IdsUnused(env: Env, now: seq<Event>, n: nat)
  {
    forall k :: n <= k ==> env.ids(k) !in RowIds(now)
  }

  /** The append loop before its next turn: every append so far was acknowledged. */
  ghost predicate Going(rows: seq<Event>, now: seq<Event>, matched: seq<Event>, turns: seq<Turn>, replayed: seq<Event>,
                        env: Env, batch: Batch)
  {
    && Valid(now) && FreshIds(env, rows)
    && BatchRan(rows, now, matched, turns, env, batch) && ListsCopies(now, turns, replayed)
    && AllBefore(matched, turns, env, |now|)
    && IdsUnused(env, now, |turns|)
  }

  /** Ids that have entered the table are others' or of the turns taken. */
  ghost predicate IdsFrom(start: seq<Event>, after: seq<Event>, env: Env, n: nat)
  {
    forall id :: id in RowIds(after) ==> id in RowIds(start) || ByOthers(env, id) || id == env.ids(n)
  }

  /** What the call has done so far still holds when other clients have added rows. */
  lemma OthersAdd(rows: seq<Event>, start: seq<Event>, after: seq<Event>, matched: seq<Event>, turns: seq<Turn>,
                  env: Env, batch: Batch)
    requires BatchRan(rows, start, matched, turns, env, batch) && start <= after
    requires forall r :: r in after[|start|..] ==> ByOthers(env, r.id)
    ensures BatchRan(rows, after, matched, turns, env, batch)
  {
    forall i | 0 <= i < |turns| ensures TurnRan(rows, after, matched, turns, env, batch, i) {
      assert TurnRan(rows, start, matched, turns, env, batch, i);
    }
    forall k | |rows| <= k < |after|
      ensures ByOthers(env, after[k].id) || exists i :: CopyAt(matched, turns, env, i, k)
    {
      if k < |start| {
        assert start[k] == after[k];
      } else {
        assert after[k] == after[|start|..][k - |start|];
      }
    }
  }

  lemma OthersMeanwhile(rows: seq<Event>, start: seq<Event>, stmts: seq<Statement>, matched: seq<Event>,
                        turns: seq<Turn>, env: Env, batch: Batch, n: nat)
    requires Valid(start) && BatchRan(rows, start, matched, turns, env, batch)
    requires stmts == env.before(n) || stmts == env.during(n)
    ensures start <= Meanwhile(start, stmts) && BatchRan(rows, Meanwhile(start, stmts), matched, turns, env, batch)
    ensures IdsFrom(start, Meanwhile(start, stmts), env, n)
  {
    MeanwhileFacts(start, stmts);
    var after := Meanwhile(start, stmts);
    assert forall r :: r in after[|start|..] ==> ByOthers(env, r.id);
    assert after == start + after[|start|..];
    OthersAdd(rows, start, after, matched, turns, env, batch);
  }

  /** The next turn took its snapshot at `|snapped|`; its statement met `met` and left `after`. */
  ghost predicate NextTurn(snapped: seq<Event>, met: seq<Event>, after: seq<Event>, matched: seq<Event>, env: Env,
                           batch: Batch, n: nat)
    requires n < |matched|
  {
    && snapped <= met <= after
    && if Lands(met, |snapped|, matched[n].streamId, env.faults(n))
       then |after| == |met| + 1 && IsCopy(after[|met|], matched[n], batch, env.ids(n), env.clock(n))
       else after == met
  }

  lemma TurnAdded(rows: seq<Event>, snapped: seq<Event>, met: seq<Event>, after: seq<Event>, matched: seq<Event>,
                  turns: seq<Turn>, env: Env, batch: Batch)
    requires |turns| < |matched| && rows <= snapped && NextTurn(snapped, met, after, matched, env, batch, |turns|)
    requires TurnsRan(rows, met, matched, turns, env, batch)
    ensures TurnsRan(rows, after, matched, turns + [Turn(|snapped|, met)], env, batch)
  {
    var n, more := |turns|, turns + [Turn(|snapped|, met)];
    forall i | 0 <= i < |more| ensures TurnRan(rows, after, matched, more, env, batch, i) {
      if i < n {
        assert TurnRan(rows, met, matched, turns, env, batch, i);
      }
    }
  }

  lemma TurnFollows(matched: seq<Event>, turns: seq<Turn>, env: Env, turn: Turn)
    requires |turns| < |matched| && TurnsFollow(matched, turns, env)
    requires AllBefore(matched, turns, env, turn.snap)
    ensures TurnsFollow(matched, turns + [turn], env)
  {
    forall i | 0 <= i < |turns| ensures TurnAcked(matched, turns + [turn], env, i) {
      assert TurnAcked(matched, turns, env, i);
    }
  }

  lemma TurnExplains(rows: seq<Event>, snapped: seq<Event>, met: seq<Event>, after: seq<Event>, matched: seq<Event>,
                     turns: seq<Turn>, env: Env, batch: Batch)
    requires |turns| < |matched| && NextTurn(snapped, met, after, matched, env, batch, |turns|)
    requires RowsExplained(rows, met, matched, turns, env)
    ensures RowsExplained(rows, after, matched, turns + [Turn(|snapped|, met)], env)
  {
    var more := turns + [Turn(|snapped|, met)];
    forall k | |rows| <= k < |after|
      ensures ByOthers(env, after[k].id) || exists i :: CopyAt(matched, more, env, i, k)
    {
      if k == |met| {
        assert CopyAt(matched, more, env, |turns|, k);
      } else if !ByOthers(env, met[k].id) {
        var i :| CopyAt(matched, turns, env, i, k);
        assert CopyAt(matched, more, env, i, k);
      }
    }
  }

  /** The next turn: `met` is what its statement met, after others had committed. */
  lemma TurnTaken(rows: seq<Event>, snapped: seq<Event>, met: seq<Event>, after: seq<Event>, matched: seq<Event>,
                  turns: seq<Turn>, env: Env, batch: Batch)
    requires |turns| < |matched| && BatchRan(rows, met, matched, turns, env, batch)
    requires AllBefore(matched, turns, env, |snapped|)
    requires rows <= snapped && NextTurn(snapped, met, after, matched, env, batch, |turns|)
    ensures BatchRan(rows, after, matched, turns + [Turn(|snapped|, met)], env, batch)
  {
    TurnAdded(rows, snapped, met, after, matched, turns, env, batch);
    TurnFollows(matched, turns, env, Turn(|snapped|, met));
    TurnExplains(rows, snapped, met, after, matched, turns, env, batch);
  }

  lemma TurnIds(snapped: seq<Event>, met: seq<Event>, after: seq<Event>, matched: seq<Event>, env: Env, batch: Batch,
                n: nat)
    requires n < |matched| && IdsFrom(snapped, met, env, n) && NextTurn(snapped, met, after, matched, env, batch, n)
    ensures IdsFrom(snapped, after, env, n)
  {
    assert |met| < |after| ==> after == met + [after[|met|]];
  }

  lemma NextTurnTaken(rows: seq<Event>, snapped: seq<Event>, after: seq<Event>, matched: seq<Event>,
                      turns: seq<Turn>, env: Env, batch: Batch)
    requires |turns| < |matched| && Valid(snapped) && BatchRan(rows, snapped, matched, turns, env, batch)
    requires AllBefore(matched, turns, env, |snapped|)
    requires NextTurn(snapped, Meanwhile(snapped, env.during(|turns|)), after, matched, env, batch, |turns|)
    ensures BatchRan(rows, after, matched, turns + [Turn(|snapped|, Meanwhile(snapped, env.during(|turns|)))], env,
                     batch)
    ensures IdsFrom(snapped, after, env, |turns|)
  {
    var n, met := |turns|, Meanwhile(snapped, env.during(|turns|));
    OthersMeanwhile(rows, snapped, env.during(n), matched, turns, env, batch, n);
    TurnTaken(rows, snapped, met, after, matched, turns, env, batch);
    TurnIds(snapped, met, after, matched, env, batch, n);
  }

  lemma TurnStarts(rows: seq<Event>, start: seq<Event>, matched: seq<Event>, turns: seq<Turn>, replayed: seq<Event>,
                   env: Env, batch: Batch)
    requires Going(rows, start, matched, turns, replayed, env, batch)
    ensures Going(rows, Meanwhile(start, env.before(|turns|)), matched, turns, replayed, env, batch)
    ensures !ByOthers(env, env.ids(|turns|))
  {
    MeanwhileFacts(start, env.before(|turns|));
    OthersMeanwhile(rows, start, env.before(|turns|), matched, turns, env, batch, |turns|);
  }

  lemma MoreAcked(matched: seq<Event>, turns: seq<Turn>, env: Env, turn: Turn, now: nat, later: nat)
    requires |turns| < |matched| && now <= |turn.met| < later
    requires AllBefore(matched, turns, env, now)
    requires TurnAcked(matched, turns + [turn], env, |turns|)
    ensures AllBefore(matched, turns + [turn], env, later)
  {
    forall j | 0 <= j < |turns| ensures TurnAcked(matched, turns + [turn], env, j) {
      assert TurnAcked(matched, turns, env, j);
    }
  }

  lemma MoreCopies(snapped: seq<Event>, met: seq<Event>, turns: seq<Turn>, replayed: seq<Event>, turn: Turn, row: Event)
    requires ListsCopies(snapped, turns, replayed) && snapped <= met && turn.met == met
    ensures ListsCopies(met + [row], turns + [turn], replayed + [row])
  {}

  lemma MoreIdsUsed(rows: seq<Event>, snapped: seq<Event>, after: seq<Event>, env: Env, n: nat)
    requires FreshIds(env, rows) && IdsUnused(env, snapped, n) && IdsFrom(snapped, after, env, n)
    ensures IdsUnused(env, after, n + 1)
  {}

  lemma GoesOn(rows: seq<Event>, snapped: seq<Event>, met: seq<Event>, matched: seq<Event>, turns: seq<Turn>,
               replayed: seq<Event>, row: Event, env: Env, batch: Batch)
    requires Going(rows, snapped, matched, turns, replayed, env, batch) && |turns| < |matched|
    requires Valid(met + [row]) && snapped <= met
    requires env.faults(|turns|) == NoFault && !Overtaken(met, |snapped|, matched[|turns|].streamId)
    requires BatchRan(rows, met + [row], matched, turns + [Turn(|snapped|, met)], env, batch)
    requires IdsFrom(snapped, met + [row], env, |turns|)
    ensures Going(rows, met + [row], matched, turns + [Turn(|snapped|, met)], replayed + [row], env, batch)
  {
    var turn := Turn(|snapped|, met);
    MoreAcked(matched, turns, env, turn, |snapped|, |met| + 1);
    MoreCopies(snapped, met, turns, replayed, turn, row);
    MoreIdsUsed(rows, snapped, met + [row], env, |turns|);
  }

  lemma StartOfPrefix(rows: seq<Event>, turns: seq<Turn>, turn: Turn, i: nat)
    requires i < |turns|
    ensures (turns + [turn])[i] == turns[i] && StartOf(rows, turns + [turn], i) == StartOf(rows, turns, i)
  {}

  lemma StartOfLast(rows: seq<Event>, start: seq<Event>, turns: seq<Turn>, turn: Turn)
    requires start <= turn.met
    requires if turns == [] then start == rows else |start| == |turns[|turns| - 1].met| + 1
    ensures StartOf(rows, turns + [turn], |turns|) == start
  {}

  lemma TimedSnoc(rows: seq<Event>, start: seq<Event>, after: seq<Event>, matched: seq<Event>, turns: seq<Turn>,
                  env: Env, batch: Batch, snapped: seq<Event>, met: seq<Event>)
    requires |turns| < |matched| && Timed(rows, start, matched, turns, env)
    requires turns != [] ==> TurnAcked(matched, turns, env, |turns| - 1)
    requires Meets(start, Turn(|snapped|, met), env.before(|turns|), env.during(|turns|))
    requires start <= snapped && NextTurn(snapped, met, after, matched, env, batch, |turns|)
    ensures Timed(rows, after, matched, turns + [Turn(|snapped|, met)], env)
  {
    var turn := Turn(|snapped|, met);
    StartOfLast(rows, start, turns, turn);
    forall i | 0 <= i < |turns| ensures TurnTimed(rows, turns + [turn], env, i) {
      assert TurnTimed(rows, turns, env, i);
      StartOfPrefix(rows, turns, turn, i);
    }
  }

  // ----- What a batch leaves -----

  /** Drawn by this call. */
  ghost function Own(env: Env): Event -> bool
  {
    (e: Event) => !ByOthers(env, e.id)
  }

  /** The rows left by the first `m` turns. */
  function Copies(after: seq<Event>, turns: seq<Turn>, m: nat): (r: seq<Event>)
    requires m <= |turns| && forall i :: 0 <= i < m ==> |turns[i].met| < |after|
    ensures |r| == m && forall i :: 0 <= i < m ==> r[i] == after[|turns[i].met|]
  {
    seq(m, i requires 0 <= i < m => after[|turns[i].met|])
  }

  /** The turns whose statements landed: all, or all but the last. */
  function Landed(matched: seq<Event>, turns: seq<Turn>, env: Env): (m: nat)
    requires |turns| <= |matched|
    ensures m <= |turns|
  {
    var n := |turns|;
    if n == 0 || TurnLands(matched, turns, env, n - 1) then n else n - 1
  }

  lemma LandedFits(rows: seq<Event>, after: seq<Event>, matched: seq<Event>, turns: seq<Turn>, env: Env, batch: Batch)
    requires BatchRan(rows, after, matched, turns, env, batch)
    ensures forall i :: 0 <= i < Landed(matched, turns, env) ==>
              TurnLands(matched, turns, env, i) && |turns[i].met| < |after|
  {
    forall i | 0 <= i < Landed(matched, turns, env)
      ensures TurnLands(matched, turns, env, i) && |turns[i].met| < |after|
    {
      assert i < |turns| - 1 ==> TurnAcked(matched, turns, env, i);
      assert TurnRan(rows, after, matched, turns, env, batch, i);
    }
  }

  /** Without a copy among them, new rows are other clients'. */
  lemma GapIsOthers(rows: seq<Event>, after: seq<Event>, matched: seq<Event>, turns: seq<Turn>, env: Env,
                    from: nat, to: nat)
    requires RowsExplained(rows, after, matched, turns, env) && |rows| <= from <= to <= |after|
    requires forall i, k :: from <= k < to ==> !CopyAt(matched, turns, env, i, k)
    ensures Filter(after[from..to], Own(env)) == []
  {
    forall e | e in after[from..to] ensures !Own(env)(e) {
      var k :| from <= k < to && after[k] == e;
    }
    FilterNone(after[from..to], Own(env));
  }

  /** Snapshots and meetings of the turns, in the order they happened. */
  lemma TurnTimes(rows: seq<Event>, after: seq<Event>, matched: seq<Event>, turns: seq<Turn>, env: Env, batch: Batch)
    requires BatchRan(rows, after, matched, turns, env, batch)
    ensures forall i :: 0 <= i < |turns| ==>
              |rows| <= turns[i].snap <= |turns[i].met| <= |after| && rows <= turns[i].met <= after
    ensures forall i, j :: 0 <= i < j < |turns| ==> |turns[i].met| < |turns[j].met|
  {
    forall i | 0 <= i < |turns|
      ensures |rows| <= turns[i].snap <= |turns[i].met| <= |after| && rows <= turns[i].met <= after
    {
      assert TurnRan(rows, after, matched, turns, env, batch, i);
    }
  }

  /** The next copy after the first `m` is turn m's. */
  lemma NoCopyBetween(matched: seq<Event>, turns: seq<Turn>, env: Env, m: nat, from: nat, to: nat)
    requires m <= |turns| <= |matched| && TurnsFollow(matched, turns, env)
    requires forall i, j :: 0 <= i < j < |turns| ==> |turns[i].met| < |turns[j].met|
    requires m > 0 ==> |turns[m - 1].met| < from
    requires m < |turns| && TurnLands(matched, turns, env, m) ==> to <= |turns[m].met|
    ensures forall i, k :: from <= k < to ==> !CopyAt(matched, turns, env, i, k)
  {
    forall i: nat, k: nat | CopyAt(matched, turns, env, i, k) ensures !(from <= k < to) {
      if i > m {
        assert TurnAcked(matched, turns, env, m);
      } else if i < m {
        assert i < m - 1 ==> |turns[i].met| < |turns[m - 1].met|;
      }
    }
  }

  lemma NothingBeforeFirst(rows: seq<Event>, after: seq<Event>, matched: seq<Event>, turns: seq<Turn>, env: Env,
                           batch: Batch, end: nat)
    requires BatchRan(rows, after, matched, turns, env, batch) && |rows| <= end <= |after|
    requires turns != [] && TurnLands(matched, turns, env, 0) ==> end <= |turns[0].met|
    ensures Filter(after[|rows|..end], Own(env)) == []
  {
    TurnTimes(rows, after, matched, turns, env, batch);
    NoCopyBetween(matched, turns, env, 0, |rows|, end);
    GapIsOthers(rows, after, matched, turns, env, |rows|, end);
  }

  /** The first `m` turns landed, and the next copy, if there is one, comes no earlier than at `end`. */
  ghost predicate CopiesBefore(after: seq<Event>, matched: seq<Event>, turns: seq<Turn>, env: Env, m: nat, end: nat)
  {
    && m <= |turns| <= |matched| && end <= |after|
    && (forall i :: 0 <= i < m ==> TurnLands(matched, turns, env, i) && |turns[i].met| < |after|)
    && (m > 0 ==> |turns[m - 1].met| < end)
    && (m < |turns| && TurnLands(matched, turns, env, m) ==> end <= |turns[m].met|)
  }

  /** A first stretch of the table holds, of the call's own rows, the copies of the turns before it. */
  lemma {:induction false} OwnRowsBefore(rows: seq<Event>, after: seq<Event>, matched: seq<Event>, turns: seq<Turn>,
                                         env: Env, batch: Batch, m: nat, end: nat)
    requires BatchRan(rows, after, matched, turns, env, batch) && FreshIds(env, rows)
    requires |rows| <= end && CopiesBefore(after, matched, turns, env, m, end)
    ensures Filter(after[|rows|..end], Own(env)) == Copies(after, turns, m)
  {
    if m == 0 {
      NothingBeforeFirst(rows, after, matched, turns, env, batch, end);
    } else {
      BeforeLast(rows, after, matched, turns, env, batch, m);
      OwnRowsBefore(rows, after, matched, turns, env, batch, m - 1, |turns[m - 1].met|);
      OneMoreCopy(rows, after, matched, turns, env, batch, m - 1, end);
    }
  }

  lemma BeforeLast(rows: seq<Event>, after: seq<Event>, matched: seq<Event>, turns: seq<Turn>, env: Env, batch: Batch,
                   m: nat)
    requires BatchRan(rows, after, matched, turns, env, batch) && 0 < m <= |turns|
    requires forall i :: 0 <= i < m ==> TurnLands(matched, turns, env, i) && |turns[i].met| < |after|
    ensures |rows| <= |turns[m - 1].met| && CopiesBefore(after, matched, turns, env, m - 1, |turns[m - 1].met|)
  {
    TurnTimes(rows, after, matched, turns, env, batch);
  }

  lemma CopiesBeforeEnd(rows: seq<Event>, after: seq<Event>, matched: seq<Event>, turns: seq<Turn>, env: Env,
                        batch: Batch)
    requires BatchRan(rows, after, matched, turns, env, batch)
    ensures CopiesBefore(after, matched, turns, env, Landed(matched, turns, env), |after|)
  {
    LandedFits(rows, after, matched, turns, env, batch);
  }

  lemma CopiesBeforeTurn(rows: seq<Event>, after: seq<Event>, matched: seq<Event>, turns: seq<Turn>, env: Env,
                         batch: Batch, i: nat)
    requires BatchRan(rows, after, matched, turns, env, batch) && i < |turns|
    ensures |rows| <= |turns[i].met| && CopiesBefore(after, matched, turns, env, i, |turns[i].met|)
  {
    LandedFits(rows, after, matched, turns, env, batch);
    TurnTimes(rows, after, matched, turns, env, batch);
  }

  lemma OneMoreCopy(rows: seq<Event>, after: seq<Event>, matched: seq<Event>, turns: seq<Turn>, env: Env, batch: Batch,
                    i: nat, end: nat)
    requires BatchRan(rows, after, matched, turns, env, batch) && FreshIds(env, rows)
    requires i < |turns| && TurnLands(matched, turns, env, i) && |rows| <= |turns[i].met| < end <= |after|
    requires i + 1 < |turns| && TurnLands(matched, turns, env, i + 1) ==> end <= |turns[i + 1].met|
    requires forall j :: 0 <= j <= i ==> |turns[j].met| < |after|
    requires Filter(after[|rows|..|turns[i].met|], Own(env)) == Copies(after, turns, i)
    ensures Filter(after[|rows|..end], Own(env)) == Copies(after, turns, i + 1)
  {
    NothingBetween(rows, after, matched, turns, env, batch, i, end);
    CopyIsOwn(rows, after, matched, turns, env, batch, i);
    CopiesSnoc(after, turns, i, |rows|, end, Own(env));
  }

  lemma CopiesSnoc(after: seq<Event>, turns: seq<Turn>, i: nat, from: nat, end: nat, own: Event -> bool)
    requires i < |turns| && (forall j :: 0 <= j <= i ==> |turns[j].met| < |after|)
    requires var k := |turns[i].met|;
             && from <= k < end <= |after| && own(after[k]) && Filter(after[k + 1..end], own) == []
             && Filter(after[from..k], own) == Copies(after, turns, i)
    ensures Filter(after[from..end], own) == Copies(after, turns, i + 1)
  {
    FilterSlices(after, from, |turns[i].met|, end, own);
    OneMoreInCopies(after, turns, i);
  }

  lemma OneMoreInCopies(after: seq<Event>, turns: seq<Turn>, i: nat)
    requires i < |turns| && (forall j :: 0 <= j <= i ==> |turns[j].met| < |after|)
    ensures Copies(after, turns, i + 1) == Copies(after, turns, i) + [after[|turns[i].met|]]
  {}

  lemma NothingBetween(rows: seq<Event>, after: seq<Event>, matched: seq<Event>, turns: seq<Turn>, env: Env,
                       batch: Batch, i: nat, end: nat)
    requires BatchRan(rows, after, matched, turns, env, batch)
    requires i < |turns| && |rows| <= |turns[i].met| < end <= |after|
    requires i + 1 < |turns| && TurnLands(matched, turns, env, i + 1) ==> end <= |turns[i + 1].met|
    ensures Filter(after[|turns[i].met| + 1..end], Own(env)) == []
  {
    TurnTimes(rows, after, matched, turns, env, batch);
    NoCopyBetween(matched, turns, env, i + 1, |turns[i].met| + 1, end);
    GapIsOthers(rows, after, matched, turns, env, |turns[i].met| + 1, end);
  }

  lemma CopyIsOwn(rows: seq<Event>, after: seq<Event>, matched: seq<Event>, turns: seq<Turn>, env: Env, batch: Batch,
                  i: nat)
    requires BatchRan(rows, after, matched, turns, env, batch) && FreshIds(env, rows)
    requires i < |turns| && TurnLands(matched, turns, env, i)
    ensures |turns[i].met| < |after| && Own(env)(after[|turns[i].met|])
  {
    assert TurnRan(rows, after, matched, turns, env, batch, i);
    assert after[|turns[i].met|].id == env.ids(i);
  }

  /**
   * Main result. However other clients interleave, the call's own rows are copies of the first
   * matches, in matched order, with rising versions in every stream: of all of them if every append
   * was acknowledged, and otherwise of those before the failed one, plus that one if only its reply
   * was lost.
   */
  lemma {:induction false} BatchLeaves(rows: seq<Event>, after: seq<Event>, matched: seq<Event>, turns: seq<Turn>,
                                       env: Env, batch: Batch)
    returns (copies: seq<Event>)
    requires BatchRan(rows, after, matched, turns, env, batch) && FreshIds(env, rows) && Valid(after)
    ensures copies == Filter(after[|rows|..], Own(env)) && |copies| == Landed(matched, turns, env)
    ensures forall i :: 0 <= i < |copies| ==> IsCopy(copies[i], matched[i], batch, env.ids(i), env.clock(i))
    ensures forall i, j :: 0 <= i < j < |copies| && copies[i].streamId == copies[j].streamId ==>
              copies[i].version < copies[j].version
    ensures AllAcked(matched, turns, env) ==> |copies| == |matched|
  {
    var m := Landed(matched, turns, env);
    LandedFits(rows, after, matched, turns, env, batch);
    copies := Copies(after, turns, m);
    assert after[|rows|..] == after[|rows|..|after|];
    CopiesBeforeEnd(rows, after, matched, turns, env, batch);
    OwnRowsBefore(rows, after, matched, turns, env, batch, m, |after|);
    forall i | 0 <= i < m ensures IsCopy(copies[i], matched[i], batch, env.ids(i), env.clock(i)) {
      assert TurnRan(rows, after, matched, turns, env, batch, i);
    }
    forall i, j | 0 <= i < j < m && copies[i].streamId == copies[j].streamId
      ensures copies[i].version < copies[j].version
    {
      assert TurnRan(rows, after, matched, turns, env, batch, j);
      CommitsRaiseVersions(after, |turns[i].met|, |turns[j].met|);
    }
    assert AllAcked(matched, turns, env) && turns != [] ==> TurnAcked(matched, turns, env, |turns| - 1);
  }

  /** No other client writes during the call. */
  ghost predicate Undisturbed(env: Env)
  {
    forall i :: env.before(i) == [] && env.during(i) == []
  }

  /** `after` is `rows` followed by copies of the first `n` of `matched`, in that order. */
  ghost predicate CopiesAppended(rows: seq<Event>, after: seq<Event>, matched: seq<Event>, n: nat, env: Env,
                                 batch: Batch)
  {
    && n <= |matched| && |after| == |rows| + n && rows <= after
    && forall i :: 0 <= i < n ==> IsCopy(after[|rows| + i], matched[i], batch, env.ids(i), env.clock(i))
  }

  /** Left alone, a batch adds its copies and nothing else, and only faults can stop it. */
  lemma {:induction false} UndisturbedBatch(rows: seq<Event>, after: seq<Event>, matched: seq<Event>, turns: seq<Turn>,
                                            env: Env, batch: Batch)
    requires BatchRan(rows, after, matched, turns, env, batch) && FreshIds(env, rows) && Valid(after)
    requires Undisturbed(env)
    ensures CopiesAppended(rows, after, matched, Landed(matched, turns, env), env, batch)
    ensures forall i :: 0 <= i < |turns| ==> (TurnLands(matched, turns, env, i) <==> env.faults(i) != NeverRan)
  {
    UndisturbedCopies(rows, after, matched, turns, env, batch);
    forall i | 0 <= i < |turns| ensures TurnLands(matched, turns, env, i) <==> env.faults(i) != NeverRan {
      UndisturbedTurn(rows, after, matched, turns, env, batch, i);
    }
  }

  lemma UndisturbedCopies(rows: seq<Event>, after: seq<Event>, matched: seq<Event>, turns: seq<Turn>,
                          env: Env, batch: Batch)
    requires BatchRan(rows, after, matched, turns, env, batch) && FreshIds(env, rows) && Valid(after)
    requires Undisturbed(env)
    ensures CopiesAppended(rows, after, matched, Landed(matched, turns, env), env, batch)
  {
    var copies := BatchLeaves(rows, after, matched, turns, env, batch);
    AllOwn(rows, after, env);
    JoinCopies(rows, after, matched, copies, env, batch);
  }

  lemma JoinCopies(rows: seq<Event>, after: seq<Event>, matched: seq<Event>, copies: seq<Event>, env: Env, batch: Batch)
    requires rows <= after && copies == after[|rows|..] && |copies| <= |matched|
    requires forall i :: 0 <= i < |copies| ==> IsCopy(copies[i], matched[i], batch, env.ids(i), env.clock(i))
    ensures CopiesAppended(rows, after, matched, |copies|, env, batch)
  {
    forall i | 0 <= i < |copies| ensures IsCopy(after[|rows| + i], matched[i], batch, env.ids(i), env.clock(i)) {
      assert after[|rows| + i] == copies[i];
    }
  }

  lemma AllOwn(rows: seq<Event>, after: seq<Event>, env: Env)
    requires Undisturbed(env) && rows <= after
    ensures Filter(after[|rows|..], Own(env)) == after[|rows|..]
  {
    FilterAll(after[|rows|..], Own(env));
  }

  /** Left alone, every snapshot sees the whole table that its statement meets. */
  lemma UndisturbedTurn(rows: seq<Event>, after: seq<Event>, matched: seq<Event>, turns: seq<Turn>,
                        env: Env, batch: Batch, i: nat)
    requires BatchRan(rows, after, matched, turns, env, batch) && FreshIds(env, rows) && Undisturbed(env)
    requires i < |turns|
    ensures turns[i].snap == |turns[i].met| == |rows| + i
  {
    TurnTimes(rows, after, matched, turns, env, batch);
    MetRows(rows, after, matched, turns, env, batch, i);
    if i > 0 {
      MetRows(rows, after, matched, turns, env, batch, i - 1);
      assert |turns[i - 1].met| < turns[i].snap;
    }
  }

  lemma MetRows(rows: seq<Event>, after: seq<Event>, matched: seq<Event>, turns: seq<Turn>, env: Env, batch: Batch,
                i: nat)
    requires BatchRan(rows, after, matched, turns, env, batch) && FreshIds(env, rows) && Undisturbed(env)
    requires i < |turns|
    ensures |turns[i].met| == |rows| + i
  {
    TurnTimes(rows, after, matched, turns, env, batch);
    CopiesBeforeTurn(rows, after, matched, turns, env, batch, i);
    OwnRowsBefore(rows, after, matched, turns, env, batch, i, |turns[i].met|);
    FilterAll(after[|rows|..|turns[i].met|], Own(env));
  }
}
