/**
 * How repeated active replays of one filter grow the table: copies match the filter of their
 * originals unless it names ids or times, so each success doubles the matches until the safety
 * limit refuses the next one.
 */
module Growth {
  import opened Collections
  import opened Events
  import opened Postgres
  import opened QueryBuilder
  import opened ReplayBatch
  import opened ReplayEngine
  import opened Sql
  import opened Versions
  import opened Writers

  function MatchCount(rows: seq<Event>, f: ReplayFilter): nat
  {
    |Filter(rows, Matching(f))|
  }

  predicate Unbounded(f: ReplayFilter)
  {
    f.eventIds == [] && f.fromTime == ZERO_TIME && f.toTime == ZERO_TIME
  }

  predicate SameSubject(a: Event, b: Event)
  {
    && a.tenantId == b.tenantId && a.streamId == b.streamId && a.correlationId == b.correlationId
    && a.kind == b.kind && a.actorId == b.actorId
  }

  /**
   * What one active Execute does to the table when nobody else writes: nothing, or, if at most
   * `limit` rows match, copies of some of them, and of all of them when it succeeds.
   */
  ghost predicate Attempt(rows: seq<Event>, after: seq<Event>, f: ReplayFilter, limit: int, success: bool)
  {
    (after == rows && !success) ||
    (exists matched :: CopiesOf(rows, after, f, limit, success, matched))
  }

  ghost predicate CopiesOf(rows: seq<Event>, after: seq<Event>, f: ReplayFilter, limit: int, success: bool,
                           matched: seq<Event>)
  {
    && IsOrdering(OccurredAsc, rows, Matching(f), matched) && |matched| <= limit
    && rows <= after && |after| <= |rows| + |matched|
    && (success ==> |after| == |rows| + |matched|)
    && forall i :: |rows| <= i < |after| ==> SameSubject(after[i], matched[i - |rows|])
  }

  /** Engine.Execute, with nobody else writing, is such an attempt, and succeeds exactly if it is one that does. */
  lemma ExecuteIsAttempt(rows: seq<Event>, after: seq<Event>, f: ReplayFilter, limit: int, matched: seq<Event>,
                         turns: seq<Turn>, env: Env, batch: Batch, ok: bool)
    requires IsOrdering(OccurredAsc, rows, Matching(f), matched) && |matched| <= limit
    requires BatchRan(rows, after, matched, turns, env, batch) && FreshIds(env, rows) && Valid(after)
    requires Undisturbed(env) && (ok ==> AllAcked(matched, turns, env))
    ensures Attempt(rows, after, f, limit, ok)
  {
    UndisturbedBatch(rows, after, matched, turns, env, batch);
    var copies := BatchLeaves(rows, after, matched, turns, env, batch);
    CopiesAreAttempt(rows, after, f, limit, matched, |copies|, env, batch, ok);
  }

  lemma CopiesAreAttempt(rows: seq<Event>, after: seq<Event>, f: ReplayFilter, limit: int, matched: seq<Event>, n: nat,
                         env: Env, batch: Batch, ok: bool)
    requires IsOrdering(OccurredAsc, rows, Matching(f), matched) && |matched| <= limit
    requires CopiesAppended(rows, after, matched, n, env, batch) && (ok ==> n == |matched|)
    ensures Attempt(rows, after, f, limit, ok)
  {
    forall i | |rows| <= i < |after| ensures SameSubject(after[i], matched[i - |rows|]) {
      var k := i - |rows|;
      assert IsCopy(after[|rows| + k], matched[k], batch, env.ids(k), env.clock(k));
    }
    assert CopiesOf(rows, after, f, limit, ok, matched);
  }

  /** Every copy matches again, so the matches grow by the rows appended. */
  lemma CopiesMatch(rows: seq<Event>, after: seq<Event>, f: ReplayFilter, limit: int, success: bool,
                    matched: seq<Event>)
    requires Unbounded(f) && CopiesOf(rows, after, f, limit, success, matched)
    ensures MatchCount(after, f) == MatchCount(rows, f) + (|after| - |rows|)
    ensures |matched| == MatchCount(rows, f)
  {
    var added := after[|rows|..];
    assert after == rows + added;
    FilterConcat(rows, added, Matching(f));
    forall e | e in added ensures Matching(f)(e) {
      var i :| 0 <= i < |added| && added[i] == e;
      assert after[|rows| + i] == e && matched[i] in matched;
    }
    FilterAll(added, Matching(f));
  }

  /** n * 2^wins. */
  function Doubled(n: nat, wins: nat): nat
  {
    if wins == 0 then n else 2 * Doubled(n, wins - 1)
  }

  function Wins(outcomes: seq<bool>): nat
  {
    if outcomes == [] then 0 else
    Wins(outcomes[..|outcomes| - 1]) + if outcomes[|outcomes| - 1] then 1 else 0
  }

  ghost predicate Attempts(tables: seq<seq<Event>>, outcomes: seq<bool>, f: ReplayFilter, limit: int)
  {
    && |tables| == |outcomes| + 1
    && forall i :: 0 <= i < |outcomes| ==> Attempt(tables[i], tables[i + 1], f, limit, outcomes[i])
  }

  lemma AttemptBounds(rows: seq<Event>, after: seq<Event>, f: ReplayFilter, limit: int, success: bool)
    requires Unbounded(f) && Attempt(rows, after, f, limit, success)
    ensures MatchCount(rows, f) <= MatchCount(after, f)
    ensures success ==> MatchCount(after, f) == 2 * MatchCount(rows, f) && MatchCount(rows, f) <= limit
    ensures MatchCount(after, f) <= Max(MatchCount(rows, f), 2 * limit)
  {
    if matched :| CopiesOf(rows, after, f, limit, success, matched) {
      CopiesMatch(rows, after, f, limit, success, matched);
    }
  }

  /** What `wins` successes among `attempts` mean for the number of matches, from `n` to `last`. */
  ghost predicate Bounded(n: nat, last: nat, wins: nat, attempts: nat, limit: int)
  {
    && Doubled(n, wins) <= last <= Max(n, 2 * limit)
    && (wins > 0 ==> Doubled(n, wins - 1) <= limit)
    && (wins == attempts ==> last == Doubled(n, wins))
    && wins <= attempts
  }

  lemma OneAttemptMore(n: nat, last: nat, next: nat, wins: nat, attempts: nat, limit: int, success: bool)
    requires Bounded(n, last, wins, attempts, limit)
    requires last <= next <= Max(last, 2 * limit) && (success ==> next == 2 * last && last <= limit)
    ensures Bounded(n, next, if success then wins + 1 else wins, attempts + 1, limit)
  {}

  lemma LastAttempt(tables: seq<seq<Event>>, outcomes: seq<bool>, f: ReplayFilter, limit: int)
    requires Unbounded(f) && Attempts(tables, outcomes, f, limit) && outcomes != []
    ensures var k := |outcomes| - 1;
            && Attempts(tables[..k + 1], outcomes[..k], f, limit)
            && var last, next := MatchCount(tables[k], f), MatchCount(tables[k + 1], f);
               last <= next <= Max(last, 2 * limit) && (outcomes[k] ==> next == 2 * last && last <= limit)
  {
    var k := |outcomes| - 1;
    assert Attempt(tables[k], tables[k + 1], f, limit, outcomes[k]);
    AttemptBounds(tables[k], tables[k + 1], f, limit, outcomes[k]);
  }

  /**
   * Main result. Over any run of replays of one unbounded filter, failed ones included, starting
   * from n matches: w successes need n * 2^(w-1) <= limit (so none when n > limit), they leave at
   * least n * 2^w matches, exactly that many when all succeed, and there are never more than
   * max(n, 2 * limit).
   */
  lemma {:induction false} ReplayGrowthBound(tables: seq<seq<Event>>, outcomes: seq<bool>, f: ReplayFilter, limit: int)
    requires Unbounded(f) && Attempts(tables, outcomes, f, limit)
    ensures Bounded(MatchCount(tables[0], f), MatchCount(tables[|outcomes|], f), Wins(outcomes), |outcomes|, limit)
  {
    if outcomes != [] {
      var k := |outcomes| - 1;
      LastAttempt(tables, outcomes, f, limit);
      ReplayGrowthBound(tables[..k + 1], outcomes[..k], f, limit);
      OneAttemptMore(MatchCount(tables[0], f), MatchCount(tables[k], f), MatchCount(tables[k + 1], f),
                     Wins(outcomes[..k]), k, limit, outcomes[k]);
    }
  }

  // ----- The engine, called again and again -----

  /** No id is drawn twice, within a call or by two calls, or is in the table already. */
  ghost predicate DrawsFresh(envs: seq<Env>, rows: seq<Event>)
  {
    && (forall c :: 0 <= c < |envs| ==> FreshIds(envs[c], rows))
    && (forall c, d, i, j :: 0 <= c < d < |envs| ==> envs[c].ids(i) != envs[d].ids(j))
  }

  lemma StillFresh(envs: seq<Env>, rows: seq<Event>, after: seq<Event>, matched: seq<Event>, n: nat, batch: Batch)
    requires envs != [] && DrawsFresh(envs, rows)
    requires CopiesAppended(rows, after, matched, n, envs[0], batch)
    ensures DrawsFresh(envs[1..], after)
  {
    forall id | id in RowIds(after) ensures id in RowIds(rows) || exists i: nat :: id == envs[0].ids(i) {
      var r :| r in after && r.id == id;
      var k :| 0 <= k < |after| && after[k] == r;
      if |rows| <= k {
        var i := k - |rows|;
        assert IsCopy(after[|rows| + i], matched[i], batch, envs[0].ids(i), envs[0].clock(i));
      }
    }
  }

  /** One call with nobody else writing: an attempt, after which the ids of later calls are still fresh. */
  method Replay(engine: Engine, identity: Option<string>, req: ReplayRequest, ghost envs: seq<Env>, env: Env)
    returns (ok: bool)
    requires envs != [] && envs[0] == env && Undisturbed(env)
    requires Valid(engine.store.rows) && DrawsFresh(envs, engine.store.rows)
    requires Acceptable(identity, req) && !req.dryRun && -MAX_INT64 - 1 <= req.safetyLimit <= MAX_INT64
    modifies engine.store, engine.publisher
    ensures Valid(engine.store.rows) && DrawsFresh(envs[1..], engine.store.rows)
    ensures Attempt(old(engine.store.rows), engine.store.rows, Scoped(req.filter, identity.value),
                    EffectiveLimit(req.safetyLimit), ok)
  {
    ghost var rows := engine.store.rows;
    var r, matched, turns := engine.Execute(identity, req, env);
    ok := r.Ok?;
    ghost var batch := Batch(env.replayId, env.startedAt, req.reason);
    if QueryAnswers(rows, identity, req, env) {
      UndisturbedBatch(rows, engine.store.rows, matched, turns, env, batch);
      ExecuteIsAttempt(rows, engine.store.rows, Scoped(req.filter, identity.value), EffectiveLimit(req.safetyLimit),
                       matched, turns, env, batch, ok);
      StillFresh(envs, rows, engine.store.rows, matched, Landed(matched, turns, env), batch);
    }
  }

  /**
   * Repeating one active replay with nobody else writing, whatever fails: `wins` successes from n
   * matches need n * 2^(wins-1) <= limit, and the matches never exceed max(n, 2 * limit).
   */
  method ReplayRepeatedly(engine: Engine, identity: Option<string>, req: ReplayRequest, envs: seq<Env>)
    returns (outcomes: seq<bool>)
    requires Valid(engine.store.rows) && DrawsFresh(envs, engine.store.rows)
    requires forall c :: 0 <= c < |envs| ==> Undisturbed(envs[c])
    requires Acceptable(identity, req) && !req.dryRun && -MAX_INT64 - 1 <= req.safetyLimit <= MAX_INT64
    requires Unbounded(req.filter)
    modifies engine.store, engine.publisher
    ensures |outcomes| == |envs|
    ensures var f, limit := Scoped(req.filter, identity.value), EffectiveLimit(req.safetyLimit);
            Bounded(MatchCount(old(engine.store.rows), f), MatchCount(engine.store.rows, f), Wins(outcomes),
                    |outcomes|, limit)
  {
    outcomes := [];
    ghost var f, limit := Scoped(req.filter, identity.value), EffectiveLimit(req.safetyLimit);
    ghost var tables := [engine.store.rows];
    for i := 0 to |envs|
      invariant Valid(engine.store.rows) && DrawsFresh(envs[i..], engine.store.rows)
      invariant |outcomes| == i && Attempts(tables, outcomes, f, limit)
      invariant tables[0] == old(engine.store.rows) && tables[i] == engine.store.rows
    {
      var ok := Replay(engine, identity, req, envs[i..], envs[i]);
      assert envs[i..][1..] == envs[i + 1..];
      outcomes := outcomes + [ok];
      tables := tables + [engine.store.rows];
    }
    ReplayGrowthBound(tables, outcomes, f, limit);
  }
}
