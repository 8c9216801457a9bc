/**
 * The migration runner (cmd/migrate/main.go): one run against the database, and any number of
 * runners over the same files with crashes, lost replies and partial reads of the tracking table.
 */
module Migrate {
  import opened Collections

  // ----- The sorted list of files -----

  predicate IsSql(name: string)
  {
    |name| >= 4 && name[|name| - 4..] == ".sql"
  }

  /** The .sql entries of a directory; of two files, the one with the smaller first differing character first. */
  method CollectFiles(entries: seq<string>) returns (files: seq<string>)
    requires forall i, j :: 0 <= i < j < |entries| ==> entries[i] != entries[j]
    ensures Ascending(files, Lex)
    ensures forall i, j :: 0 <= i < j < |files| ==> files[i] != files[j]
    ensures forall i, j :: 0 <= i < j < |files| && files[i] != files[j] ==>
              exists k: nat ::
                && k <= |files[i]| && k < |files[j]| && files[i][..k] == files[j][..k]
                && (k == |files[i]| || files[i][k] < files[j][k])
    ensures forall x :: x in files <==> x in entries && exists stem :: x == stem + ".sql"
  {
    files := [];
    for i := 0 to |entries|
      invariant Ascending(files, Lex)
      invariant forall x :: x in files <==> x in entries[..i] && IsSql(x)
    {
      if IsSql(entries[i]) {
        LexStrict();
        forall x | x in files ensures Lex(x, entries[i]) || Lex(entries[i], x) {
          LexTotal(x, entries[i]);
        }
        PlaceAscending(files, entries[i], Lex);
        files := Place(files, entries[i], Lex);
      }
    }
    InCharacterOrder(files);
    SqlEntries(files, entries);
  }

  lemma InCharacterOrder(files: seq<string>)
    requires Ascending(files, Lex)
    ensures forall i, j :: 0 <= i < j < |files| ==> files[i] != files[j]
    ensures forall i, j :: 0 <= i < j < |files| && files[i] != files[j] ==>
              exists k: nat ::
                && k <= |files[i]| && k < |files[j]| && files[i][..k] == files[j][..k]
                && (k == |files[i]| || files[i][k] < files[j][k])
  {
    forall i, j | 0 <= i < j < |files|
      ensures files[i] != files[j] && exists k: nat ::
                && k <= |files[i]| && k < |files[j]| && files[i][..k] == files[j][..k]
                && (k == |files[i]| || files[i][k] < files[j][k])
    {
      LexMeans(files[i], files[j]);
      LexIrreflexive(files[i]);
    }
  }

  lemma SqlEntries(files: seq<string>, entries: seq<string>)
    requires forall x :: x in files <==> x in entries && IsSql(x)
    ensures forall x :: x in files <==> x in entries && exists stem :: x == stem + ".sql"
  {
    forall x ensures x in files <==> x in entries && exists stem :: x == stem + ".sql" {
      SqlMeans(x);
    }
  }

  lemma SqlMeans(name: string)
    ensures IsSql(name) <==> exists stem :: name == stem + ".sql"
  {
    if IsSql(name) {
      assert name == name[..|name| - 4] + ".sql";
    }
  }

  // ----- What the database may hold -----

  /** The files whose SQL has committed, in commit order, are the first ones of the list, each recorded. */
  ghost predicate Prefix(files: seq<string>, executed: seq<string>, recorded: set<string>)
  {
    executed <= files && recorded == (set x | x in executed)
  }

  /** What goes wrong in a transaction: one of its statements, its commit, or only the reply to that. */
  datatype Fault = NoFault | BeginFails | SqlFails | RecordFails | CommitFails | ReplyLost

  /** The database as an open transaction sees it; nobody else does before it commits. */
  datatype Tx = Tx(executed: seq<string>, recorded: set<string>)

  /** Position i of the list is recorded exactly when it lies in the executed prefix. */
  lemma RecordedIsPrefix(files: seq<string>, executed: seq<string>, recorded: set<string>, i: nat)
    requires Ascending(files, Lex) && Prefix(files, executed, recorded) && i < |files|
    ensures files[i] in recorded <==> i < |executed|
  {
    LexStrict();
    if i < |executed| {
      assert executed[i] == files[i] && executed[i] in executed;
    } else {
      forall j | 0 <= j < |executed| ensures executed[j] != files[i] {
        assert Lex(files[j], files[i]);
      }
    }
  }

  lemma ExecuteNext(files: seq<string>, executed: seq<string>, recorded: set<string>)
    requires Prefix(files, executed, recorded) && |executed| < |files|
    ensures Prefix(files, executed + [files[|executed|]], recorded + {files[|executed|]})
  {}

  class Database {
    /** Migrations whose SQL has committed, in order. */
    var executed: seq<string>
    /** The rows of schema_migrations. */
    var recorded: set<string>

    constructor ()
      ensures executed == [] && recorded == {}
    {
      executed, recorded := [], {};
    }

    /**
     * One transaction, statement by statement. Whichever of them fails, the SQL and its tracking row
     * take effect together or not at all.
     */
    method ApplyOne(name: string, fault: Fault) returns (ok: bool)
      modifies this
      ensures if (fault == NoFault || fault == ReplyLost) && name !in old(recorded)
              then ok == fault.NoFault? && executed == old(executed) + [name] && recorded == old(recorded) + {name}
              else !ok && executed == old(executed) && recorded == old(recorded)
    {
      if fault == BeginFails {
        return false;
      }
      var tx := Tx(executed, recorded);
      if fault == SqlFails {
        return false;
      }
      tx := tx.(executed := tx.executed + [name]);
      if fault == RecordFails || name in tx.recorded {
        return false;
      }
      tx := tx.(recorded := tx.recorded + {name});
      if fault == CommitFails {
        return false;
      }
      executed, recorded := tx.executed, tx.recorded;
      ok := fault == NoFault;
    }

    /**
     * One run, with nobody else migrating. `seen` is what it read of the tracking table, possibly
     * only in part, since the read loop does not check for an error. Success means all files are
     * applied; failure leaves a prefix of them; either way no file is ever applied twice.
     */
    method Run(files: seq<string>, seen: set<string>, faults: nat -> Fault) returns (ok: bool, pending: nat)
      requires Ascending(files, Lex) && Prefix(files, executed, recorded) && seen <= recorded
      modifies this
      ensures Prefix(files, executed, recorded) && old(executed) <= executed
      ensures ok ==> executed == files && pending == |files| - |old(executed)|
      ensures seen == old(recorded) && (forall i :: faults(i) == NoFault) ==> ok
      ensures old(executed) == files ==> executed == files && recorded == old(recorded)
    {
      var applied := seen;
      pending := 0;
      for i := 0 to |files|
        invariant Prefix(files, executed, recorded) && old(executed) <= executed
        invariant i <= |executed| && applied <= recorded
        invariant pending == |executed| - |old(executed)|
        invariant applied == old(recorded) ==> |executed| == Max(i, |old(executed)|)
        invariant old(executed) == files ==> executed == files && recorded == old(recorded)
      {
        RecordedIsPrefix(files, executed, recorded, i);
        RecordedIsPrefix(files, old(executed), old(recorded), i);
        if files[i] in applied {
          continue;
        }
        if |executed| == i {
          ExecuteNext(files, executed, recorded);
        }
        var done := ApplyOne(files[i], faults(i));
        if !done {
          return false, pending;
        }
        pending := pending + 1;
      }
      ok := true;
    }
  }

  // ----- Concurrent runners -----

  /** How far a runner is with the transaction of its next file; other runners see nothing of it. */
  datatype Stage = NotBegun | SqlRun | RowInserted

  /** `applied` is what the runner read, `next` the file it has reached. */
  datatype Runner = Runner(applied: set<string>, next: nat, stage: Stage)

  /** `finished` records the runners that returned nil. */
  datatype State = State(executed: seq<string>, recorded: set<string>, runners: map<nat, Runner>, finished: set<nat>)

  datatype Step =
    | Begin(r: nat, seen: set<string>)      // reads the tracking table, perhaps only in part
    | Skip(r: nat)
    | RunSql(r: nat)
    | InsertRow(r: nat)
    | CommitTx(r: nat, acked: bool)
    | Return(r: nat)
    | Stop(r: nat)                          // a failed statement or a crash; an open transaction is rolled back

  const EMPTY := State([], {}, map[], {})

  /** The file a runner is at, if it is in this stage of it. */
  predicate At(files: seq<string>, s: State, r: nat, stage: Stage)
  {
    r in s.runners && s.runners[r].stage == stage && s.runners[r].next < |files|
  }

  function Moved(s: State, r: nat, next: nat, stage: Stage): State
    requires r in s.runners
  {
    s.(runners := s.runners[r := s.runners[r].(next := next, stage := stage)])
  }

  function Apply(files: seq<string>, s: State, step: Step): State
  {
    match step
    case Begin(r, seen) =>
      if r in s.runners then s else s.(runners := s.runners[r := Runner(seen * s.recorded, 0, NotBegun)])
    case Skip(r) =>
      if At(files, s, r, NotBegun) && files[s.runners[r].next] in s.runners[r].applied
      then Moved(s, r, s.runners[r].next + 1, NotBegun) else s
    case RunSql(r) =>
      if At(files, s, r, NotBegun) && files[s.runners[r].next] !in s.runners[r].applied
      then Moved(s, r, s.runners[r].next, SqlRun) else s
    case InsertRow(r) =>
      if !At(files, s, r, SqlRun) then s
      else if files[s.runners[r].next] in s.recorded then s.(runners := s.runners - {r})
      else Moved(s, r, s.runners[r].next, RowInserted)
    case CommitTx(r, acked) =>
      if !At(files, s, r, RowInserted) then s
      else if files[s.runners[r].next] in s.recorded then s.(runners := s.runners - {r})
      else
        var name := files[s.runners[r].next];
        var moved := if acked then Moved(s, r, s.runners[r].next + 1, NotBegun) else s.(runners := s.runners - {r});
        moved.(executed := s.executed + [name], recorded := s.recorded + {name})
    case Return(r) =>
      if r in s.runners && s.runners[r].next >= |files|
      then s.(runners := s.runners - {r}, finished := s.finished + {r}) else s
    case Stop(r) => s.(runners := s.runners - {r})
  }

  function After(files: seq<string>, steps: seq<Step>): State
  {
    if steps == [] then EMPTY else Apply(files, After(files, steps[..|steps| - 1]), steps[|steps| - 1])
  }

  ghost predicate Inv(files: seq<string>, s: State)
  {
    && Prefix(files, s.executed, s.recorded)
    && (forall r :: r in s.runners ==> s.runners[r].next <= |s.executed| && s.runners[r].applied <= s.recorded)
    && (s.finished != {} ==> s.executed == files)
  }

  lemma StepKeepsInv(files: seq<string>, s: State, step: Step)
    requires Ascending(files, Lex) && Inv(files, s)
    ensures Inv(files, Apply(files, s, step)) && s.executed <= Apply(files, s, step).executed
  {
    if !step.Begin? && step.r in s.runners && s.runners[step.r].next < |files| {
      var i := s.runners[step.r].next;
      RecordedIsPrefix(files, s.executed, s.recorded, i);
      if |s.executed| == i {
        ExecuteNext(files, s.executed, s.recorded);
      }
    }
  }

  lemma {:induction false} RunsKeepInv(files: seq<string>, steps: seq<Step>)
    requires Ascending(files, Lex)
    ensures Inv(files, After(files, steps))
  {
    if steps != [] {
      RunsKeepInv(files, steps[..|steps| - 1]);
      StepKeepsInv(files, After(files, steps[..|steps| - 1]), steps[|steps| - 1]);
    }
  }

  lemma {:induction false} ExecutedGrows(files: seq<string>, first: seq<Step>, more: seq<Step>)
    requires Ascending(files, Lex)
    ensures After(files, first).executed <= After(files, first + more).executed
  {
    if more == [] {
      assert first + more == first;
    } else {
      var n := |more| - 1;
      assert (first + more)[..|first| + n] == first + more[..n];
      ExecutedGrows(files, first, more[..n]);
      RunsKeepInv(files, first + more[..n]);
      StepKeepsInv(files, After(files, first + more[..n]), more[n]);
    }
  }

  /**
   * Main result. Whatever runners do, the migrations committed so far are a prefix of the sorted
   * list, each committed once, and recorded iff committed.
   */
  lemma {:induction false} ExactlyOnceInOrder(files: seq<string>, steps: seq<Step>)
    requires Ascending(files, Lex)
    ensures var s := After(files, steps);
            && s.executed <= files
            && (forall i, j :: 0 <= i < j < |s.executed| ==> s.executed[i] != s.executed[j])
            && (forall x :: x in s.recorded <==> x in s.executed)
  {
    RunsKeepInv(files, steps);
    LexStrict();
    var s := After(files, steps);
    forall i, j | 0 <= i < j < |s.executed| ensures s.executed[i] != s.executed[j] {
      assert Lex(files[i], files[j]);
    }
  }

  /** Once any runner has returned nil, every migration is applied and no later step commits anything. */
  lemma {:induction false} FinishedMeansAll(files: seq<string>, steps: seq<Step>, more: seq<Step>)
    requires Ascending(files, Lex) && After(files, steps).finished != {}
    ensures After(files, steps).executed == files && After(files, steps + more).executed == files
  {
    RunsKeepInv(files, steps);
    RunsKeepInv(files, steps + more);
    ExecutedGrows(files, steps, more);
  }

  // ----- A runner that is left alone -----

  lemma AfterSnoc(files: seq<string>, steps: seq<Step>, step: Step)
    ensures After(files, steps + [step]) == Apply(files, After(files, steps), step)
  {}

  /** The runner is at file `i`, between two transactions. */
  ghost predicate Resting(files: seq<string>, s: State, r: nat, i: nat)
  {
    Inv(files, s) && r in s.runners && s.runners[r].next == i <= |files| && s.runners[r].stage == NotBegun
  }

  /** What it read of the tracking table is still complete, or it has reached the first file not applied. */
  ghost predicate OnTrack(files: seq<string>, s: State, r: nat, i: nat)
  {
    Resting(files, s, r, i) && (s.runners[r].applied >= s.recorded || i == |s.executed|)
  }

  /** One file more: a transaction if the runner has not read the file as applied, and nothing to do otherwise. */
  lemma FileDone(files: seq<string>, s: State, r: nat, i: nat) returns (t: State, a: Step, b: Step, c: Step)
    requires Ascending(files, Lex) && OnTrack(files, s, r, i) && i < |files|
    ensures t == Apply(files, Apply(files, Apply(files, s, a), b), c) && a.r == b.r == c.r == r
    ensures Resting(files, t, r, i + 1) && t.runners[r].applied == s.runners[r].applied && i < |t.executed|
    ensures t.executed == if i < |s.executed| then s.executed else s.executed + [files[i]]
  {
    RecordedIsPrefix(files, s.executed, s.recorded, i);
    if files[i] in s.runners[r].applied {
      a, b, c := Skip(r), InsertRow(r), InsertRow(r);
    } else {
      a, b, c := RunSql(r), InsertRow(r), CommitTx(r, true);
    }
    t := Apply(files, Apply(files, Apply(files, s, a), b), c);
    StepKeepsInv(files, s, a);
    StepKeepsInv(files, Apply(files, s, a), b);
    StepKeepsInv(files, Apply(files, Apply(files, s, a), b), c);
  }

  lemma ThreeMore(files: seq<string>, steps: seq<Step>, a: Step, b: Step, c: Step)
    ensures After(files, steps + [a, b, c]) == Apply(files, Apply(files, Apply(files, After(files, steps), a), b), c)
  {
    AfterSnoc(files, steps, a);
    AfterSnoc(files, steps + [a], b);
    AfterSnoc(files, steps + [a] + [b], c);
    assert steps + [a, b, c] == steps + [a] + [b] + [c];
  }

  lemma FileSteps(files: seq<string>, steps: seq<Step>, r: nat, i: nat) returns (next: seq<Step>)
    requires Ascending(files, Lex) && OnTrack(files, After(files, steps), r, i) && i < |files|
    ensures forall step :: step in next ==> step.r == r
    ensures OnTrack(files, After(files, steps + next), r, i + 1)
  {
    var s := After(files, steps);
    var t, a, b, c := FileDone(files, s, r, i);
    ThreeMore(files, steps, a, b, c);
    next := [a, b, c];
    assert i < |s.executed| ==> t.executed == s.executed;
  }

  lemma Joined(steps: seq<Step>, next: seq<Step>, rest: seq<Step>, r: nat) returns (more: seq<Step>)
    requires (forall step :: step in next ==> step.r == r) && forall step :: step in rest ==> step.r == r
    ensures steps + more == steps + next + rest && forall step :: step in more ==> step.r == r
  {
    more := next + rest;
  }

  lemma LoneReturn(files: seq<string>, steps: seq<Step>, r: nat)
    requires OnTrack(files, After(files, steps), r, |files|)
    ensures var t := After(files, steps + [Return(r)]); t.executed == files && r in t.finished
  {
    AfterSnoc(files, steps, Return(r));
  }

  /** From file `i` on, left alone. */
  lemma {:induction false} LoneFrom(files: seq<string>, steps: seq<Step>, r: nat, i: nat) returns (more: seq<Step>)
    requires Ascending(files, Lex) && OnTrack(files, After(files, steps), r, i)
    ensures forall step :: step in more ==> step.r == r
    ensures var t := After(files, steps + more); t.executed == files && r in t.finished
    decreases |files| - i
  {
    if i == |files| {
      LoneReturn(files, steps, r);
      more := [Return(r)];
    } else {
      var next := FileSteps(files, steps, r, i);
      var rest := LoneFrom(files, steps + next, r, i + 1);
      more := Joined(steps, next, rest, r);
    }
  }

  /**
   * Main result. Whatever runners did before, a new one that reads the whole tracking table and is then
   * left alone, with nothing failing, returns with every file applied.
   */
  lemma {:induction false} LoneRunnerFinishes(files: seq<string>, steps: seq<Step>, r: nat) returns (more: seq<Step>)
    requires Ascending(files, Lex) && r !in After(files, steps).runners
    ensures forall step :: step in more ==> step.r == r
    ensures var t := After(files, steps + more);
            t.executed == files && r in t.finished && forall x :: x in t.recorded <==> x in files
  {
    var s := After(files, steps);
    RunsKeepInv(files, steps);
    AfterSnoc(files, steps, Begin(r, s.recorded));
    var rest := LoneFrom(files, steps + [Begin(r, s.recorded)], r, 0);
    more := [Begin(r, s.recorded)] + rest;
    assert steps + more == steps + [Begin(r, s.recorded)] + rest;
    RunsKeepInv(files, steps + more);
  }
}
