/**
 * The events table as the sequence of its rows in commit order, and what one INSERT statement of
 * EventStore.Append does to it when its snapshot of the table may be stale.
 */
module Versions {
  import opened Collections
  import opened Events

  function InStream(stream: string): Event -> bool
  {
    (e: Event) => e.streamId == stream
  }

  function StreamRows(rows: seq<Event>, stream: string): seq<Event>
  {
    Filter(rows, InStream(stream))
  }

  function RowIds(rows: seq<Event>): set<string>
  {
    set r | r in rows :: r.id
  }

  /** SELECT MAX(version) FROM events WHERE stream_id = stream. */
  function MaxVersion(rows: seq<Event>, stream: string): Option<int>
  {
    if rows == [] then None else
    var last := rows[|rows| - 1];
    var before := MaxVersion(rows[..|rows| - 1], stream);
    if last.streamId != stream then before
    else if before.Some? && last.version < before.value then before
    else Some(last.version)
  }

  /** COALESCE(MAX(version), 0) + 1. */
  function NextVersion(rows: seq<Event>, stream: string): int
  {
    match MaxVersion(rows, stream)
    case None => 1
    case Some(v) => v + 1
  }

  function Lookup(rows: seq<Event>, id: string): (r: Option<Event>)
    ensures r.Some? <==> id in RowIds(rows)
    ensures r.Some? ==> r.value in rows && r.value.id == id
  {
    if rows == [] then None else
    var last := rows[|rows| - 1];
    if last.id == id then Some(last) else Lookup(rows[..|rows| - 1], id)
  }

  predicate Taken(rows: seq<Event>, stream: string, version: int)
  {
    exists r :: r in rows && r.streamId == stream && r.version == version
  }

  /** What the statement does when it commits: the id conflict is tried before the version conflict. */
  datatype Outcome =
    | Inserted(row: Event)
    | Existing(version: int)
    | Collision

  /** `rows[..snap]` is what the statement's snapshot saw, `rows` what it meets when it commits. */
  function Commit(rows: seq<Event>, snap: nat, e: Event): Outcome
    requires snap <= |rows|
  {
    match Lookup(rows, e.id)
    case Some(r) => Existing(r.version)
    case None =>
      var v := NextVersion(rows[..snap], e.streamId);
      if Taken(rows, e.streamId, v) then Collision else Inserted(e.(version := v))
  }

  function RowsAfter(rows: seq<Event>, outcome: Outcome): seq<Event>
  {
    if outcome.Inserted? then rows + [outcome.row] else rows
  }

  // ----- The invariant of the table -----

  /** The version of row i counts the rows of its stream committed up to and including it. */
  ghost predicate Numbered(rows: seq<Event>, i: nat)
    requires i < |rows|
  {
    rows[i].version == |StreamRows(rows[..i], rows[i].streamId)| + 1
  }

  ghost predicate GapFree(rows: seq<Event>)
  {
    forall i :: 0 <= i < |rows| ==> Numbered(rows, i)
  }

  ghost predicate UniqueIds(rows: seq<Event>)
  {
    forall i, j :: 0 <= i < j < |rows| ==> rows[i].id != rows[j].id
  }

  ghost predicate Valid(rows: seq<Event>)
  {
    GapFree(rows) && UniqueIds(rows)
  }

  lemma GapFreePrefix(rows: seq<Event>, n: nat)
    requires GapFree(rows) && n <= |rows|
    ensures GapFree(rows[..n])
  {
    forall i | 0 <= i < n ensures Numbered(rows[..n], i) {
      assert Numbered(rows, i) && rows[..n][..i] == rows[..i];
    }
  }

  /** The rows of a stream, in commit order, carry exactly the versions 1, 2, ..., n. */
  lemma {:induction false} StreamVersionsExact(rows: seq<Event>, stream: string)
    requires GapFree(rows)
    ensures forall k :: 0 <= k < |StreamRows(rows, stream)| ==> StreamRows(rows, stream)[k].version == k + 1
  {
    if rows != [] {
      var n := |rows| - 1;
      GapFreePrefix(rows, n);
      StreamVersionsExact(rows[..n], stream);
      assert Numbered(rows, n) && rows == rows[..n] + [rows[n]];
      FilterSnoc(rows[..n], rows[n], InStream(stream));
      var before, own := StreamRows(rows[..n], stream), StreamRows(rows, stream);
      forall k | 0 <= k < |own| ensures own[k].version == k + 1 {
        assert k < |before| ==> own[k] == before[k];
      }
    }
  }

  lemma {:induction false} NextVersionIsCount(rows: seq<Event>, stream: string)
    requires GapFree(rows)
    ensures NextVersion(rows, stream) == |StreamRows(rows, stream)| + 1
  {
    if rows != [] {
      var n := |rows| - 1;
      GapFreePrefix(rows, n);
      NextVersionIsCount(rows[..n], stream);
      assert Numbered(rows, n);
    }
  }

  lemma TakenIsRange(rows: seq<Event>, stream: string, v: int)
    requires GapFree(rows)
    ensures Taken(rows, stream, v) <==> 1 <= v <= |StreamRows(rows, stream)|
  {
    StreamVersionsExact(rows, stream);
    var own := StreamRows(rows, stream);
    if 1 <= v <= |own| {
      assert own[v - 1] in own;
    }
    if Taken(rows, stream, v) {
      var r :| r in rows && r.streamId == stream && r.version == v;
      assert r in own;
    }
  }

  lemma StreamRowsSplit(rows: seq<Event>, n: nat, stream: string)
    requires n <= |rows|
    ensures StreamRows(rows, stream) == StreamRows(rows[..n], stream) + StreamRows(rows[n..], stream)
  {
    assert rows == rows[..n] + rows[n..];
    FilterConcat(rows[..n], rows[n..], InStream(stream));
  }

  /** Some row of the stream was committed after the snapshot `rows[..snap]` was taken. */
  predicate Overtaken(rows: seq<Event>, snap: nat, stream: string)
    requires snap <= |rows|
  {
    exists r :: r in rows[snap..] && r.streamId == stream
  }

  /** The version the statement computed from its snapshot has been taken since, or was wrong all along. */
  predicate VersionTaken(rows: seq<Event>, snap: nat, stream: string)
    requires snap <= |rows|
  {
    Taken(rows, stream, NextVersion(rows[..snap], stream))
  }

  /** On a table Append built, only rows committed after the snapshot can have taken it. */
  lemma TakenIffOvertaken(rows: seq<Event>, snap: nat, stream: string)
    requires GapFree(rows) && snap <= |rows|
    ensures VersionTaken(rows, snap, stream) <==> Overtaken(rows, snap, stream)
    ensures !Overtaken(rows, snap, stream) ==> NextVersion(rows[..snap], stream) == |StreamRows(rows, stream)| + 1
  {
    var late := StreamRows(rows[snap..], stream);
    GapFreePrefix(rows, snap);
    NextVersionIsCount(rows[..snap], stream);
    StreamRowsSplit(rows, snap, stream);
    TakenIsRange(rows, stream, NextVersion(rows[..snap], stream));
    assert late != [] <==> Overtaken(rows, snap, stream) by {
      if late != [] {
        assert late[0] in late;
      }
    }
  }

  /**
   * Exactly when an INSERT of an unknown id succeeds: no row of its stream was committed after
   * its snapshot. It then gets the stream's row count plus one; otherwise the UNIQUE constraint stops it.
   */
  lemma CommitCharacterised(rows: seq<Event>, snap: nat, e: Event)
    requires GapFree(rows) && snap <= |rows|
    ensures Commit(rows, snap, e).Existing? <==> e.id in RowIds(rows)
    ensures Commit(rows, snap, e).Inserted? <==>
            e.id !in RowIds(rows) && !Overtaken(rows, snap, e.streamId)
    ensures Commit(rows, snap, e).Inserted? ==>
            Commit(rows, snap, e).row == e.(version := |StreamRows(rows, e.streamId)| + 1)
  {
    TakenIffOvertaken(rows, snap, e.streamId);
  }

  lemma GapFreeSnoc(rows: seq<Event>, row: Event)
    requires GapFree(rows) && row.version == |StreamRows(rows, row.streamId)| + 1
    ensures GapFree(rows + [row])
  {
    var after := rows + [row];
    forall i | 0 <= i < |after| ensures Numbered(after, i) {
      if i < |rows| {
        assert Numbered(rows, i) && after[..i] == rows[..i];
      } else {
        assert after[..i] == rows;
      }
    }
  }

  /** However stale the snapshot, a commit keeps versions gap-free and ids unique. */
  lemma CommitKeepsValid(rows: seq<Event>, snap: nat, e: Event)
    requires Valid(rows) && snap <= |rows|
    ensures Valid(RowsAfter(rows, Commit(rows, snap, e)))
  {
    CommitCharacterised(rows, snap, e);
    var out := Commit(rows, snap, e);
    if out.Inserted? {
      GapFreeSnoc(rows, out.row);
      assert forall r :: r in rows ==> r.id in RowIds(rows);
    }
  }

  /** Positions and versions order the rows of one stream alike. */
  lemma VersionsFollowCommits(rows: seq<Event>, i: nat, j: nat)
    requires GapFree(rows) && i < |rows| && j < |rows| && rows[i].streamId == rows[j].streamId
    ensures i < j <==> rows[i].version < rows[j].version
  {
    if i < j {
      CommitsRaiseVersions(rows, i, j);
    } else if j < i {
      CommitsRaiseVersions(rows, j, i);
    }
  }

  lemma CommitsRaiseVersions(rows: seq<Event>, i: nat, j: nat)
    requires GapFree(rows) && i < j < |rows| && rows[i].streamId == rows[j].streamId
    ensures rows[i].version < rows[j].version
  {
    var stream := rows[i].streamId;
    assert Numbered(rows, i) && Numbered(rows, j);
    assert rows[..j][..i + 1] == rows[..i] + [rows[i]];
    StreamRowsSplit(rows[..j], i + 1, stream);
    FilterSnoc(rows[..i], rows[i], InStream(stream));
  }

  lemma IdNamesRow(rows: seq<Event>, a: Event, b: Event)
    requires UniqueIds(rows) && a in rows && b in rows && a.id == b.id
    ensures a == b
  {}

  /** Any selection of one stream's rows, in commit order, has strictly rising versions. */
  lemma FilteredVersionsRise(rows: seq<Event>, p: Event -> bool, stream: string)
    requires GapFree(rows) && forall e :: p(e) ==> e.streamId == stream
    ensures forall i, j :: 0 <= i < j < |Filter(rows, p)| ==> Filter(rows, p)[i].version < Filter(rows, p)[j].version
  {
    var own := Filter(rows, p);
    var at := FilterPositions(rows, p);
    forall i, j | 0 <= i < j < |own| ensures own[i].version < own[j].version {
      assert own[i] in own && own[j] in own;
      CommitsRaiseVersions(rows, at[i], at[j]);
    }
  }

  lemma VersionNamesRow(rows: seq<Event>, a: Event, b: Event)
    requires GapFree(rows) && a in rows && b in rows && a.streamId == b.streamId && a.version == b.version
    ensures a == b
  {
    var i :| 0 <= i < |rows| && rows[i] == a;
    var j :| 0 <= j < |rows| && rows[j] == b;
    VersionsFollowCommits(rows, i, j);
    VersionsFollowCommits(rows, j, i);
  }

  lemma RowIdsSnoc(rows: seq<Event>, row: Event)
    ensures RowIds(rows + [row]) == RowIds(rows) + {row.id}
  {}

  // ----- Any table the two constraints admit -----

  /** The DDL's PRIMARY KEY and UNIQUE (stream_id, version). */
  ghost predicate Constrained(rows: seq<Event>)
  {
    && UniqueIds(rows)
    && forall i, j :: 0 <= i < j < |rows| && rows[i].streamId == rows[j].streamId ==> rows[i].version != rows[j].version
  }

  lemma ValidIsConstrained(rows: seq<Event>)
    requires Valid(rows)
    ensures Constrained(rows)
  {
    forall i, j | 0 <= i < j < |rows| && rows[i].streamId == rows[j].streamId
      ensures rows[i].version != rows[j].version
    {
      CommitsRaiseVersions(rows, i, j);
    }
  }

  lemma {:induction false} MaxVersionIsMax(rows: seq<Event>, stream: string)
    ensures match MaxVersion(rows, stream)
            case None => forall r :: r in rows ==> r.streamId != stream
            case Some(v) => Taken(rows, stream, v) && forall r :: r in rows && r.streamId == stream ==> r.version <= v
  {
    if rows != [] {
      var n := |rows| - 1;
      MaxVersionIsMax(rows[..n], stream);
      assert forall r :: r in rows <==> r in rows[..n] || r == rows[n];
    }
  }

  lemma CommitKeepsConstraints(rows: seq<Event>, snap: nat, e: Event)
    requires Constrained(rows) && snap <= |rows|
    ensures Constrained(RowsAfter(rows, Commit(rows, snap, e)))
  {
    var out := Commit(rows, snap, e);
    if out.Inserted? {
      forall i | 0 <= i < |rows|
        ensures rows[i].id != out.row.id
        ensures rows[i].streamId == out.row.streamId ==> rows[i].version != out.row.version
      {
        assert rows[i].id in RowIds(rows);
      }
    }
  }

  /** The statement's outcome on any such table: which row is stored for the id, and what is returned. */
  lemma CommitOutcome(rows: seq<Event>, snap: nat, e: Event)
    requires Constrained(rows) && snap <= |rows|
    ensures var out := Commit(rows, snap, e);
            var after := RowsAfter(rows, out);
            && Constrained(after)
            && (out.Existing? <==> e.id in RowIds(rows))
            && (out.Inserted? <==> e.id !in RowIds(rows) && !VersionTaken(rows, snap, e.streamId))
            && (out.Inserted? ==> out.row == e.(version := NextVersion(rows[..snap], e.streamId)))
            && (out.Inserted? ==> Lookup(after, e.id) == Some(out.row))
            && (out.Existing? ==> Lookup(after, e.id).Some? && Lookup(after, e.id).value.version == out.version)
  {
    CommitKeepsConstraints(rows, snap, e);
  }

  // ----- Other clients -----

  /** Another client's INSERT: its event, and the snapshot it took, as early as it likes. */
  datatype Statement = Statement(e: Event, snap: nat)

  /** The table after one statement of another client. */
  function AfterStatement(rows: seq<Event>, s: Statement): seq<Event>
  {
    RowsAfter(rows, Commit(rows, Min(s.snap, |rows|), s.e))
  }

  /** The table after other clients' statements have committed, one after the other. */
  function Meanwhile(rows: seq<Event>, stmts: seq<Statement>): seq<Event>
  {
    if stmts == [] then rows else AfterStatement(Meanwhile(rows, stmts[..|stmts| - 1]), stmts[|stmts| - 1])
  }

  function StatementIds(stmts: seq<Statement>): set<string>
  {
    set s | s in stmts :: s.e.id
  }

  /** Others keep the table valid, add rows at the end only, and only rows with ids of their own. */
  lemma {:induction false} MeanwhileFacts(rows: seq<Event>, stmts: seq<Statement>)
    requires Valid(rows)
    ensures Valid(Meanwhile(rows, stmts)) && rows <= Meanwhile(rows, stmts)
    ensures forall r :: r in Meanwhile(rows, stmts)[|rows|..] ==> r.id in StatementIds(stmts)
  {
    if stmts != [] {
      var n := |stmts| - 1;
      MeanwhileFacts(rows, stmts[..n]);
      var before := Meanwhile(rows, stmts[..n]);
      CommitKeepsValid(before, Min(stmts[n].snap, |before|), stmts[n].e);
      CommitCharacterised(before, Min(stmts[n].snap, |before|), stmts[n].e);
      assert StatementIds(stmts) == StatementIds(stmts[..n]) + {stmts[n].e.id};
    }
  }

  lemma NotAmongOthers(rows: seq<Event>, stmts: seq<Statement>, id: string)
    requires Valid(rows) && id !in RowIds(rows) && id !in StatementIds(stmts)
    ensures id !in RowIds(Meanwhile(rows, stmts))
  {
    MeanwhileFacts(rows, stmts);
    var after := Meanwhile(rows, stmts);
    assert after == rows + after[|rows|..];
  }
}
