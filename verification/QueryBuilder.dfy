/**
 * The two query builders of internal/infrastructure/postgres/store.go, which compile a filter into
 * clauses over numbered placeholders and an argument list. Clauses are kept as syntax and evaluated
 * against the arguments, so that a misnumbered placeholder would change the meaning of the query.
 */
module QueryBuilder {
  import opened Collections
  import opened Events

  datatype Column =
    | IdText | TenantId | StreamId | Version | CorrelationId | CausationId | Kind | ActorId | OccurredAt

  datatype Value = Text(s: string) | Timestamp(t: Time) | Number(n: int) | Missing

  datatype Operator = Equal | AtLeast | AtMost

  /** `col op $ph`, or `col IN ($p1,$p2,...)`. */
  datatype Clause =
    | Compare(col: Column, op: Operator, ph: nat)
    | In(col: Column, phs: seq<nat>)

  function Cell(row: Event, col: Column): Value
  {
    match col
    case IdText => Text(row.id)
    case TenantId => Text(row.tenantId)
    case StreamId => Text(row.streamId)
    case Version => Number(row.version)
    case CorrelationId => Text(row.correlationId)
    case CausationId => Text(row.causationId)
    case Kind => Text(row.kind)
    case ActorId => Text(row.actorId)
    case OccurredAt => Timestamp(row.occurredAt)
  }

  /** The argument bound to `$n`. */
  function Arg(args: seq<Value>, n: nat): Value
  {
    if 1 <= n <= |args| then args[n - 1] else Missing
  }

  predicate Test(op: Operator, cell: Value, v: Value)
  {
    match op
    case Equal => cell == v
    case AtLeast => (cell.Timestamp? && v.Timestamp? && cell.t >= v.t) || (cell.Number? && v.Number? && cell.n >= v.n)
    case AtMost => (cell.Timestamp? && v.Timestamp? && cell.t <= v.t) || (cell.Number? && v.Number? && cell.n <= v.n)
  }

  predicate Holds(c: Clause, args: seq<Value>, row: Event)
  {
    match c
    case Compare(col, op, ph) => Test(op, Cell(row, col), Arg(args, ph))
    case In(col, phs) => exists n :: n in phs && Cell(row, col) == Arg(args, n)
  }

  /** strings.Join(clauses, " AND "). */
  predicate AllHold(clauses: seq<Clause>, args: seq<Value>, row: Event)
  {
    forall i :: 0 <= i < |clauses| ==> Holds(clauses[i], args, row)
  }

  function Placeholders(c: Clause): seq<nat>
  {
    match c
    case Compare(_, _, ph) => [ph]
    case In(_, phs) => phs
  }

  function AllPlaceholders(clauses: seq<Clause>): seq<nat>
  {
    if clauses == [] then [] else
    AllPlaceholders(clauses[..|clauses| - 1]) + Placeholders(clauses[|clauses| - 1])
  }

  /** $1, $2, ..., $n. */
  function Counting(n: nat): (r: seq<nat>)
    ensures |r| == n && forall i :: 0 <= i < n ==> r[i] == i + 1
  {
    if n == 0 then [] else Counting(n - 1) + [n]
  }

  /** The clauses mean `p`, and their placeholders, read left to right, are $1..$|args|, each once. */
  ghost predicate Compiles(clauses: seq<Clause>, args: seq<Value>, p: Event -> bool)
  {
    && AllPlaceholders(clauses) == Counting(|args|)
    && forall row {:trigger AllHold(clauses, args, row)} :: AllHold(clauses, args, row) == p(row)
  }

  lemma {:induction false} PlaceholdersIn(clauses: seq<Clause>, i: nat)
    requires i < |clauses|
    ensures forall n :: n in Placeholders(clauses[i]) ==> n in AllPlaceholders(clauses)
  {
    var last := |clauses| - 1;
    if i < last {
      PlaceholdersIn(clauses[..last], i);
    }
  }

  /** Adding arguments does not disturb the clauses already built. */
  lemma {:induction false} OldClausesStable(clauses: seq<Clause>, args: seq<Value>, more: seq<Value>, row: Event)
    requires AllPlaceholders(clauses) == Counting(|args|)
    ensures AllHold(clauses, args + more, row) == AllHold(clauses, args, row)
  {
    forall i | 0 <= i < |clauses|
      ensures Holds(clauses[i], args + more, row) == Holds(clauses[i], args, row)
    {
      PlaceholdersIn(clauses, i);
      forall n | n in Placeholders(clauses[i]) ensures Arg(args + more, n) == Arg(args, n) {
        assert n in Counting(|args|);
      }
    }
  }

  lemma AddComparison(clauses: seq<Clause>, args: seq<Value>, col: Column, op: Operator, v: Value,
                      p: Event -> bool, q: Event -> bool)
    requires Compiles(clauses, args, p)
    requires forall row :: q(row) == (p(row) && Test(op, Cell(row, col), v))
    ensures Compiles(clauses + [Compare(col, op, |args| + 1)], args + [v], q)
  {
    var c := Compare(col, op, |args| + 1);
    assert (clauses + [c])[..|clauses|] == clauses;
    assert AllPlaceholders(clauses + [c]) == Counting(|args| + 1);
    forall row ensures AllHold(clauses + [c], args + [v], row) == q(row) {
      OldClausesStable(clauses, args, [v], row);
      var all := clauses + [c];
      assert Holds(c, args + [v], row) == Test(op, Cell(row, col), v);
      assert forall i :: 0 <= i < |clauses| ==> all[i] == clauses[i];
      assert all[|clauses|] == c;
    }
  }

  /** The builder's two growing slices and counter. */
  datatype Builder = Builder(clauses: seq<Clause>, args: seq<Value>, argIdx: nat)

  ghost predicate Built(b: Builder, p: Event -> bool)
  {
    b.argIdx == |b.args| + 1 && Compiles(b.clauses, b.args, p)
  }

  /**
   * One `if` block of the builders: when the field is set, append a comparison with the next
   * placeholder, append its argument, and count up. `p` is what the clauses meant before, `q` after.
   */
  method AddIfSet(isSet: bool, b: Builder, col: Column, op: Operator, v: Value,
                  ghost p: Event -> bool, ghost q: Event -> bool) returns (r: Builder)
    requires Built(b, p)
    requires forall row :: q(row) == (p(row) && (!isSet || Test(op, Cell(row, col), v)))
    ensures Built(r, q)
  {
    r := b;
    if isSet {
      AddComparison(b.clauses, b.args, col, op, v, p, q);
      r := Builder(r.clauses + [Compare(col, op, r.argIdx)], r.args + [v], r.argIdx + 1);
    }
  }

  // ----- QueryForReplay -----

  datatype ReplayFilter = ReplayFilter(
    tenantId: string, streamId: string, correlationId: string, eventType: string, actorId: string,
    fromTime: Time, toTime: Time, eventIds: seq<string>)

  predicate TextField(wanted: string, actual: string)
  {
    wanted == "" || actual == wanted
  }

  /** Which rows a filter asks for, read directly from its fields. */
  predicate Matches(f: ReplayFilter, row: Event)
  {
    if f.eventIds != [] then
      row.id in f.eventIds && TextField(f.tenantId, row.tenantId)
    else
      && row.tenantId == f.tenantId
      && TextField(f.streamId, row.streamId)
      && TextField(f.correlationId, row.correlationId)
      && TextField(f.eventType, row.kind)
      && TextField(f.actorId, row.actorId)
      && (f.fromTime == ZERO_TIME || f.fromTime <= row.occurredAt)
      && (f.toTime == ZERO_TIME || row.occurredAt <= f.toTime)
  }

  function Matching(f: ReplayFilter): Event -> bool
  {
    (row: Event) => Matches(f, row)
  }

  ghost function MatchesStreamAndType(f: ReplayFilter): Event -> bool
  {
    (row: Event) =>
      && row.tenantId == f.tenantId
      && TextField(f.streamId, row.streamId)
      && TextField(f.correlationId, row.correlationId)
      && TextField(f.eventType, row.kind)
  }

  /** The branch without event ids: the tenant, then each optional field. */
  method BuildStreamClauses(f: ReplayFilter) returns (b: Builder)
    ensures Built(b, MatchesStreamAndType(f))
  {
    ghost var p0 := (row: Event) => true;
    ghost var p1 := (row: Event) => row.tenantId == f.tenantId;
    ghost var p2 := (row: Event) => p1(row) && TextField(f.streamId, row.streamId);
    ghost var p3 := (row: Event) => p2(row) && TextField(f.correlationId, row.correlationId);
    b := AddIfSet(true, Builder([], [], 1), TenantId, Equal, Text(f.tenantId), p0, p1);
    b := AddIfSet(f.streamId != "", b, StreamId, Equal, Text(f.streamId), p1, p2);
    b := AddIfSet(f.correlationId != "", b, CorrelationId, Equal, Text(f.correlationId), p2, p3);
    b := AddIfSet(f.eventType != "", b, Kind, Equal, Text(f.eventType), p3, MatchesStreamAndType(f));
  }

  method BuildFieldClauses(f: ReplayFilter) returns (b: Builder)
    requires f.eventIds == []
    ensures Built(b, Matching(f))
  {
    ghost var p4 := MatchesStreamAndType(f);
    ghost var p5 := (row: Event) => p4(row) && TextField(f.actorId, row.actorId);
    ghost var p6 := (row: Event) => p5(row) && (f.fromTime == ZERO_TIME || f.fromTime <= row.occurredAt);
    b := BuildStreamClauses(f);
    b := AddIfSet(f.actorId != "", b, ActorId, Equal, Text(f.actorId), p4, p5);
    b := AddIfSet(f.fromTime != ZERO_TIME, b, OccurredAt, AtLeast, Timestamp(f.fromTime), p5, p6);
    b := AddIfSet(f.toTime != ZERO_TIME, b, OccurredAt, AtMost, Timestamp(f.toTime), p6, Matching(f));
  }

  /** The branch with event ids, which override every other field but the tenant. */
  method BuildIdClauses(f: ReplayFilter) returns (b: Builder)
    requires f.eventIds != []
    ensures Built(b, Matching(f))
  {
    var phs: seq<nat>, args: seq<Value>, argIdx: nat := [], [], 1;
    for i := 0 to |f.eventIds|
      invariant argIdx == i + 1 && |args| == i && phs == Counting(i)
      invariant forall j :: 0 <= j < i ==> args[j] == Text(f.eventIds[j])
    {
      phs := phs + [argIdx];
      args := args + [Text(f.eventIds[i])];
      argIdx := argIdx + 1;
    }
    ghost var byId := (row: Event) => row.id in f.eventIds;
    IdListCompiles(f.eventIds, args, byId);
    b := Builder([In(IdText, phs)], args, argIdx);
    b := AddIfSet(f.tenantId != "", b, TenantId, Equal, Text(f.tenantId), byId, Matching(f));
  }

  /**
   * The WHERE part of QueryForReplay: the clauses mean exactly the filter, every placeholder is
   * used once, in order, and the error is exactly the missing tenant.
   */
  method BuildReplayQuery(f: ReplayFilter) returns (r: Result<Builder, Error>)
    ensures r.Err? <==> f.eventIds == [] && f.tenantId == ""
    ensures r.Err? ==> r.error == InvalidArgument
    ensures r.Ok? ==> Built(r.value, Matching(f))
  {
    var b: Builder;
    if f.eventIds != [] {
      b := BuildIdClauses(f);
    } else {
      if f.tenantId == "" {
        return Err(InvalidArgument);
      }
      b := BuildFieldClauses(f);
    }
    r := Ok(b);
  }

  lemma OneClause(c: Clause, args: seq<Value>, row: Event)
    ensures AllHold([c], args, row) == Holds(c, args, row)
    ensures AllPlaceholders([c]) == Placeholders(c)
  {
    assert [c][0] == c && [c][..0] == [];
  }

  lemma IdListHolds(ids: seq<string>, args: seq<Value>, row: Event)
    requires |args| == |ids| && forall j :: 0 <= j < |ids| ==> args[j] == Text(ids[j])
    ensures Holds(In(IdText, Counting(|ids|)), args, row) == (row.id in ids)
  {
    if row.id in ids {
      var j :| 0 <= j < |ids| && ids[j] == row.id;
      assert Counting(|ids|)[j] in Counting(|ids|) && Arg(args, j + 1) == Text(row.id);
    }
  }

  lemma {:induction false} IdListCompiles(ids: seq<string>, args: seq<Value>, byId: Event -> bool)
    requires |args| == |ids| && forall j :: 0 <= j < |ids| ==> args[j] == Text(ids[j])
    requires forall row :: byId(row) == (row.id in ids)
    ensures Compiles([In(IdText, Counting(|ids|))], args, byId)
  {
    var c := In(IdText, Counting(|ids|));
    forall row ensures AllHold([c], args, row) == byId(row) && AllPlaceholders([c]) == Counting(|ids|) {
      OneClause(c, args, row);
      IdListHolds(ids, args, row);
    }
  }

  // ----- ListTimeline -----

  function InTimeline(tenantId: string, fromTime: Time, toTime: Time): Event -> bool
  {
    (row: Event) =>
      && row.tenantId == tenantId
      && (fromTime == ZERO_TIME || fromTime <= row.occurredAt)
      && (toTime == ZERO_TIME || row.occurredAt <= toTime)
  }

  /** The WHERE part of ListTimeline; argIdx and argIdx + 1 are then free for LIMIT and OFFSET. */
  method BuildTimelineQuery(tenantId: string, fromTime: Time, toTime: Time) returns (b: Builder)
    ensures Built(b, InTimeline(tenantId, fromTime, toTime))
  {
    ghost var all := (row: Event) => true;
    b := AddIfSet(true, Builder([], [], 1), TenantId, Equal, Text(tenantId),
                  all, InTimeline(tenantId, ZERO_TIME, ZERO_TIME));
    b := AddIfSet(fromTime != ZERO_TIME, b, OccurredAt, AtLeast, Timestamp(fromTime),
                  InTimeline(tenantId, ZERO_TIME, ZERO_TIME), InTimeline(tenantId, fromTime, ZERO_TIME));
    b := AddIfSet(toTime != ZERO_TIME, b, OccurredAt, AtMost, Timestamp(toTime),
                  InTimeline(tenantId, fromTime, ZERO_TIME), InTimeline(tenantId, fromTime, toTime));
  }
}
