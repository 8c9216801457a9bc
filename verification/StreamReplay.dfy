/** The read-only replay Service (internal/application/replay/service.go, first half). */
module StreamReplay {
  import opened Collections
  import opened Events
  import opened Postgres
  import opened Sql
  import opened Versions

  ghost predicate Contiguous(evts: seq<Event>)
  {
    forall i :: 1 <= i < |evts| ==> evts[i].version == evts[i - 1].version + 1
  }

  /** `i` is the first position whose version does not follow its predecessor's. */
  ghost predicate FirstGap(evts: seq<Event>, i: nat)
  {
    && 1 <= i < |evts| && evts[i].version != evts[i - 1].version + 1
    && Contiguous(evts[..i])
  }

  /** The error names the first gap: the version that should follow, and the one found instead. */
  ghost predicate GapReported(own: seq<Event>, error: Error)
  {
    error.VersionGap? &&
    exists i: nat :: FirstGap(own, i) && error.missing == own[i - 1].version + 1 && error.found == own[i].version
  }

  method ValidateContiguous(evts: seq<Event>) returns (gap: Option<Error>)
    ensures gap.None? <==> Contiguous(evts)
    ensures gap.Some? ==> GapReported(evts, gap.value)
  {
    var i := 1;
    while i < |evts|
      invariant 1 <= i && (i <= |evts| ==> Contiguous(evts[..i]))
      invariant |evts| < i ==> |evts| == 0 && i == 1
    {
      var prev, curr := evts[i - 1].version, evts[i].version;
      if curr != prev + 1 {
        assert FirstGap(evts, i);
        return Some(VersionGap(prev + 1, curr));
      }
      assert evts[..i + 1] == evts[..i] + [evts[i]];
      i := i + 1;
    }
    assert i == |evts| ==> evts[..i] == evts;
    gap := None;
  }

  /** Another tenant's row of the stream lies strictly between two rows the caller reads. */
  ghost predicate ForeignBetween(rows: seq<Event>, tenantId: string, stream: string, from: int)
  {
    exists a, x, b :: ForeignAt(rows, tenantId, stream, from, a, x, b)
  }

  ghost predicate ForeignAt(rows: seq<Event>, tenantId: string, stream: string, from: int, a: Event, x: Event, b: Event)
  {
    && a in rows && x in rows && b in rows
    && FromVersion(Some(tenantId), stream, from)(a) && FromVersion(Some(tenantId), stream, from)(b)
    && x.streamId == stream && x.tenantId != tenantId
    && a.version < x.version < b.version
  }

  lemma {:induction false} ContiguousCounts(evts: seq<Event>, i: nat)
    requires Contiguous(evts) && i < |evts|
    ensures evts[i].version == evts[0].version + i
  {
    if i > 0 {
      ContiguousCounts(evts, i - 1);
    }
  }

  /** A gap in what the caller reads is filled by another tenant's row. */
  lemma GapIsForeign(rows: seq<Event>, tenantId: string, stream: string, from: int, i: nat)
    requires GapFree(rows) && tenantId != ""
    requires FirstGap(Filter(rows, FromVersion(Some(tenantId), stream, from)), i)
    ensures ForeignBetween(rows, tenantId, stream, from)
    ensures exists x :: x in rows && x.streamId == stream && x.tenantId != tenantId
              && x.version == Filter(rows, FromVersion(Some(tenantId), stream, from))[i - 1].version + 1
  {
    var p := FromVersion(Some(tenantId), stream, from);
    var own := Filter(rows, p);
    FilteredVersionsRise(rows, p, stream);
    assert own[i - 1] in own && own[i] in own;
    var v := own[i - 1].version + 1;
    assert Taken(rows, stream, own[i - 1].version) && Taken(rows, stream, own[i].version);
    TakenIsRange(rows, stream, own[i - 1].version);
    TakenIsRange(rows, stream, own[i].version);
    TakenIsRange(rows, stream, v);
    var x :| x in rows && x.streamId == stream && x.version == v;
    assert x !in own by {
      forall k | 0 <= k < |own| ensures own[k].version != v {
        assert k <= i - 1 || i <= k;
      }
    }
    assert ForeignAt(rows, tenantId, stream, from, own[i - 1], x, own[i]);
  }

  /** What the caller reads has a version gap exactly when another tenant shares the stream in between. */
  lemma ContiguousExact(rows: seq<Event>, tenantId: string, stream: string, from: int)
    requires GapFree(rows) && tenantId != ""
    ensures Contiguous(Filter(rows, FromVersion(Some(tenantId), stream, from)))
            <==> !ForeignBetween(rows, tenantId, stream, from)
  {
    var p := FromVersion(Some(tenantId), stream, from);
    var own := Filter(rows, p);
    if !Contiguous(own) {
      var i := LeastGap(own);
      GapIsForeign(rows, tenantId, stream, from, i);
    } else if ForeignBetween(rows, tenantId, stream, from) {
      var a, x, b :| ForeignAt(rows, tenantId, stream, from, a, x, b);
      assert a in own && b in own;
      var i :| 0 <= i < |own| && own[i] == a;
      var j :| 0 <= j < |own| && own[j] == b;
      ContiguousCounts(own, i);
      ContiguousCounts(own, j);
      var k := x.version - own[0].version;
      ContiguousCounts(own, k);
      assert own[k] in own;
      VersionNamesRow(rows, x, own[k]);
      assert false;
    }
  }

  lemma {:induction false} LeastGap(evts: seq<Event>) returns (i: nat)
    requires !Contiguous(evts)
    ensures FirstGap(evts, i)
  {
    var j :| 1 <= j < |evts| && evts[j].version != evts[j - 1].version + 1;
    if Contiguous(evts[..j]) {
      i := j;
    } else {
      i := LeastGap(evts[..j]);
      assert evts[..j][..i] == evts[..i];
    }
  }

  /** A row of another tenant holds this version of the stream. */
  ghost predicate ForeignHolds(rows: seq<Event>, tenantId: string, stream: string, version: int)
  {
    exists x :: x in rows && x.streamId == stream && x.tenantId != tenantId && x.version == version
  }

  /** A tenant with a stream of its own reads exactly the versions from the one asked for up to the last. */
  lemma VersionsAskedFor(rows: seq<Event>, tenantId: string, stream: string, from: int)
    requires GapFree(rows) && tenantId != ""
    requires forall e :: e in rows && e.streamId == stream ==> e.tenantId == tenantId
    ensures var own, first := Filter(rows, FromVersion(Some(tenantId), stream, from)), Max(1, from);
            && |own| == Max(0, |StreamRows(rows, stream)| + 1 - first)
            && forall i :: 0 <= i < |own| ==> own[i].version == first + i
    ensures !ForeignBetween(rows, tenantId, stream, from)
  {
    var own := Filter(rows, FromVersion(Some(tenantId), stream, from));
    var first, n := Max(1, from), |StreamRows(rows, stream)|;
    ContiguousExact(rows, tenantId, stream, from);
    forall i | 0 <= i < |own| ensures first <= own[i].version <= n {
      assert own[i] in own && Taken(rows, stream, own[i].version);
      TakenIsRange(rows, stream, own[i].version);
    }
    assert own != [] ==> first <= own[0].version <= n;
    if first <= n {
      var i := HoldsVersion(rows, tenantId, stream, from, first);
      var j := HoldsVersion(rows, tenantId, stream, from, n);
      WholeRange(own, first, n, i, j);
    }
  }

  /** Contiguous versions that include both ends of a range and nothing outside are the range. */
  lemma WholeRange(evts: seq<Event>, first: int, last: int, i: nat, j: nat)
    requires Contiguous(evts) && i < |evts| && j < |evts| && evts[i].version == first && evts[j].version == last
    requires forall k :: 0 <= k < |evts| ==> first <= evts[k].version <= last
    ensures |evts| == last - first + 1 && forall k :: 0 <= k < |evts| ==> evts[k].version == first + k
  {
    forall k | 0 <= k < |evts| ensures evts[k].version == evts[0].version + k {
      ContiguousCounts(evts, k);
    }
    assert evts[0].version >= first && evts[|evts| - 1].version <= last;
  }

  /** Where a version of the stream is in what the tenant reads. */
  lemma HoldsVersion(rows: seq<Event>, tenantId: string, stream: string, from: int, v: int) returns (i: nat)
    requires GapFree(rows) && tenantId != "" && Max(1, from) <= v <= |StreamRows(rows, stream)|
    requires forall e :: e in rows && e.streamId == stream ==> e.tenantId == tenantId
    ensures var own := Filter(rows, FromVersion(Some(tenantId), stream, from)); i < |own| && own[i].version == v
  {
    TakenIsRange(rows, stream, v);
    var own := Filter(rows, FromVersion(Some(tenantId), stream, from));
    var e :| e in rows && e.streamId == stream && e.version == v;
    assert e in own;
    i :| 0 <= i < |own| && own[i] == e;
  }

  predicate Accepted(identity: Option<string>, streamId: string, fromVersion: int)
  {
    Authenticated(identity) && streamId != "" && fromVersion >= 0
  }

  lemma ReportedGapIsForeign(rows: seq<Event>, tenantId: string, stream: string, from: int, error: Error)
    requires GapFree(rows) && tenantId != ""
    requires GapReported(Filter(rows, FromVersion(Some(tenantId), stream, from)), error)
    ensures ForeignHolds(rows, tenantId, stream, error.missing)
  {
    var own := Filter(rows, FromVersion(Some(tenantId), stream, from));
    var i: nat :| FirstGap(own, i) && error.missing == own[i - 1].version + 1 && error.found == own[i].version;
    GapIsForeign(rows, tenantId, stream, from, i);
  }

  class Service {
    const store: EventStore

    constructor (store: EventStore)
      ensures this.store == store
    {
      this.store := store;
    }

    /**
     * On any table, `own` is what the store lists: the call returns it if its versions are contiguous
     * and otherwise names its first gap. On a table that Append built, a gap means that a row of
     * another tenant lies between two of the caller's, and holds the version called missing.
     */
    method Replay(identity: Option<string>, streamId: string, fromVersion: int, up: bool)
      returns (r: Result<seq<Event>, Error>, ghost own: seq<Event>)
      requires UniqueIds(store.rows)
      ensures r == Err(Unauthenticated) <==> identity.None? || identity.value == ""
      ensures r == Err(InvalidArgument) <==>
              identity.Some? && identity.value != "" && (streamId == "" || fromVersion < 0)
      ensures r == Err(Unavailable) <==> Accepted(identity, streamId, fromVersion) && !up
      ensures Accepted(identity, streamId, fromVersion) && up ==>
              && IsOrdering(ByVersion, store.rows, FromVersion(identity, streamId, fromVersion), own)
              && if Contiguous(own) then r == Ok(own) else r.Err? && GapReported(own, r.error)
      ensures Valid(store.rows) && Accepted(identity, streamId, fromVersion) && up ==>
              && own == Filter(store.rows, FromVersion(identity, streamId, fromVersion))
              && (r.Ok? <==> !ForeignBetween(store.rows, identity.value, streamId, fromVersion))
              && (r.Err? ==> r.error.VersionGap? && ForeignHolds(store.rows, identity.value, streamId, r.error.missing))
      ensures r.Ok? ==> forall e :: e in r.value <==>
                e in store.rows && e.streamId == streamId && fromVersion <= e.version && e.tenantId == identity.value
      ensures Valid(store.rows) && Accepted(identity, streamId, fromVersion) && up
              && (forall e :: e in store.rows && e.streamId == streamId ==> e.tenantId == identity.value)
              ==> && r.Ok? && |r.value| == Max(0, |StreamRows(store.rows, streamId)| + 1 - Max(1, fromVersion))
                  && forall i :: 0 <= i < |r.value| ==> r.value[i].version == Max(1, fromVersion) + i
    {
      own := [];
      if !Authenticated(identity) {
        return Err(Unauthenticated), own;
      }
      if streamId == "" {
        return Err(InvalidArgument), own;
      }
      if fromVersion < 0 {
        return Err(InvalidArgument), own;
      }
      var events := store.GetFromVersion(identity, streamId, fromVersion, up);
      if events.Err? {
        return Err(Unavailable), own;
      }
      own := events.value;
      if Valid(store.rows) && forall e :: e in store.rows && e.streamId == streamId ==> e.tenantId == identity.value {
        VersionsAskedFor(store.rows, identity.value, streamId, fromVersion);
      }
      assert identity == Some(identity.value);
      if Valid(store.rows) {
        ContiguousExact(store.rows, identity.value, streamId, fromVersion);
      }
      var gap := ValidateContiguous(events.value);
      if gap.Some? {
        if Valid(store.rows) {
          ReportedGapIsForeign(store.rows, identity.value, streamId, fromVersion, gap.value);
        }
        return Err(gap.value), own;
      }
      r := events;
    }
  }
}
