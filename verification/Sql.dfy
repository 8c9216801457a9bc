/**
 * What a SELECT ... ORDER BY ... LIMIT ... OFFSET may answer. SQL leaves the order of rows with
 * equal keys open, so an answer is any page of any legal ordering of the matching rows.
 */
module Sql {
  import opened Collections
  import opened Events
  import opened Versions

  datatype Order = ByVersion | OccurredAsc | OccurredDesc

  function Key(o: Order, e: Event): int
  {
    match o
    case ByVersion => e.version
    case OccurredAsc => e.occurredAt
    case OccurredDesc => -e.occurredAt
  }

  ghost predicate Ordered(o: Order, s: seq<Event>)
  {
    forall i, j :: 0 <= i < j < |s| ==> Key(o, s[i]) <= Key(o, s[j])
  }

  /** `full` lists every matching row once, in a legal order. */
  ghost predicate IsOrdering(o: Order, rows: seq<Event>, p: Event -> bool, full: seq<Event>)
  {
    && Ordered(o, full)
    && UniqueIds(full)
    && |full| == |Filter(rows, p)|
    && forall e :: e in full <==> e in rows && p(e)
  }

  /** The database's sort; which of the rows with equal keys comes first is no part of its contract. */
  function Sort(o: Order, s: seq<Event>): seq<Event>
  {
    if s == [] then [] else Insert(o, Sort(o, s[..|s| - 1]), s[|s| - 1])
  }

  function Insert(o: Order, s: seq<Event>, e: Event): (r: seq<Event>)
    ensures |r| == |s| + 1
    ensures forall x :: x in r <==> x in s || x == e
  {
    if s == [] || Key(o, s[|s| - 1]) <= Key(o, e) then s + [e]
    else Insert(o, s[..|s| - 1], e) + [s[|s| - 1]]
  }

  lemma OrderedSnoc(o: Order, s: seq<Event>, e: Event)
    requires Ordered(o, s) && forall x :: x in s ==> Key(o, x) <= Key(o, e)
    ensures Ordered(o, s + [e])
  {}

  lemma OrderedFront(o: Order, s: seq<Event>)
    requires Ordered(o, s) && s != []
    ensures Ordered(o, s[..|s| - 1]) && forall x :: x in s ==> Key(o, x) <= Key(o, s[|s| - 1])
  {}

  lemma {:induction false} InsertKeepsOrder(o: Order, s: seq<Event>, e: Event)
    requires Ordered(o, s)
    ensures Ordered(o, Insert(o, s, e))
  {
    if s == [] {
      OrderedSnoc(o, s, e);
    } else {
      var n := |s| - 1;
      OrderedFront(o, s);
      if Key(o, s[n]) <= Key(o, e) {
        OrderedSnoc(o, s, e);
      } else {
        InsertKeepsOrder(o, s[..n], e);
        OrderedSnoc(o, Insert(o, s[..n], e), s[n]);
      }
    }
  }

  lemma {:induction false} InsertKeepsIds(o: Order, s: seq<Event>, e: Event)
    requires UniqueIds(s) && forall x :: x in s ==> x.id != e.id
    ensures UniqueIds(Insert(o, s, e))
  {
    if s != [] && Key(o, e) < Key(o, s[|s| - 1]) {
      var n := |s| - 1;
      InsertKeepsIds(o, s[..n], e);
      var front := Insert(o, s[..n], e);
      forall x | x in front ensures x.id != s[n].id {}
      assert forall i :: 0 <= i < |front| ==> front[i] in front;
    }
  }

  lemma {:induction false} SortOrders(o: Order, s: seq<Event>)
    requires UniqueIds(s)
    ensures |Sort(o, s)| == |s| && Ordered(o, Sort(o, s)) && UniqueIds(Sort(o, s))
    ensures forall x :: x in Sort(o, s) <==> x in s
  {
    if s != [] {
      var n := |s| - 1;
      SortOrders(o, s[..n]);
      InsertKeepsOrder(o, Sort(o, s[..n]), s[n]);
      InsertKeepsIds(o, Sort(o, s[..n]), s[n]);
      assert forall x :: x in s <==> x in s[..n] || x == s[n];
    }
  }

  lemma FilterUniqueIds(rows: seq<Event>, p: Event -> bool)
    requires UniqueIds(rows)
    ensures UniqueIds(Filter(rows, p))
  {
    var at := FilterPositions(rows, p);
  }

  lemma SortIsOrdering(o: Order, rows: seq<Event>, p: Event -> bool)
    requires UniqueIds(rows)
    ensures IsOrdering(o, rows, p, Sort(o, Filter(rows, p)))
  {
    FilterUniqueIds(rows, p);
    SortOrders(o, Filter(rows, p));
  }

  // ----- When the order is determined -----

  ghost predicate DistinctKeys(o: Order, rows: seq<Event>, p: Event -> bool)
  {
    forall a, b :: a in rows && p(a) && b in rows && p(b) && Key(o, a) == Key(o, b) ==> a == b
  }

  /** With distinct keys there is only one legal ordering. */
  lemma OrderingUnique(o: Order, rows: seq<Event>, p: Event -> bool, a: seq<Event>, b: seq<Event>)
    requires IsOrdering(o, rows, p, a) && IsOrdering(o, rows, p, b)
    requires DistinctKeys(o, rows, p)
    ensures a == b
  {
    var lt := (x: Event, y: Event) => Key(o, x) < Key(o, y);
    assert Ascending(a, lt) && Ascending(b, lt) by {
      forall s: seq<Event>, i, j | (s == a || s == b) && 0 <= i < j < |s| ensures lt(s[i], s[j]) {
        assert s[i] in s && s[j] in s && s[i].id != s[j].id;
      }
    }
    AscendingUnique(a, b, lt);
  }

  /** On one stream of a valid table, ORDER BY version lists the rows in commit order. */
  lemma VersionOrderIsCommitOrder(rows: seq<Event>, p: Event -> bool, stream: string, full: seq<Event>)
    requires Valid(rows) && forall e :: p(e) ==> e.streamId == stream
    requires IsOrdering(ByVersion, rows, p, full)
    ensures full == Filter(rows, p)
  {
    FilterUniqueIds(rows, p);
    FilteredVersionsRise(rows, p, stream);
    assert DistinctKeys(ByVersion, rows, p) by {
      forall a, b | a in rows && p(a) && b in rows && p(b) && a.version == b.version ensures a == b {
        VersionNamesRow(rows, a, b);
      }
    }
    OrderingUnique(ByVersion, rows, p, full, Filter(rows, p));
  }

  // ----- Reading a list page by page -----

  /** The pages a client sees, each possibly answered under a different legal ordering. */
  ghost predicate ArePages(o: Order, rows: seq<Event>, p: Event -> bool, limit: nat, pages: seq<seq<Event>>)
  {
    forall k :: 0 <= k < |pages| ==> IsPage(o, rows, p, limit, k, pages[k])
  }

  ghost predicate IsPage(o: Order, rows: seq<Event>, p: Event -> bool, limit: nat, k: nat, page: seq<Event>)
  {
    exists full :: IsOrdering(o, rows, p, full) && page == Page(full, PageStart(k, limit), limit)
  }

  /** Enough pages to reach the end of the list. */
  ghost predicate ReachesEnd(rows: seq<Event>, p: Event -> bool, limit: nat, pages: seq<seq<Event>>)
  {
    |Filter(rows, p)| <= PageStart(|pages|, limit)
  }

  /** At position `n` of an ordering, no run of equal keys is cut in two. */
  predicate CleanCut(o: Order, full: seq<Event>, n: nat)
  {
    0 < n < |full| ==> Key(o, full[n - 1]) != Key(o, full[n])
  }

  /** No page boundary cuts a run of equal keys in two. */
  ghost predicate CleanPages(o: Order, full: seq<Event>, limit: nat)
  {
    forall k: nat :: CleanCut(o, full, PageStart(k, limit))
  }

  lemma ElementsCount(s: seq<Event>)
    requires UniqueIds(s)
    ensures |Elements(s)| == |s|
  {
    DistinctCount(s);
  }

  /** In an ordering, exactly the first `n` rows have a key below the one at a clean cut. */
  lemma BelowCut(o: Order, full: seq<Event>, n: nat)
    requires Ordered(o, full) && n < |full| && CleanCut(o, full, n)
    ensures forall i :: 0 <= i < |full| ==> (i < n <==> Key(o, full[i]) < Key(o, full[n]))
  {}

  /** The rows with a key below `bound` are a prefix of every ordering, of their number's length. */
  lemma {:induction false} PrefixBelow(o: Order, s: seq<Event>, bound: int, below: set<Event>)
    requires Ordered(o, s) && UniqueIds(s)
    requires forall e :: e in below <==> e in s && Key(o, e) < bound
    ensures |below| <= |s| && Elements(s[..|below|]) == below
  {
    if s == [] {
      assert below == {};
    } else {
      var n := |s| - 1;
      if Key(o, s[n]) < bound {
        assert forall i :: 0 <= i < |s| ==> Key(o, s[i]) <= Key(o, s[n]);
        assert below == Elements(s);
        ElementsCount(s);
        assert s[..|s|] == s;
      } else {
        PrefixBelow(o, s[..n], bound, below);
        assert s[..n][..|below|] == s[..|below|];
      }
    }
  }

  /** A clean cut of one ordering cuts every ordering into the same two sets of rows. */
  lemma {:induction false} SameCut(o: Order, rows: seq<Event>, p: Event -> bool, a: seq<Event>, b: seq<Event>, n: nat)
    requires IsOrdering(o, rows, p, a) && IsOrdering(o, rows, p, b)
    requires n <= |a| && CleanCut(o, a, n)
    ensures |a| == |b| && Elements(a[..n]) == Elements(b[..n])
  {
    if n == |a| {
      assert a[..n] == a && b[..n] == b;
    } else {
      BelowCut(o, a, n);
      var below := Elements(a[..n]);
      ElementsCount(a[..n]);
      assert forall e :: e in below <==> e in b && Key(o, e) < Key(o, a[n]);
      PrefixBelow(o, b, Key(o, a[n]), below);
    }
  }

  /** The rows after a cut are those that are not before it. */
  lemma AfterCut(s: seq<Event>, n: nat)
    requires UniqueIds(s) && n <= |s|
    ensures forall e :: e in s[n..] <==> e in s && e !in s[..n]
  {
    assert s == s[..n] + s[n..];
    forall i, j | 0 <= i < n <= j < |s| ensures s[i] != s[j] {
      assert s[i].id != s[j].id;
    }
  }

  /** Two orderings may be joined at a clean cut. */
  lemma {:induction false} Splice(o: Order, rows: seq<Event>, p: Event -> bool, a: seq<Event>, b: seq<Event>, n: nat)
    requires IsOrdering(o, rows, p, a) && IsOrdering(o, rows, p, b)
    requires n <= |a| && CleanCut(o, a, n)
    ensures n <= |b| && IsOrdering(o, rows, p, a[..n] + b[n..])
  {
    SameCut(o, rows, p, a, b, n);
    AfterCut(a, n);
    AfterCut(b, n);
    var front, back := a[..n], b[n..];
    assert forall e :: e in back <==> e in a[n..];
    forall i, j | 0 <= i < |front| && 0 <= j < |back|
      ensures front[i].id != back[j].id && Key(o, front[i]) <= Key(o, back[j])
    {
      assert back[j] in a[n..];
      var k :| n <= k < |a| && a[k] == back[j];
      assert a[i].id != a[k].id;
    }
  }

  /** All legal orderings have the same keys in the same places. */
  lemma {:induction false} OrderingsAgreeOnKeys(o: Order, rows: seq<Event>, p: Event -> bool, a: seq<Event>,
                                                b: seq<Event>)
    requires IsOrdering(o, rows, p, a) && IsOrdering(o, rows, p, b)
    ensures |a| == |b| && forall i :: 0 <= i < |a| ==> Key(o, a[i]) == Key(o, b[i])
  {
    forall i | 0 <= i < |a| ensures Key(o, a[i]) == Key(o, b[i]) {
      KeyNotBelow(o, rows, p, a, b, i);
      KeyNotBelow(o, rows, p, b, a, i);
    }
  }

  lemma {:induction false} KeyNotBelow(o: Order, rows: seq<Event>, p: Event -> bool, a: seq<Event>, b: seq<Event>,
                                       i: nat)
    requires IsOrdering(o, rows, p, a) && IsOrdering(o, rows, p, b) && i < |a|
    ensures Key(o, b[i]) <= Key(o, a[i])
  {
    var below := set e | e in b && Key(o, e) < Key(o, b[i]);
    PrefixBelow(o, a, Key(o, b[i]), below);
    PrefixBelow(o, b, Key(o, b[i]), below);
  }

  lemma CleanForAll(o: Order, rows: seq<Event>, p: Event -> bool, full: seq<Event>, other: seq<Event>, limit: nat)
    requires IsOrdering(o, rows, p, full) && IsOrdering(o, rows, p, other) && CleanPages(o, full, limit)
    ensures CleanPages(o, other, limit)
  {
    OrderingsAgreeOnKeys(o, rows, p, full, other);
    forall k: nat ensures CleanCut(o, other, PageStart(k, limit)) {
      assert CleanCut(o, full, PageStart(k, limit));
    }
  }

  /** Splicing at the start of page `k`, or at the end of the list if that comes first. */
  lemma SpliceAtPage(o: Order, rows: seq<Event>, p: Event -> bool, full: seq<Event>, limit: nat, k: nat,
                     a: seq<Event>, b: seq<Event>)
    requires IsOrdering(o, rows, p, full) && CleanPages(o, full, limit)
    requires IsOrdering(o, rows, p, a) && IsOrdering(o, rows, p, b)
    ensures var n := Min(|full|, PageStart(k, limit));
            n <= |a| && n <= |b| && IsOrdering(o, rows, p, a[..n] + b[n..])
  {
    CleanForAll(o, rows, p, full, a, limit);
    assert CleanCut(o, a, PageStart(k, limit));
    Splice(o, rows, p, a, b, Min(|full|, PageStart(k, limit)));
  }

  lemma JoinPages(begun: seq<Event>, answer: seq<Event>, full: seq<Event>, from: nat, to: nat)
    requires from <= to <= |full| && |begun| == |answer| == |full|
    ensures var joined := begun[..from] + answer[from..];
            joined[..to] + full[to..] == begun[..from] + answer[from..to] + full[to..]
  {}

  /**
   * If no page boundary cuts a run of equal keys, the pages read so far, each answered under an
   * ordering of its own, still begin a legal ordering.
   */
  lemma {:induction false} PagesBeginOrdering(o: Order, rows: seq<Event>, p: Event -> bool, limit: nat,
                                              pages: seq<seq<Event>>, full: seq<Event>)
    requires IsOrdering(o, rows, p, full) && CleanPages(o, full, limit)
    requires ArePages(o, rows, p, limit, pages)
    ensures var n := Min(|full|, PageStart(|pages|, limit));
            |Flatten(pages)| == n && IsOrdering(o, rows, p, Flatten(pages) + full[n..])
  {
    if pages == [] {
      assert full == [] + full[0..];
    } else {
      var k := |pages| - 1;
      PagesBeginOrdering(o, rows, p, limit, pages[..k], full);
      PageContinues(o, rows, p, limit, k, Flatten(pages[..k]), pages[k], full);
      assert Flatten(pages) == Flatten(pages[..k]) + pages[k];
    }
  }

  lemma {:induction false} PageContinues(o: Order, rows: seq<Event>, p: Event -> bool, limit: nat, k: nat,
                                       read: seq<Event>, page: seq<Event>, full: seq<Event>)
    requires IsOrdering(o, rows, p, full) && CleanPages(o, full, limit) && IsPage(o, rows, p, limit, k, page)
    requires var from := Min(|full|, PageStart(k, limit));
             |read| == from && IsOrdering(o, rows, p, read + full[from..])
    ensures var to := Min(|full|, PageStart(k + 1, limit));
            |read + page| == to && IsOrdering(o, rows, p, read + page + full[to..])
  {
    var from, to := Min(|full|, PageStart(k, limit)), Min(|full|, PageStart(k + 1, limit));
    var answer :| IsOrdering(o, rows, p, answer) && page == Page(answer, PageStart(k, limit), limit);
    TwoSplices(o, rows, p, limit, k, read + full[from..], answer, full);
    PageBetween(answer, limit, k);
    JoinRead(read, answer, full, from, to);
  }

  lemma JoinRead(read: seq<Event>, answer: seq<Event>, full: seq<Event>, from: nat, to: nat)
    requires |read| == from <= to <= |full| == |answer|
    ensures (read + full[from..])[..from] == read && |read + answer[from..to]| == to
  {}

  /** The page's rows from `answer`, between what `begun` has before it and what `full` has after it. */
  lemma TwoSplices(o: Order, rows: seq<Event>, p: Event -> bool, limit: nat, k: nat,
                   begun: seq<Event>, answer: seq<Event>, full: seq<Event>)
    requires IsOrdering(o, rows, p, full) && CleanPages(o, full, limit)
    requires IsOrdering(o, rows, p, begun) && IsOrdering(o, rows, p, answer)
    ensures var from, to := Min(|full|, PageStart(k, limit)), Min(|full|, PageStart(k + 1, limit));
            |begun| == |answer| == |full| && IsOrdering(o, rows, p, begun[..from] + answer[from..to] + full[to..])
  {
    var from, to := Min(|full|, PageStart(k, limit)), Min(|full|, PageStart(k + 1, limit));
    SpliceAtPage(o, rows, p, full, limit, k, begun, answer);
    SpliceAtPage(o, rows, p, full, limit, k + 1, begun[..from] + answer[from..], full);
    JoinPages(begun, answer, full, from, to);
  }

  lemma PageBetween(s: seq<Event>, limit: nat, k: nat)
    ensures Page(s, PageStart(k, limit), limit) == s[Min(|s|, PageStart(k, limit))..Min(|s|, PageStart(k + 1, limit))]
  {}

  /** `b` is `a` with the rows at `i` and `i + 1` exchanged. */
  predicate Swapped(a: seq<Event>, b: seq<Event>, i: nat)
  {
    && i + 1 < |a| == |b| && b[i] == a[i + 1] && b[i + 1] == a[i]
    && forall k :: 0 <= k < |a| && k != i && k != i + 1 ==> b[k] == a[k]
  }

  /** Two neighbours with equal keys may be swapped. */
  lemma SwapTied(o: Order, rows: seq<Event>, p: Event -> bool, full: seq<Event>, i: nat) returns (swapped: seq<Event>)
    requires IsOrdering(o, rows, p, full) && i + 1 < |full| && Key(o, full[i]) == Key(o, full[i + 1])
    ensures Swapped(full, swapped, i) && IsOrdering(o, rows, p, swapped)
  {
    swapped := full[i := full[i + 1]][i + 1 := full[i]];
    assert forall k :: 0 <= k < |full| ==> Key(o, swapped[k]) == Key(o, full[k]);
    forall e ensures e in swapped <==> e in full {
      if e in full {
        var k :| 0 <= k < |full| && full[k] == e;
        assert swapped[if k == i then i + 1 else if k == i + 1 then i else k] == e;
      }
    }
  }

  lemma {:induction false} FlattenElements(pages: seq<seq<Event>>, e: Event)
    ensures e in Flatten(pages) <==> exists k :: 0 <= k < |pages| && e in pages[k]
  {
    if pages != [] {
      FlattenElements(pages[..|pages| - 1], e);
    }
  }

  /** The pages of a client when page `k` alone is answered under `swapped`. */
  function MixedPages(full: seq<Event>, swapped: seq<Event>, limit: nat, k: nat, count: nat): (pages: seq<seq<Event>>)
    ensures |pages| == count
    ensures forall j :: 0 <= j < count ==>
              pages[j] == Page(if j == k then swapped else full, PageStart(j, limit), limit)
  {
    seq(count, j requires 0 <= j < count => Page(if j == k then swapped else full, PageStart(j, limit), limit))
  }

  /** Where a row stands decides on which page it is shown. */
  lemma OnPage(full: seq<Event>, limit: nat, j: nat, c: nat)
    requires UniqueIds(full) && c < |full|
    ensures full[c] in Page(full, PageStart(j, limit), limit) <==>
            PageStart(j, limit) <= c < PageStart(j, limit) + limit
  {
    var page := Page(full, PageStart(j, limit), limit);
    if PageStart(j, limit) <= c < PageStart(j, limit) + limit {
      assert page[c - PageStart(j, limit)] == full[c];
    }
  }

  /** The row swapped forward across the start of page `k` is on no page. */
  lemma SwappedAway(full: seq<Event>, swapped: seq<Event>, limit: nat, k: nat, j: nat)
    requires UniqueIds(full) && UniqueIds(swapped)
    requires 0 < PageStart(k, limit) && Swapped(full, swapped, PageStart(k, limit) - 1)
    ensures full[PageStart(k, limit)] !in Page(if j == k then swapped else full, PageStart(j, limit), limit)
  {
    var c := PageStart(k, limit);
    PageStartApart(j, k, limit);
    if j == k {
      OnPage(swapped, limit, j, c - 1);
    } else {
      OnPage(full, limit, j, c);
    }
  }

  /** The row swapped back across the start of page `k` is on that page and on the one before. */
  lemma SwappedTwice(full: seq<Event>, swapped: seq<Event>, limit: nat, k: nat)
    requires UniqueIds(full) && UniqueIds(swapped) && limit >= 1 && k > 0
    requires 0 < PageStart(k, limit) && Swapped(full, swapped, PageStart(k, limit) - 1)
    ensures full[PageStart(k, limit) - 1] in Page(full, PageStart(k - 1, limit), limit)
    ensures full[PageStart(k, limit) - 1] in Page(swapped, PageStart(k, limit), limit)
  {
    var c := PageStart(k, limit);
    OnPage(full, limit, k - 1, c - 1);
    OnPage(swapped, limit, k, c);
  }

  /**
   * With equal keys on both sides of the start of page `k`, that page may be answered under an
   * ordering with the two rows swapped: one row is then shown on two pages and the other on none.
   */
  lemma {:induction false} TiesBreakPaging(o: Order, rows: seq<Event>, p: Event -> bool, limit: nat, full: seq<Event>,
                                           k: nat, count: nat)
    returns (pages: seq<seq<Event>>, twice: Event, never: Event)
    requires IsOrdering(o, rows, p, full) && limit >= 1 && 0 < k < count
    requires !CleanCut(o, full, PageStart(k, limit))
    ensures |pages| == count && ArePages(o, rows, p, limit, pages)
    ensures twice in pages[k - 1] && twice in pages[k]
    ensures never in rows && p(never) && forall j :: 0 <= j < count ==> never !in pages[j]
    ensures !IsOrdering(o, rows, p, Flatten(pages))
  {
    var c := PageStart(k, limit);
    var swapped := SwapTied(o, rows, p, full, c - 1);
    SwappedTwice(full, swapped, limit, k);
    pages := MixedPages(full, swapped, limit, k, count);
    twice, never := full[c - 1], full[c];
    assert never in full;
    forall j | 0 <= j < count ensures never !in pages[j] && IsPage(o, rows, p, limit, j, pages[j]) {
      SwappedAway(full, swapped, limit, k, j);
      var ordering := if j == k then swapped else full;
      assert IsOrdering(o, rows, p, ordering) && pages[j] == Page(ordering, PageStart(j, limit), limit);
    }
    FlattenElements(pages, never);
  }

  /**
   * Main result. For every page size and any one legal ordering of the matches: paging shows each
   * match exactly once under every legal answer iff no page boundary cuts a run of equal keys.
   */
  lemma {:induction false} PagingSafeExactly(o: Order, rows: seq<Event>, p: Event -> bool, limit: nat, full: seq<Event>)
    requires IsOrdering(o, rows, p, full) && limit >= 1
    ensures CleanPages(o, full, limit) <==>
            forall pages :: ReachesEnd(rows, p, limit, pages) && ArePages(o, rows, p, limit, pages)
                            ==> IsOrdering(o, rows, p, Flatten(pages))
  {
    if CleanPages(o, full, limit) {
      forall pages | ReachesEnd(rows, p, limit, pages) && ArePages(o, rows, p, limit, pages)
        ensures IsOrdering(o, rows, p, Flatten(pages))
      {
        PagesBeginOrdering(o, rows, p, limit, pages, full);
        assert Flatten(pages) + full[|full|..] == Flatten(pages);
      }
    } else {
      var k: nat :| !CleanCut(o, full, PageStart(k, limit));
      var count := Max(k + 1, |full|);
      var pages, _, _ := TiesBreakPaging(o, rows, p, limit, full, k, count);
      PageStartGrows(count, limit);
      assert ReachesEnd(rows, p, limit, pages);
    }
  }

  lemma DistinctMeansClean(o: Order, rows: seq<Event>, p: Event -> bool, full: seq<Event>, limit: nat)
    requires IsOrdering(o, rows, p, full) && DistinctKeys(o, rows, p)
    ensures CleanPages(o, full, limit)
  {
    forall k: nat ensures CleanCut(o, full, PageStart(k, limit)) {
      var n := PageStart(k, limit);
      if 0 < n < |full| {
        assert full[n - 1] in full && full[n] in full && full[n - 1].id != full[n].id;
      }
    }
  }

  /** Distinct keys are enough for every page size. */
  lemma {:induction false} PagesPartition(o: Order, rows: seq<Event>, p: Event -> bool, limit: nat,
                                          pages: seq<seq<Event>>)
    requires UniqueIds(rows) && DistinctKeys(o, rows, p)
    requires ReachesEnd(rows, p, limit, pages) && ArePages(o, rows, p, limit, pages)
    ensures IsOrdering(o, rows, p, Flatten(pages))
  {
    var full := Sort(o, Filter(rows, p));
    SortIsOrdering(o, rows, p);
    DistinctMeansClean(o, rows, p, full, limit);
    PagesBeginOrdering(o, rows, p, limit, pages, full);
    assert Flatten(pages) + full[|full|..] == Flatten(pages);
  }

  /** What fits on one page has no boundary inside, so it is safe whatever its ties. */
  lemma OnePageIsSafe(o: Order, full: seq<Event>, limit: nat)
    requires |full| <= limit
    ensures CleanPages(o, full, limit)
  {
    forall k: nat ensures CleanCut(o, full, PageStart(k, limit)) {
      PageStartApart(0, k, limit);
    }
  }

  lemma NeighbourTied(o: Order, s: seq<Event>, k: nat, l: nat)
    requires Ordered(o, s) && k < l < |s| && Key(o, s[k]) == Key(o, s[l])
    ensures !CleanCut(o, s, k + 1)
  {}

  /** Read one row per page, a list has clean boundaries only if its keys are distinct. */
  lemma {:induction false} SinglePagesExactly(o: Order, rows: seq<Event>, p: Event -> bool, full: seq<Event>)
    requires IsOrdering(o, rows, p, full)
    ensures CleanPages(o, full, 1) <==> DistinctKeys(o, rows, p)
  {
    if DistinctKeys(o, rows, p) {
      DistinctMeansClean(o, rows, p, full, 1);
    } else {
      var a, b :| a in rows && p(a) && b in rows && p(b) && Key(o, a) == Key(o, b) && a != b;
      TieNotClean(o, full, a, b);
    }
  }

  lemma TieNotClean(o: Order, full: seq<Event>, a: Event, b: Event)
    requires Ordered(o, full) && a in full && b in full && a != b && Key(o, a) == Key(o, b)
    ensures !CleanPages(o, full, 1)
  {
    var i :| 0 <= i < |full| && full[i] == a;
    var j :| 0 <= j < |full| && full[j] == b;
    var k := Min(i, j);
    NeighbourTied(o, full, k, Max(i, j));
    PageStartIsProduct(k + 1, 1);
    assert !CleanCut(o, full, PageStart(k + 1, 1));
  }
}
