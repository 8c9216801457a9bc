/**
 * Reading a sorted list page by page while it grows: request k is answered from the k-th of a series of
 * lists, each holding all the elements of the one before it.
 */
module GrowingLists {
  import opened Collections

  lemma AscendingDistinct<T(!new)>(s: seq<T>, lt: (T, T) -> bool)
    requires StrictOrder(lt) && Ascending(s, lt)
    ensures forall i, j :: 0 <= i < j < |s| ==> s[i] != s[j]
  {
    forall i, j | 0 <= i < j < |s| ensures s[i] != s[j] {
      assert lt(s[i], s[j]);
    }
  }

  /** Where an element stands. */
  ghost function Pos<T(!new)>(s: seq<T>, x: T): (i: nat)
    requires x in s
    ensures i < |s| && s[i] == x
  {
    var i :| 0 <= i < |s| && s[i] == x;
    i
  }

  lemma PosUnique<T(!new)>(s: seq<T>, lt: (T, T) -> bool, i: nat)
    requires StrictOrder(lt) && Ascending(s, lt) && i < |s|
    ensures Pos(s, s[i]) == i
  {
    AscendingDistinct(s, lt);
  }

  /** The elements in front of position `i` are those that sort before the one there. */
  lemma FrontIsBefore<T(!new)>(s: seq<T>, lt: (T, T) -> bool, i: nat)
    requires StrictOrder(lt) && Ascending(s, lt) && i < |s|
    ensures forall x :: x in s[..i] <==> x in s && lt(x, s[i])
    ensures |Elements(s[..i])| == i
  {
    AscendingDistinct(s, lt);
    DistinctCount(s[..i]);
    forall j | 0 <= j < |s| ensures j < i <==> lt(s[j], s[i]) {
      if j == i {
        assert !lt(s[i], s[i]);
      } else if i < j {
        assert lt(s[i], s[j]) && !lt(s[i], s[i]);
      }
    }
  }

  /** A position counts the elements that sort before the one there. */
  lemma PosIsCount<T(!new)>(s: seq<T>, lt: (T, T) -> bool, x: T, before: set<T>)
    requires StrictOrder(lt) && Ascending(s, lt) && x in s
    requires forall e :: e in before <==> e in s && lt(e, x)
    ensures Pos(s, x) == |before|
  {
    FrontIsBefore(s, lt, Pos(s, x));
    assert before == Elements(s[..Pos(s, x)]);
  }

  /** In a list with more elements, no element stands further in front. */
  lemma PosRises<T(!new)>(a: seq<T>, b: seq<T>, lt: (T, T) -> bool, x: T)
    requires StrictOrder(lt) && Ascending(a, lt) && Ascending(b, lt)
    requires (forall e :: e in a ==> e in b) && x in a
    ensures Pos(a, x) <= Pos(b, x)
    ensures forall y :: y in b && y !in a && lt(y, x) ==> Pos(a, x) < Pos(b, x)
  {
    FrontIsBefore(a, lt, Pos(a, x));
    FrontIsBefore(b, lt, Pos(b, x));
    var front, later := Elements(a[..Pos(a, x)]), Elements(b[..Pos(b, x)]);
    SubsetCount(front, later);
    forall y | y in b && y !in a && lt(y, x) ensures Pos(a, x) < Pos(b, x) {
      SubsetCount(front + {y}, later);
    }
  }

  // ----- The reading -----

  ghost predicate Growing<T(!new)>(lists: seq<seq<T>>, lt: (T, T) -> bool)
  {
    && StrictOrder(lt)
    && (forall k :: 0 <= k < |lists| ==> Ascending(lists[k], lt))
    && (forall k :: 0 <= k < |lists| - 1 ==> KeepsAll(lists, k))
  }

  ghost predicate KeepsAll<T(!new)>(lists: seq<seq<T>>, k: nat)
    requires k + 1 < |lists|
  {
    forall x :: x in lists[k] ==> x in lists[k + 1]
  }

  /** Page k is read from list k. */
  ghost predicate Reads<T(!new)>(lists: seq<seq<T>>, limit: nat, pages: seq<seq<T>>)
  {
    |pages| == |lists| && forall k :: 0 <= k < |lists| ==> PageAt(lists[k], limit, k, pages[k])
  }

  /** The client asks for another page after a full one, and the last page reaches the end of its list. */
  ghost predicate ReadsToEnd<T(!new)>(lists: seq<seq<T>>, limit: nat, pages: seq<seq<T>>)
  {
    && limit >= 1 && lists != [] && Reads(lists, limit, pages)
    && (forall k :: 0 <= k < |pages| - 1 ==> |pages[k]| == limit)
    && |lists[|lists| - 1]| <= PageStart(|lists|, limit)
  }

  lemma OnPage<T(!new)>(s: seq<T>, lt: (T, T) -> bool, limit: nat, k: nat, page: seq<T>, x: T)
    requires StrictOrder(lt) && Ascending(s, lt) && PageAt(s, limit, k, page) && x in s
    ensures x in page <==> PageStart(k, limit) <= Pos(s, x) < PageStart(k + 1, limit)
  {
    AscendingDistinct(s, lt);
    var i, from := Pos(s, x), PageStart(k, limit);
    if from <= i < from + limit {
      assert page[i - from] == x;
    }
  }

  lemma PageHolds<T(!new)>(s: seq<T>, limit: nat, k: nat, page: seq<T>, x: T)
    requires PageAt(s, limit, k, page) && x in page
    ensures x in s
  {}

  /** An element not yet passed by the reading will be shown. */
  lemma {:induction false} ShownFrom<T(!new)>(lists: seq<seq<T>>, lt: (T, T) -> bool, limit: nat, pages: seq<seq<T>>,
                                              k: nat, x: T) returns (j: nat)
    requires Growing(lists, lt) && Reads(lists, limit, pages) && k < |lists| && x in lists[k]
    requires PageStart(k, limit) <= Pos(lists[k], x) && |lists[|lists| - 1]| <= PageStart(|lists|, limit)
    ensures k <= j < |pages| && x in pages[j]
    decreases |lists| - k
  {
    OnPage(lists[k], lt, limit, k, pages[k], x);
    if x in pages[k] {
      j := k;
    } else {
      assert KeepsAll(lists, k);
      PosRises(lists[k], lists[k + 1], lt, x);
      j := ShownFrom(lists, lt, limit, pages, k + 1, x);
    }
  }

  ghost predicate Shown<T(!new)>(pages: seq<seq<T>>, x: T)
  {
    exists j :: 0 <= j < |pages| && x in pages[j]
  }

  /** No element of the first list is lost. */
  lemma {:induction false} NoneLost<T(!new)>(lists: seq<seq<T>>, lt: (T, T) -> bool, limit: nat, pages: seq<seq<T>>)
    requires Growing(lists, lt) && ReadsToEnd(lists, limit, pages)
    ensures forall x :: x in lists[0] ==> Shown(pages, x)
  {
    forall x | x in lists[0] ensures Shown(pages, x) {
      var j := ShownFrom(lists, lt, limit, pages, 0, x);
    }
  }

  // ----- Repetitions -----

  /** Some element is on two pages. */
  ghost predicate Repeats<T(!new)>(pages: seq<seq<T>>)
  {
    exists i, j, x :: RepeatsAt(pages, i, j, x)
  }

  ghost predicate RepeatsAt<T(!new)>(pages: seq<seq<T>>, i: nat, j: nat, x: T)
  {
    i < j < |pages| && x in pages[i] && x in pages[j]
  }

  /** Before request k, `y` came in at a place the reading has already passed. */
  ghost predicate Overtakes<T(!new)>(lists: seq<seq<T>>, limit: nat, k: nat, y: T)
  {
    && 0 < k < |lists| && y in lists[k] && y !in lists[k - 1]
    && Pos(lists[k], y) < PageStart(k, limit)
  }

  /** Between two pages that show `x`, it was pushed past the start of some page. */
  lemma {:induction false} PushedPast<T(!new)>(lists: seq<seq<T>>, lt: (T, T) -> bool, limit: nat, i: nat, j: nat, x: T)
    returns (k: nat)
    requires Growing(lists, lt) && i < j < |lists| && x in lists[i] && x in lists[j]
    requires Pos(lists[i], x) < PageStart(i + 1, limit) && PageStart(j, limit) <= Pos(lists[j], x)
    ensures i < k <= j && x in lists[k - 1] && x in lists[k]
    ensures Pos(lists[k - 1], x) < PageStart(k, limit) <= Pos(lists[k], x)
    decreases j
  {
    StillThere(lists, lt, i, j - 1, x);
    if Pos(lists[j - 1], x) < PageStart(j, limit) {
      k := j;
    } else {
      k := PushedPast(lists, lt, limit, i, j - 1, x);
    }
  }

  lemma {:induction false} StillThere<T(!new)>(lists: seq<seq<T>>, lt: (T, T) -> bool, i: nat, j: nat, x: T)
    requires Growing(lists, lt) && i <= j < |lists| && x in lists[i]
    ensures x in lists[j]
    decreases j
  {
    if i < j {
      StillThere(lists, lt, i, j - 1, x);
      assert KeepsAll(lists, j - 1);
    }
  }

  /** What pushed it is a newcomer among the elements in front of that page. */
  lemma PushedByNewcomer<T(!new)>(a: seq<T>, b: seq<T>, lt: (T, T) -> bool, start: nat, x: T) returns (y: T)
    requires StrictOrder(lt) && Ascending(a, lt) && Ascending(b, lt)
    requires x in a && x in b && Pos(a, x) < start <= Pos(b, x)
    ensures y in b && y !in a && Pos(b, y) < start
  {
    FrontIsBefore(a, lt, Pos(a, x));
    FrontIsBefore(b, lt, Pos(b, x));
    AscendingDistinct(b, lt);
    DistinctCount(b[..start]);
    if forall i :: 0 <= i < start ==> b[i] in a {
      forall e | e in b[..start] ensures e in a[..Pos(a, x)] {
        var i :| 0 <= i < start && b[i] == e;
        assert b[i] in b[..Pos(b, x)];
      }
      SubsetCount(Elements(b[..start]), Elements(a[..Pos(a, x)]));
    }
    var i :| 0 <= i < start && b[i] !in a;
    PosUnique(b, lt, i);
    y := b[i];
  }

  /** A newcomer in front of page k pushes the last element of page k - 1 past its start. */
  lemma NewcomerPushes<T(!new)>(a: seq<T>, b: seq<T>, lt: (T, T) -> bool, start: nat, y: T)
    requires StrictOrder(lt) && Ascending(a, lt) && Ascending(b, lt) && forall e :: e in a ==> e in b
    requires 0 < start <= |a| && y in b && y !in a && Pos(b, y) < start
    ensures a[start - 1] in b && start <= Pos(b, a[start - 1])
  {
    var z := a[start - 1];
    PosUnique(a, lt, start - 1);
    PosRises(a, b, lt, z);
    if Pos(b, y) < Pos(b, z) {
      assert lt(b[Pos(b, y)], b[Pos(b, z)]);
    }
  }

  /**
   * Main result. Reading a growing list to its end, some element is shown twice iff before some request a
   * newcomer sorts in front of the page then asked for.
   */
  lemma {:induction false} RepeatsExactly<T(!new)>(lists: seq<seq<T>>, lt: (T, T) -> bool, limit: nat,
                                                   pages: seq<seq<T>>)
    requires Growing(lists, lt) && ReadsToEnd(lists, limit, pages)
    ensures Repeats(pages) <==> exists k, y :: Overtakes(lists, limit, k, y)
  {
    if i: nat, j: nat, x :| RepeatsAt(pages, i, j, x) {
      var k, y := RepeatedIsOvertaken(lists, lt, limit, pages, i, j, x);
    }
    if k: nat, y :| Overtakes(lists, limit, k, y) {
      var j, z := OvertakenIsRepeated(lists, lt, limit, pages, k, y);
    }
  }

  lemma RepeatedIsOvertaken<T(!new)>(lists: seq<seq<T>>, lt: (T, T) -> bool, limit: nat, pages: seq<seq<T>>,
                                     i: nat, j: nat, x: T) returns (k: nat, y: T)
    requires Growing(lists, lt) && Reads(lists, limit, pages) && RepeatsAt(pages, i, j, x)
    ensures Overtakes(lists, limit, k, y)
  {
    PageHolds(lists[i], limit, i, pages[i], x);
    PageHolds(lists[j], limit, j, pages[j], x);
    OnPage(lists[i], lt, limit, i, pages[i], x);
    OnPage(lists[j], lt, limit, j, pages[j], x);
    k := PushedPast(lists, lt, limit, i, j, x);
    y := PushedByNewcomer(lists[k - 1], lists[k], lt, PageStart(k, limit), x);
  }

  lemma OvertakenIsRepeated<T(!new)>(lists: seq<seq<T>>, lt: (T, T) -> bool, limit: nat, pages: seq<seq<T>>,
                                     k: nat, y: T) returns (j: nat, z: T)
    requires Growing(lists, lt) && ReadsToEnd(lists, limit, pages) && Overtakes(lists, limit, k, y)
    ensures RepeatsAt(pages, k - 1, j, z)
  {
    assert PageAt(lists[k - 1], limit, k - 1, pages[k - 1]) && KeepsAll(lists, k - 1);
    z := LastOfFull(lists[k - 1], limit, k - 1, pages[k - 1]);
    NewcomerPushes(lists[k - 1], lists[k], lt, PageStart(k, limit), y);
    j := ShownFrom(lists, lt, limit, pages, k, z);
  }

  /** The last element of a full page. */
  lemma LastOfFull<T(!new)>(s: seq<T>, limit: nat, k: nat, page: seq<T>) returns (z: T)
    requires limit >= 1 && PageAt(s, limit, k, page) && |page| == limit
    ensures 0 < PageStart(k + 1, limit) <= |s| && z == s[PageStart(k + 1, limit) - 1] && z in page
  {
    z := page[limit - 1];
  }

  // ----- Lists that grow at their end -----

  /** Every list is the one before it, and perhaps more behind. */
  ghost predicate AppendOnly<T(!new)>(lists: seq<seq<T>>)
  {
    forall k :: 0 <= k < |lists| - 1 ==> AppendedAt(lists, k)
  }

  ghost predicate AppendedAt<T(!new)>(lists: seq<seq<T>>, k: nat)
    requires k + 1 < |lists|
  {
    lists[k] <= lists[k + 1]
  }

  /** If newcomers always sort last, the pages show every element once, newcomers included. */
  lemma {:induction false} AppendOnlyReading<T(!new)>(lists: seq<seq<T>>, limit: nat, pages: seq<seq<T>>)
    requires ReadsToEnd(lists, limit, pages) && AppendOnly(lists)
    ensures Flatten(pages) == lists[|lists| - 1]
  {
    var n := |lists| - 1;
    forall k | 0 <= k < |pages| ensures PageAt(lists[n], limit, k, pages[k]) {
      PrefixOfLast(lists, k);
      if k < n {
        FullPageStays(lists[k], lists[n], limit, k, pages[k]);
      }
    }
    PagesConcatenate(lists[n], limit, pages);
    assert lists[n][..|lists[n]|] == lists[n];
  }

  lemma {:induction false} PrefixOfLast<T(!new)>(lists: seq<seq<T>>, k: nat)
    requires k < |lists| && AppendOnly(lists)
    ensures lists[k] <= lists[|lists| - 1]
    decreases |lists| - k
  {
    if k < |lists| - 1 {
      assert AppendedAt(lists, k);
      PrefixOfLast(lists, k + 1);
    }
  }

  lemma FullPageStays<T(!new)>(s: seq<T>, t: seq<T>, limit: nat, k: nat, page: seq<T>)
    requires s <= t && PageAt(s, limit, k, page) && |page| == limit
    ensures PageAt(t, limit, k, page)
  {}
}
