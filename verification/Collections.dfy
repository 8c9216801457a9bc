/** Stock sequence functions: filtering, paging, and orders in which a sorted sequence is unique. */
module Collections {

  datatype Option<+T> = None | Some(value: T)

  datatype Result<+T, +E> = Ok(value: T) | Err(error: E)

  function Min(a: int, b: int): int { if a < b then a else b }

  function Max(a: int, b: int): int { if a < b then b else a }

  // ----- Elements -----

  function Elements<T(!new)>(s: seq<T>): (r: set<T>)
    ensures forall x :: x in r <==> x in s
  {
    set x | x in s
  }

  lemma {:induction false} DistinctCount<T(!new)>(s: seq<T>)
    requires forall i, j :: 0 <= i < j < |s| ==> s[i] != s[j]
    ensures |Elements(s)| == |s|
  {
    if s != [] {
      var n := |s| - 1;
      DistinctCount(s[..n]);
      assert Elements(s) == Elements(s[..n]) + {s[n]};
    }
  }

  lemma SubsetCount<T(!new)>(a: set<T>, b: set<T>)
    requires a <= b
    ensures |a| <= |b|
  {
    assert b == a + (b - a);
  }

  // ----- Filtering (from the end, so that appending a row is one unfolding) -----

  function Filter<T(!new)>(s: seq<T>, p: T -> bool): (r: seq<T>)
    ensures forall x :: x in r <==> x in s && p(x)
    ensures |r| <= |s|
  {
    if s == [] then [] else
    var x := s[|s| - 1];
    Filter(s[..|s| - 1], p) + if p(x) then [x] else []
  }

  lemma FilterSnoc<T(!new)>(s: seq<T>, x: T, p: T -> bool)
    ensures Filter(s + [x], p) == Filter(s, p) + if p(x) then [x] else []
  {}

  lemma {:induction false} FilterConcat<T(!new)>(a: seq<T>, b: seq<T>, p: T -> bool)
    ensures Filter(a + b, p) == Filter(a, p) + Filter(b, p)
  {
    if b == [] {
      assert a + b == a;
    } else {
      var front, x := b[..|b| - 1], b[|b| - 1];
      assert a + b == (a + front) + [x] && b == front + [x];
      FilterSnoc(a + front, x, p);
      FilterConcat(a, front, p);
    }
  }

  /** Selecting from a slice: what lies before position `k`, the element there, and nothing after it. */
  lemma FilterSlices<T(!new)>(s: seq<T>, from: nat, k: nat, to: nat, p: T -> bool)
    requires from <= k < to <= |s| && p(s[k]) && Filter(s[k + 1..to], p) == []
    ensures Filter(s[from..to], p) == Filter(s[from..k], p) + [s[k]]
  {
    assert s[from..to] == s[from..k] + [s[k]] + s[k + 1..to];
    FilterConcat(s[from..k] + [s[k]], s[k + 1..to], p);
    FilterSnoc(s[from..k], s[k], p);
  }

  lemma {:induction false} FilterAll<T(!new)>(s: seq<T>, p: T -> bool)
    requires forall x :: x in s ==> p(x)
    ensures Filter(s, p) == s
  {
    if s != [] {
      var front, last := s[..|s| - 1], s[|s| - 1];
      FilterAll(front, p);
      assert s == front + [last] && last in s;
      FilterSnoc(front, last, p);
    }
  }

  lemma {:induction false} FilterNone<T(!new)>(s: seq<T>, p: T -> bool)
    requires forall x :: x in s ==> !p(x)
    ensures Filter(s, p) == []
  {
    if s != [] {
      FilterNone(s[..|s| - 1], p);
    }
  }

  lemma {:induction false} FilterSame<T(!new)>(s: seq<T>, p: T -> bool, q: T -> bool)
    requires forall x :: x in s ==> p(x) == q(x)
    ensures Filter(s, p) == Filter(s, q)
  {
    if s != [] {
      FilterSame(s[..|s| - 1], p, q);
    }
  }

  /** A filtered sequence keeps the order: every two of its elements come from increasing positions. */
  lemma {:induction false} FilterPositions<T(!new)>(s: seq<T>, p: T -> bool) returns (at: seq<nat>)
    ensures |at| == |Filter(s, p)|
    ensures forall i :: 0 <= i < |at| ==> at[i] < |s| && s[at[i]] == Filter(s, p)[i]
    ensures forall i, j :: 0 <= i < j < |at| ==> at[i] < at[j]
  {
    if s == [] {
      at := [];
    } else {
      at := FilterPositions(s[..|s| - 1], p);
      if p(s[|s| - 1]) {
        at := at + [|s| - 1];
      }
    }
  }

  // ----- Paging -----

  /** The rows that OFFSET `offset` LIMIT `limit` keeps of `s`. */
  function Page<T>(s: seq<T>, offset: nat, limit: nat): (r: seq<T>)
    ensures |r| == Max(0, Min(limit, |s| - offset))
    ensures forall i :: 0 <= i < |r| ==> r[i] == s[offset + i]
  {
    if |s| <= offset then [] else s[offset..Min(|s|, offset + limit)]
  }

  /** A page shows elements of the list only, and the whole list if it starts it and is not full. */
  lemma PageShows<T(!new)>(s: seq<T>, offset: nat, limit: nat)
    ensures forall x :: x in Page(s, offset, limit) ==> x in s
    ensures offset == 0 && |Page(s, offset, limit)| < limit ==> Page(s, offset, limit) == s
  {
    forall x | x in Page(s, offset, limit) ensures x in s {
      var i :| 0 <= i < |Page(s, offset, limit)| && Page(s, offset, limit)[i] == x;
      assert s[offset + i] == x;
    }
  }

  function Flatten<T>(ss: seq<seq<T>>): seq<T>
  {
    if ss == [] then [] else Flatten(ss[..|ss| - 1]) + ss[|ss| - 1]
  }

  lemma PageExtends<T>(s: seq<T>, from: nat, limit: nat)
    ensures s[..Min(|s|, from)] + Page(s, from, limit) == s[..Min(|s|, from + limit)]
  {}

  /** The offset of the k-th page, k * limit, as a running sum. */
  function PageStart(k: nat, limit: nat): nat
  {
    if k == 0 then 0 else PageStart(k - 1, limit) + limit
  }

  lemma {:induction false} PageStartIsProduct(k: nat, limit: nat)
    ensures PageStart(k, limit) == k * limit
  {
    if k > 0 {
      PageStartIsProduct(k - 1, limit);
      assert k * limit == (k - 1) * limit + limit;
    }
  }

  /** Different pages are at least a page apart. */
  lemma {:induction false} PageStartApart(j: nat, k: nat, limit: nat)
    ensures j < k ==> PageStart(j, limit) + limit <= PageStart(k, limit)
    ensures k < j ==> PageStart(k, limit) + limit <= PageStart(j, limit)
  {
    if j + 1 < k {
      PageStartApart(j, k - 1, limit);
    } else if k + 1 < j {
      PageStartApart(j - 1, k, limit);
    }
  }

  lemma {:induction false} PageStartGrows(k: nat, limit: nat)
    requires limit >= 1
    ensures k <= PageStart(k, limit)
  {
    if k > 0 {
      PageStartGrows(k - 1, limit);
    }
  }

  /** `page` is the k-th page of `s`. */
  ghost predicate PageAt<T>(s: seq<T>, limit: nat, k: nat, page: seq<T>)
  {
    page == Page(s, PageStart(k, limit), limit)
  }

  lemma PageAtExtends<T>(s: seq<T>, limit: nat, k: nat, page: seq<T>)
    requires PageAt(s, limit, k, page)
    ensures s[..Min(|s|, PageStart(k, limit))] + page == s[..Min(|s|, PageStart(k + 1, limit))]
  {
    PageExtends(s, PageStart(k, limit), limit);
  }

  /** Reading page after page reads a prefix, each element once. */
  lemma {:induction false} PagesConcatenate<T>(s: seq<T>, limit: nat, pages: seq<seq<T>>)
    requires forall k :: 0 <= k < |pages| ==> PageAt(s, limit, k, pages[k])
    ensures Flatten(pages) == s[..Min(|s|, PageStart(|pages|, limit))]
  {
    if pages != [] {
      var n := |pages| - 1;
      PagesConcatenate(s, limit, pages[..n]);
      OnePageMore(s, limit, pages[..n], pages[n]);
      assert pages[..n] + [pages[n]] == pages;
    }
  }

  lemma OnePageMore<T>(s: seq<T>, limit: nat, read: seq<seq<T>>, page: seq<T>)
    requires Flatten(read) == s[..Min(|s|, PageStart(|read|, limit))] && PageAt(s, limit, |read|, page)
    ensures Flatten(read + [page]) == s[..Min(|s|, PageStart(|read| + 1, limit))]
  {
    PageAtExtends(s, limit, |read|, page);
  }

  // ----- Strict orders -----

  ghost predicate StrictOrder<T(!new)>(lt: (T, T) -> bool)
  {
    && (forall a :: !lt(a, a))
    && (forall a, b, c :: lt(a, b) && lt(b, c) ==> lt(a, c))
  }

  ghost predicate Ascending<T>(s: seq<T>, lt: (T, T) -> bool)
  {
    forall i, j :: 0 <= i < j < |s| ==> lt(s[i], s[j])
  }

  lemma PageAscends<T>(s: seq<T>, offset: nat, limit: nat, lt: (T, T) -> bool)
    requires Ascending(s, lt)
    ensures Ascending(Page(s, offset, limit), lt)
  {}

  /** Two strictly sorted sequences with the same elements are equal. */
  lemma {:induction false} AscendingUnique<T(!new)>(a: seq<T>, b: seq<T>, lt: (T, T) -> bool)
    requires StrictOrder(lt) && Ascending(a, lt) && Ascending(b, lt)
    requires forall x :: x in a <==> x in b
    ensures a == b
  {
    assert b == [] || b[0] in b;
    if a != [] {
      assert a[0] in a;
      var i :| 0 <= i < |b| && b[i] == a[0];
      var j :| 0 <= j < |a| && a[j] == b[0];
      assert i == 0;
      forall x ensures x in a[1..] <==> x in b[1..] {
        assert x in a <==> x == a[0] || x in a[1..];
        assert x in b <==> x == b[0] || x in b[1..];
      }
      AscendingUnique(a[1..], b[1..], lt);
    }
  }

  /** Inserts `e` into a sorted sequence. */
  function Place<T(!new)>(s: seq<T>, e: T, lt: (T, T) -> bool): (r: seq<T>)
    ensures forall x :: x in r <==> x in s || x == e
  {
    if s == [] || lt(s[|s| - 1], e) then s + [e]
    else Place(s[..|s| - 1], e, lt) + [s[|s| - 1]]
  }

  lemma {:induction false} PlaceAscending<T(!new)>(s: seq<T>, e: T, lt: (T, T) -> bool)
    requires StrictOrder(lt) && Ascending(s, lt) && forall x :: x in s ==> lt(x, e) || lt(e, x)
    ensures Ascending(Place(s, e, lt), lt)
  {
    if s != [] {
      var n := |s| - 1;
      if lt(s[n], e) {
        forall i | 0 <= i < n ensures lt(s[i], e) {
          assert lt(s[i], s[n]);
        }
      } else {
        PlaceAscending(s[..n], e, lt);
        var front := Place(s[..n], e, lt);
        forall i | 0 <= i < |front| ensures lt(front[i], s[n]) {
          assert front[i] in front;
        }
      }
    }
  }

  // ----- Lexicographic order of strings -----

  predicate Lex(a: string, b: string)
  {
    b != [] && (a == [] || a[0] < b[0] || (a[0] == b[0] && Lex(a[1..], b[1..])))
  }

  /** The order of Go's strings: by the first character that differs, and a proper prefix comes first. */
  lemma {:induction false} LexMeans(a: string, b: string)
    ensures Lex(a, b) <==>
            exists k: nat :: k <= |a| && k < |b| && a[..k] == b[..k] && (k == |a| || a[k] < b[k])
  {
    if Lex(a, b) {
      var k := LexDiffers(a, b);
    }
    if k: nat :| k <= |a| && k < |b| && a[..k] == b[..k] && (k == |a| || a[k] < b[k]) {
      DifferenceIsLex(a, b, k);
    }
  }

  lemma {:induction false} LexDiffers(a: string, b: string) returns (k: nat)
    requires Lex(a, b)
    ensures k <= |a| && k < |b| && a[..k] == b[..k] && (k == |a| || a[k] < b[k])
  {
    k := 0;
    if a != [] && a[0] == b[0] {
      var rest := LexDiffers(a[1..], b[1..]);
      k := rest + 1;
      assert a[..k] == [a[0]] + a[1..][..rest] && b[..k] == [b[0]] + b[1..][..rest];
    }
  }

  lemma {:induction false} DifferenceIsLex(a: string, b: string, k: nat)
    requires k <= |a| && k < |b| && a[..k] == b[..k] && (k == |a| || a[k] < b[k])
    ensures Lex(a, b)
  {
    if k > 0 {
      assert a[0] == a[..k][0] && b[0] == b[..k][0];
      assert a[1..][..k - 1] == a[..k][1..] && b[1..][..k - 1] == b[..k][1..];
      DifferenceIsLex(a[1..], b[1..], k - 1);
    }
  }

  lemma LexIrreflexive(a: string)
    ensures !Lex(a, a)
  {}

  lemma LexTransitive(a: string, b: string, c: string)
    requires Lex(a, b) && Lex(b, c)
    ensures Lex(a, c)
  {}

  lemma {:induction false} LexTotal(a: string, b: string)
    ensures Lex(a, b) || a == b || Lex(b, a)
  {
    if a != [] && b != [] && a[0] == b[0] {
      LexTotal(a[1..], b[1..]);
      assert a == [a[0]] + a[1..] && b == [b[0]] + b[1..];
    }
  }

  lemma LexStrict()
    ensures StrictOrder(Lex)
  {
    forall a: string ensures !Lex(a, a) {
      LexIrreflexive(a);
    }
    forall a: string, b: string, c: string | Lex(a, b) && Lex(b, c) ensures Lex(a, c) {
      LexTransitive(a, b, c);
    }
  }
}
