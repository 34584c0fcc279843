/**
 * The LINQ operators the repositories compose into database queries:
 * `Where`, `OrderBy`/`OrderByDescending` on an integer key, and
 * `Skip`/`Take` paging. A table is a sequence of rows in storage order.
 */
module Queries {
  import opened Common

  /** `Where(p)`: the rows satisfying `p`, each as often as in `s`, in their order. */
  function Where<T(!new)>(s: seq<T>, p: T -> bool): (r: seq<T>)
    ensures forall x :: multiset(r)[x] == if p(x) then multiset(s)[x] else 0
    ensures forall x :: x in r <==> x in s && p(x)
    ensures |r| <= |s|
  {
    if |s| == 0 then []
    else
      var rest := Where(s[1..], p);
      assert s == [s[0]] + s[1..];
      if p(s[0]) then [s[0]] + rest else rest
  }

  /** `Where` decides the head of a non-empty sequence and filters the tail. */
  lemma WhereStep<T(!new)>(s: seq<T>, p: T -> bool)
    requires |s| > 0
    ensures Where(s, p) == (if p(s[0]) then [s[0]] else []) + Where(s[1..], p)
  {
  }

  /** Filtering a concatenation filters each part, in order. */
  lemma {:induction false} WhereConcat<T(!new)>(s: seq<T>, t: seq<T>, p: T -> bool)
    ensures Where(s + t, p) == Where(s, p) + Where(t, p)
    decreases |s|
  {
    if |s| == 0 {
      assert s + t == t;
    } else {
      var u := s[1..];
      var head := if p(s[0]) then [s[0]] else [];
      assert (s + t)[0] == s[0] && (s + t)[1..] == u + t;
      WhereStep(s + t, p);
      WhereStep(s, p);
      WhereConcat(u, t, p);
      AppendAssociative(head, Where(u, p), Where(t, p));
    }
  }

  lemma AppendAssociative<T>(a: seq<T>, b: seq<T>, c: seq<T>)
    ensures a + (b + c) == (a + b) + c
  {
  }

  /** A sequence nothing is a member of is empty. */
  lemma NothingInIsEmpty<T>(s: seq<T>)
    requires forall x :: x !in s
    ensures s == []
  {
    assert forall x :: multiset(s)[x] == 0 by {
      forall x ensures multiset(s)[x] == 0 {
        assert x !in s;
      }
    }
    assert multiset(s) == multiset{};
    assert |s| == |multiset(s)|;
  }

  /** A filter every element passes keeps the sequence whole. */
  lemma {:induction false} WhereAll<T(!new)>(s: seq<T>, p: T -> bool)
    requires forall i :: 0 <= i < |s| ==> p(s[i])
    ensures Where(s, p) == s
    decreases |s|
  {
    if |s| > 0 {
      assert forall i :: 0 <= i < |s[1..]| ==> s[1..][i] == s[i + 1];
      WhereAll(s[1..], p);
      assert s == [s[0]] + s[1..];
    }
  }

  /** A filter no element passes leaves nothing. */
  lemma WhereNone<T(!new)>(s: seq<T>, p: T -> bool)
    requires forall i :: 0 <= i < |s| ==> !p(s[i])
    ensures Where(s, p) == []
  {
  }

  predicate SortedBy<T>(s: seq<T>, key: T -> int)
  {
    forall i, j :: 0 <= i < j < |s| ==> key(s[i]) <= key(s[j])
  }

  predicate SortedByDescending<T>(s: seq<T>, key: T -> int)
  {
    forall i, j :: 0 <= i < j < |s| ==> key(s[i]) >= key(s[j])
  }

  /** Inserts `x` before the first element whose key is not smaller. */
  function InsertBy<T(!new)>(x: T, s: seq<T>, key: T -> int): (r: seq<T>)
    requires SortedBy(s, key)
    ensures SortedBy(r, key)
    ensures multiset(r) == multiset(s) + multiset{x}
    ensures forall y :: y in r ==> y == x || y in s
  {
    if |s| == 0 then [x]
    else if key(x) <= key(s[0]) then [x] + s
    else
      assert s == [s[0]] + s[1..];
      var rest := InsertBy(x, s[1..], key);
      assert forall i :: 0 <= i < |s[1..]| ==> key(s[0]) <= key(s[1..][i]) by {
        forall i | 0 <= i < |s[1..]| ensures key(s[0]) <= key(s[1..][i]) {
          assert s[1..][i] == s[i + 1];
        }
      }
      SortedCons(s[0], rest, key);
      assert multiset([s[0]] + rest) == multiset(s) + multiset{x} by {
        assert multiset(s) == multiset{s[0]} + multiset(s[1..]);
      }
      [s[0]] + rest
  }

  /** A head no greater than any element of a sorted tail keeps the sequence sorted. */
  lemma SortedCons<T>(h: T, t: seq<T>, key: T -> int)
    requires SortedBy(t, key)
    requires forall y :: y in t ==> key(h) <= key(y)
    ensures SortedBy([h] + t, key)
  {
    var r := [h] + t;
    forall i, j | 0 <= i < j < |r| ensures key(r[i]) <= key(r[j]) {
      assert r[j] == t[j - 1];
      if i > 0 {
        assert r[i] == t[i - 1];
      }
    }
  }

  /**
   * `OrderBy(key)`: a stable sort (rows with equal keys keep storage order,
   * one of the orders the database may return).
   */
  function SortBy<T(!new)>(s: seq<T>, key: T -> int): (r: seq<T>)
    ensures SortedBy(r, key)
    ensures multiset(r) == multiset(s)
  {
    if |s| == 0 then []
    else
      assert s == [s[0]] + s[1..];
      InsertBy(s[0], SortBy(s[1..], key), key)
  }

  /** `OrderByDescending(key)`: the stable sort on the negated key. */
  function SortByDescending<T(!new)>(s: seq<T>, key: T -> int): (r: seq<T>)
    ensures SortedByDescending(r, key)
    ensures multiset(r) == multiset(s)
  {
    var r := SortBy(s, x => -key(x));
    assert forall i, j :: 0 <= i < j < |r| ==> -key(r[i]) <= -key(r[j]);
    r
  }

  /** `Select`: `f` applied to every element, in order. */
  function Select<A, B>(s: seq<A>, f: A -> B): (r: seq<B>)
    ensures |r| == |s|
    ensures forall i :: 0 <= i < |s| ==> r[i] == f(s[i])
  {
    if s == [] then [] else [f(s[0])] + Select(s[1..], f)
  }

  /** The number of rows `Skip` passes over for a page, computed as `(page - 1) * pageSize`. */
  function Offset(page: int, pageSize: int): int
  {
    (page - 1) * pageSize
  }

  const Int32Max: int := 0x7FFF_FFFF

  /** The callers never check page and pageSize; the model stays where the offset is a valid `int`. */
  predicate PageArguments(page: int, pageSize: int)
  {
    page >= 1 && pageSize >= 0 && Offset(page, pageSize) <= Int32Max
  }

  /**
   * `r` is the page with this number and size of `s`: the rows from the offset
   * on, in order, at most `pageSize` of them.
   */
  ghost predicate IsPageOf<T>(r: seq<T>, s: seq<T>, page: int, pageSize: int)
  {
    && |r| == Min(pageSize, Max(0, |s| - Offset(page, pageSize)))
    && forall i :: 0 <= i < |r| ==> 0 <= Offset(page, pageSize) + i < |s| && r[i] == s[Offset(page, pageSize) + i]
  }

  /** `Skip((page - 1) * pageSize).Take(pageSize)`. */
  function Page<T>(s: seq<T>, page: int, pageSize: int): (r: seq<T>)
    requires PageArguments(page, pageSize)
    ensures IsPageOf(r, s, page, pageSize)
  {
    assert Offset(page, pageSize) >= 0 by {
      assert page - 1 >= 0;
    }
    var skip := Offset(page, pageSize);
    var rest := if skip >= |s| then [] else s[skip..];
    if pageSize >= |rest| then rest else rest[..pageSize]
  }

  /** A page keeps the order of the sequence it is cut from. */
  lemma PagePreservesOrder<T>(s: seq<T>, page: int, pageSize: int, key: T -> int)
    requires PageArguments(page, pageSize)
    ensures SortedBy(s, key) ==> SortedBy(Page(s, page, pageSize), key)
    ensures SortedByDescending(s, key) ==> SortedByDescending(Page(s, page, pageSize), key)
  {
    var r := Page(s, page, pageSize);
    var k := Offset(page, pageSize);
    forall i, j | 0 <= i < j < |r|
      ensures SortedBy(s, key) ==> key(r[i]) <= key(r[j])
      ensures SortedByDescending(s, key) ==> key(r[i]) >= key(r[j])
    {
      assert r[i] == s[k + i] && r[j] == s[k + j];
    }
  }

  /** Every row on a page comes from the sequence it is cut from. */
  lemma PageElements<T>(s: seq<T>, page: int, pageSize: int)
    requires PageArguments(page, pageSize)
    ensures forall x :: x in Page(s, page, pageSize) ==> x in s
  {
    var r := Page(s, page, pageSize);
    forall x | x in r ensures x in s {
      var i :| 0 <= i < |r| && r[i] == x;
      assert x == s[Offset(page, pageSize) + i];
    }
  }

  /** Consecutive pages of one size tile the sequence: page `n + 1` starts where page `n` ends. */
  lemma {:induction false} PagesAreConsecutive<T>(s: seq<T>, page: int, pageSize: int)
    requires PageArguments(page, pageSize) && PageArguments(page + 1, pageSize)
    requires Offset(page + 1, pageSize) <= |s|
    ensures Page(s, page, pageSize) + Page(s, page + 1, pageSize)
         == s[Offset(page, pageSize)..Min(|s|, Offset(page + 2, pageSize))]
  {
    var a := Page(s, page, pageSize);
    var b := Page(s, page + 1, pageSize);
    var k := Offset(page, pageSize);
    assert Offset(page + 1, pageSize) == k + pageSize;
    assert Offset(page + 2, pageSize) == k + 2 * pageSize;
    var t := s[k..Min(|s|, k + 2 * pageSize)];
    assert |a| == pageSize;
    assert |a + b| == |t|;
    forall i | 0 <= i < |t|
      ensures (a + b)[i] == t[i]
    {
      if i < |a| {
        assert (a + b)[i] == s[k + i];
      } else {
        assert (a + b)[i] == b[i - |a|] == s[k + pageSize + (i - |a|)];
      }
    }
  }
}
