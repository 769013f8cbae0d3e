/** Filtering, paging and sorting of row lists. */
module Ordering {

  predicate Once<T(==)>(xs: seq<T>) {
    forall i, j :: 0 <= i < j < |xs| ==> xs[i] != xs[j]
  }

  // ---- WHERE ------------------------------------------------------------------------

  function Filter<T>(xs: seq<T>, keep: T -> bool): seq<T> {
    if xs == [] then []
    else (if keep(xs[0]) then [xs[0]] else []) + Filter(xs[1..], keep)
  }

  lemma {:induction false} FilterKeeps<T>(xs: seq<T>, keep: T -> bool, x: T)
    ensures x in Filter(xs, keep) <==> x in xs && keep(x)
  {
    if xs != [] {
      FilterKeeps(xs[1..], keep, x);
      assert x in xs <==> x == xs[0] || x in xs[1..];
    }
  }

  lemma {:induction false} FilterOnce<T>(xs: seq<T>, keep: T -> bool)
    requires Once(xs)
    ensures Once(Filter(xs, keep))
  {
    if xs != [] {
      FilterOnce(xs[1..], keep);
      FilterKeeps(xs[1..], keep, xs[0]);
      assert xs[0] !in xs[1..];
    }
  }

  lemma {:induction false} FilterAlike<T>(xs: seq<T>, p: T -> bool, q: T -> bool)
    requires forall x :: x in xs ==> p(x) == q(x)
    ensures Filter(xs, p) == Filter(xs, q)
  {
    if xs != [] {
      FilterAlike(xs[1..], p, q);
    }
  }

  // ---- LIMIT and OFFSET ---------------------------------------------------------------

  datatype Page<T> = Page(items: seq<T>, total: nat)

  /** paginate: the count of the whole query, and a slice of it. */
  function Paginate<T>(rows: seq<T>, limit: nat, offset: nat): Page<T> {
    var from := if offset < |rows| then offset else |rows|;
    var until := if from + limit < |rows| then from + limit else |rows|;
    Page(rows[from..until], |rows|)
  }

  /** Reading page after page until one comes back empty. */
  function ReadOn<T>(rows: seq<T>, limit: nat, offset: nat): seq<T>
    requires limit > 0
    decreases if offset < |rows| then |rows| - offset else 0
  {
    if offset >= |rows| then []
    else Paginate(rows, limit, offset).items + ReadOn(rows, limit, offset + limit)
  }

  lemma {:induction false} ReadOnIsTheRest<T>(rows: seq<T>, limit: nat, offset: nat)
    requires limit > 0
    ensures ReadOn(rows, limit, offset) == if offset < |rows| then rows[offset..] else []
    decreases if offset < |rows| then |rows| - offset else 0
  {
    if offset < |rows| {
      ReadOnIsTheRest(rows, limit, offset + limit);
    }
  }

  // ---- ORDER BY -------------------------------------------------------------------------

  ghost predicate Orders<T(!new)>(leq: (T, T) -> bool) {
    && (forall x, y :: leq(x, y) || leq(y, x))
    && (forall x, y, z :: leq(x, y) && leq(y, z) ==> leq(x, z))
  }

  predicate Sorted<T>(xs: seq<T>, leq: (T, T) -> bool) {
    forall i, j :: 0 <= i < j < |xs| ==> leq(xs[i], xs[j])
  }

  function Insert<T>(x: T, xs: seq<T>, leq: (T, T) -> bool): seq<T> {
    if xs == [] then [x]
    else if leq(x, xs[0]) then [x] + xs
    else [xs[0]] + Insert(x, xs[1..], leq)
  }

  function Sort<T>(xs: seq<T>, leq: (T, T) -> bool): seq<T> {
    if xs == [] then [] else Insert(xs[0], Sort(xs[1..], leq), leq)
  }

  lemma {:induction false} InsertRows<T>(x: T, xs: seq<T>, leq: (T, T) -> bool)
    ensures multiset(Insert(x, xs, leq)) == multiset(xs) + multiset{x}
  {
    if xs != [] {
      assert xs == [xs[0]] + xs[1..];
      InsertRows(x, xs[1..], leq);
    }
  }

  lemma {:induction false} InsertSorts<T(!new)>(x: T, xs: seq<T>, leq: (T, T) -> bool)
    requires Orders(leq) && Sorted(xs, leq)
    ensures Sorted(Insert(x, xs, leq), leq)
  {
    if xs != [] && !leq(x, xs[0]) {
      InsertSorts(x, xs[1..], leq);
      InsertRows(x, xs[1..], leq);
      var tail := Insert(x, xs[1..], leq);
      forall i | 0 <= i < |tail| ensures leq(xs[0], tail[i]) {
        assert tail[i] in multiset(tail);
        assert tail[i] == x || tail[i] in xs[1..];
      }
    }
  }

  /** A sorted rearrangement. */
  lemma {:induction false} SortSorts<T(!new)>(xs: seq<T>, leq: (T, T) -> bool)
    requires Orders(leq)
    ensures Sorted(Sort(xs, leq), leq) && multiset(Sort(xs, leq)) == multiset(xs)
  {
    if xs != [] {
      SortSorts(xs[1..], leq);
      InsertSorts(xs[0], Sort(xs[1..], leq), leq);
      InsertRows(xs[0], Sort(xs[1..], leq), leq);
      assert xs == [xs[0]] + xs[1..];
    }
  }

  lemma {:induction false} SameRowsOnce<T>(xs: seq<T>, ys: seq<T>)
    requires multiset(xs) == multiset(ys) && Once(xs)
    ensures Once(ys) && |ys| == |xs| && forall x :: x in xs <==> x in ys
  {
    assert |multiset(xs)| == |multiset(ys)|;
    forall x ensures x in xs <==> x in ys {
      assert x in multiset(xs) <==> x in multiset(ys);
    }
    forall i, j | 0 <= i < j < |ys| ensures ys[i] != ys[j] {
      if ys[i] == ys[j] {
        assert ys == ys[..i] + [ys[i]] + ys[i + 1..j] + [ys[j]] + ys[j + 1..];
        assert multiset(ys)[ys[i]] >= 2;
        OnceCounts(xs, ys[i]);
      }
    }
  }

  lemma {:induction false} OnceCounts<T>(xs: seq<T>, x: T)
    requires Once(xs)
    ensures multiset(xs)[x] <= 1
  {
    if xs != [] {
      OnceCounts(xs[1..], x);
      assert xs == [xs[0]] + xs[1..];
      assert xs[0] !in xs[1..];
    }
  }

  // ---- names ----------------------------------------------------------------------------

  /** Strings compare by code point, a prefix first. */
  predicate StringLeq(s: string, t: string) {
    s == [] || (t != [] && (s[0] < t[0] || (s[0] == t[0] && StringLeq(s[1..], t[1..]))))
  }

  lemma {:induction false} StringLeqTotal(s: string, t: string)
    ensures StringLeq(s, t) || StringLeq(t, s)
  {
    if s != [] && t != [] {
      StringLeqTotal(s[1..], t[1..]);
    }
  }

  lemma {:induction false} StringLeqAntisymmetric(s: string, t: string)
    requires StringLeq(s, t) && StringLeq(t, s)
    ensures s == t
  {
    if s != [] {
      StringLeqAntisymmetric(s[1..], t[1..]);
      assert s == [s[0]] + s[1..] && t == [t[0]] + t[1..];
    }
  }

  lemma {:induction false} StringLeqTransitive(s: string, t: string, u: string)
    requires StringLeq(s, t) && StringLeq(t, u)
    ensures StringLeq(s, u)
  {
    if s != [] && s[0] == t[0] && t[0] == u[0] {
      StringLeqTransitive(s[1..], t[1..], u[1..]);
    }
  }
}
