/** `Array.prototype.sort` with a comparator, as the pages call it.
    The ECMAScript standard requires the sort to be stable; for a consistent
    comparator the result of a stable sort is then fixed, and this module
    computes it by insertion.  A comparator `cmp(a, b)` is read the
    JavaScript way: a negative or zero result lets `a` stay before `b`. */
module Sorting {
  import opened Common

  /** The comparator is a total preorder: any two elements can be ordered,
      and "may come before" is transitive. */
  ghost predicate ValidComparator<T(!new)>(cmp: (T, T) -> int) {
    && (forall a, b :: cmp(a, b) <= 0 || cmp(b, a) <= 0)
    && (forall a, b, c :: cmp(a, b) <= 0 && cmp(b, c) <= 0 ==> cmp(a, c) <= 0)
  }

  /** `a` and `b` compare equal: a stable sort keeps them in input order. */
  predicate Tie<T>(cmp: (T, T) -> int, a: T, b: T) {
    cmp(a, b) <= 0 && cmp(b, a) <= 0
  }

  /** The elements that tie with `k`. */
  function TieWith<T>(cmp: (T, T) -> int, k: T): T -> bool {
    e => Tie(cmp, e, k)
  }

  ghost predicate SortedBy<T>(s: seq<T>, cmp: (T, T) -> int) {
    forall i, j :: 0 <= i < j < |s| ==> cmp(s[i], s[j]) <= 0
  }

  /** Places `x` before the first element it may precede. */
  function Insert<T>(x: T, s: seq<T>, cmp: (T, T) -> int): (r: seq<T>)
    ensures multiset(r) == multiset(s) + multiset{x}
  {
    if s == [] then [x]
    else if cmp(x, s[0]) <= 0 then [x] + s
    else
      assert s == [s[0]] + s[1..];
      [s[0]] + Insert(x, s[1..], cmp)
  }

  /** `s.sort(cmp)`, computed as a stable insertion sort. */
  function SortBy<T>(s: seq<T>, cmp: (T, T) -> int): (r: seq<T>)
    ensures multiset(r) == multiset(s)
  {
    if s == [] then []
    else
      assert s == [s[0]] + s[1..];
      Insert(s[0], SortBy(s[1..], cmp), cmp)
  }

  /** A head that may precede every element of a sorted tail keeps it sorted. */
  lemma ConsSorted<T>(h: T, r: seq<T>, cmp: (T, T) -> int)
    requires SortedBy(r, cmp)
    requires forall j :: 0 <= j < |r| ==> cmp(h, r[j]) <= 0
    ensures SortedBy([h] + r, cmp)
  {
    var hr := [h] + r;
    forall i, j | 0 <= i < j < |hr| ensures cmp(hr[i], hr[j]) <= 0 {
      if i > 0 {
        assert hr[i] == r[i - 1] && hr[j] == r[j - 1];
      } else {
        assert hr[j] == r[j - 1];
      }
    }
  }

  /** Every element of `Insert(x, t)` is `x` or an element of `t`. */
  lemma InsertElements<T>(x: T, t: seq<T>, cmp: (T, T) -> int, j: int)
    requires 0 <= j < |Insert(x, t, cmp)|
    ensures Insert(x, t, cmp)[j] == x || exists m :: 0 <= m < |t| && t[m] == Insert(x, t, cmp)[j]
  {
    var r := Insert(x, t, cmp);
    assert r[j] in multiset(r);
    if r[j] != x {
      assert r[j] in multiset(t);
      assert r[j] in t;
    }
  }

  lemma {:induction false} InsertSorted<T(!new)>(x: T, s: seq<T>, cmp: (T, T) -> int)
    requires ValidComparator(cmp)
    requires SortedBy(s, cmp)
    ensures SortedBy(Insert(x, s, cmp), cmp)
  {
    if s == [] {
    } else if cmp(x, s[0]) <= 0 {
      ConsSorted(x, s, cmp);
    } else {
      var t := s[1..];
      InsertSorted(x, t, cmp);
      var r := Insert(x, t, cmp);
      forall j | 0 <= j < |r| ensures cmp(s[0], r[j]) <= 0 {
        InsertElements(x, t, cmp, j);
        if r[j] != x {
          var m :| 0 <= m < |t| && t[m] == r[j];
          assert s[m + 1] == r[j];
        }
      }
      ConsSorted(s[0], r, cmp);
    }
  }

  /** The result of the sort is ordered by the comparator. */
  lemma {:induction false} SortBySorted<T(!new)>(s: seq<T>, cmp: (T, T) -> int)
    requires ValidComparator(cmp)
    ensures SortedBy(SortBy(s, cmp), cmp)
  {
    if s != [] {
      SortBySorted(s[1..], cmp);
      InsertSorted(s[0], SortBy(s[1..], cmp), cmp);
    }
  }

  /** An element that `x` may not precede does not tie with what `x` ties with. */
  lemma NotBothTied<T(!new)>(cmp: (T, T) -> int, x: T, y: T, k: T)
    requires ValidComparator(cmp)
    requires cmp(x, y) > 0
    ensures !(Tie(cmp, x, k) && Tie(cmp, y, k))
  {
  }

  lemma SwapWithEmpty<T>(a: seq<T>, b: seq<T>, c: seq<T>)
    requires a == [] || b == []
    ensures a + (b + c) == b + (a + c)
  {
    if a == [] {
      assert a + (b + c) == b + c;
      assert a + c == c;
    } else {
      assert b + c == c;
      assert b + (a + c) == a + c;
    }
  }

  /** The step of `InsertTies` past a head `h` that does not tie with `x`:
      `ins` is `h` followed by `rest`, where `rest` is `t` with `x` inserted. */
  lemma FilterPastHead<T>(x: T, h: T, t: seq<T>, rest: seq<T>, ins: seq<T>, p: T -> bool)
    requires !(p(x) && p(h))
    requires ins == [h] + rest
    requires Filter(rest, p) == (if p(x) then [x] else []) + Filter(t, p)
    ensures Filter(ins, p) == (if p(x) then [x] else []) + Filter([h] + t, p)
  {
    var hx: seq<T> := if p(x) then [x] else [];
    var hh: seq<T> := if p(h) then [h] else [];
    FilterCons(h, rest, p);
    FilterCons(h, t, p);
    SwapWithEmpty(hh, hx, Filter(t, p));
  }

  /** Insertion puts `x` ahead of everything it ties with. */
  lemma {:induction false} InsertTies<T(!new)>(x: T, s: seq<T>, cmp: (T, T) -> int, k: T)
    requires ValidComparator(cmp)
    ensures Filter(Insert(x, s, cmp), TieWith(cmp, k))
         == (if Tie(cmp, x, k) then [x] else []) + Filter(s, TieWith(cmp, k))
  {
    if s == [] {
    } else if cmp(x, s[0]) <= 0 {
      FilterCons(x, s, TieWith(cmp, k));
    } else {
      InsertTies(x, s[1..], cmp, k);
      NotBothTied(cmp, x, s[0], k);
      assert s == [s[0]] + s[1..];
      FilterPastHead(x, s[0], s[1..], Insert(x, s[1..], cmp), Insert(x, s, cmp), TieWith(cmp, k));
    }
  }

  /** Stability: within every class of tied elements the input order survives. */
  lemma {:induction false} SortByStable<T(!new)>(s: seq<T>, cmp: (T, T) -> int, k: T)
    requires ValidComparator(cmp)
    ensures Filter(SortBy(s, cmp), TieWith(cmp, k)) == Filter(s, TieWith(cmp, k))
  {
    if s != [] {
      SortByStable(s[1..], cmp, k);
      InsertTies(s[0], SortBy(s[1..], cmp), cmp, k);
    }
  }

  /** A comparator that always answers 0 leaves the sequence as it was. */
  lemma {:induction false} SortByAllTies<T>(s: seq<T>, cmp: (T, T) -> int)
    requires forall a, b :: cmp(a, b) == 0
    ensures SortBy(s, cmp) == s
  {
    if s != [] {
      SortByAllTies(s[1..], cmp);
      assert s == [s[0]] + s[1..];
    }
  }
}
