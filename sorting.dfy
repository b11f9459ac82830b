/** Python's `sorted(xs, key=...)` and list filtering, over sequences.
    `sorted` is stable: elements whose keys tie keep their input order. */
module Sorting {

  /** No element occurs twice. */
  predicate Distinct<T(==)>(s: seq<T>)
  {
    forall i, j :: 0 <= i < j < |s| ==> s[i] != s[j]
  }

  lemma {:induction false} DistinctCount<T>(s: seq<T>)
    ensures Distinct(s) <==> forall x :: multiset(s)[x] <= 1
  {
    if s != [] {
      var init, last := s[..|s| - 1], s[|s| - 1];
      assert s == init + [last];
      DistinctCount(init);
      if Distinct(s) {
        assert Distinct(init);
        assert last !in init by {
          forall i | 0 <= i < |init| ensures init[i] != last {
            assert s[i] != s[|s| - 1];
          }
        }
        forall x ensures multiset(s)[x] <= 1 {
          assert multiset(s)[x] == multiset(init)[x] + (if x == last then 1 else 0);
        }
      } else {
        var i, j :| 0 <= i < j < |s| && s[i] == s[j];
        if j < |s| - 1 {
          assert init[i] == init[j];
          var x :| multiset(init)[x] > 1;
          assert multiset(s)[x] >= multiset(init)[x];
        } else {
          assert init[i] == last;
          assert multiset(s)[last] == multiset(init)[last] + 1;
        }
      }
    }
  }

  /** A permutation of a sequence without repetitions has none either. */
  lemma DistinctPermutation<T>(a: seq<T>, b: seq<T>)
    requires multiset(a) == multiset(b) && Distinct(a)
    ensures Distinct(b)
  {
    DistinctCount(a);
    DistinctCount(b);
  }

  /** A sequence without repetitions drawn from `m` is no longer than `m`. */
  lemma {:induction false} DistinctWithin<T>(s: seq<T>, m: set<T>)
    requires Distinct(s) && forall i :: 0 <= i < |s| ==> s[i] in m
    ensures |s| <= |m|
  {
    if s != [] {
      var rest := s[1..];
      forall i | 0 <= i < |rest| ensures rest[i] in m - {s[0]} {
        assert rest[i] == s[i + 1] != s[0];
      }
      DistinctWithin(rest, m - {s[0]});
    }
  }

  /** `[x for x in s if x in allowed]` */
  function Keep<T(==,!new)>(s: seq<T>, allowed: seq<T>): (r: seq<T>)
    ensures forall x :: x in r <==> x in s && x in allowed
    ensures Distinct(s) ==> Distinct(r)
    ensures |r| <= |s|
  {
    if s == [] then []
    else
      var rest := Keep(s[1..], allowed);
      assert Distinct(s) ==> s[0] !in s[1..] && Distinct(s[1..]) by {
        if Distinct(s) {
          forall i | 0 <= i < |s[1..]| ensures s[1..][i] != s[0] {
            assert s[1..][i] == s[i + 1];
          }
        }
      }
      if s[0] in allowed then [s[0]] + rest else rest
  }

  /** Filtering keeps a sequence whose elements are all allowed as it is. */
  lemma {:induction false} KeepAll<T(!new)>(s: seq<T>, allowed: seq<T>)
    requires forall x :: x in s ==> x in allowed
    ensures Keep(s, allowed) == s
  {
    if s != [] {
      assert forall x :: x in s[1..] ==> x in s;
      KeepAll(s[1..], allowed);
      assert s[0] in s;
    }
  }

  /** Filtering keeps input order: filtering `a + b` filters `a`, then `b`. */
  lemma {:induction false} KeepAppend<T(!new)>(a: seq<T>, b: seq<T>, allowed: seq<T>)
    ensures Keep(a + b, allowed) == Keep(a, allowed) + Keep(b, allowed)
  {
    if a == [] {
      assert a + b == b;
    } else {
      assert (a + b)[0] == a[0];
      assert (a + b)[1..] == a[1..] + b;
      KeepAppend(a[1..], b, allowed);
    }
  }

  /** `le` is a total preorder: the order `sorted` sees through a key function. */
  ghost predicate TotalPreorder<T(!new)>(le: (T, T) -> bool)
  {
    (forall a, b :: le(a, b) || le(b, a)) &&
    (forall a, b, c :: le(a, b) && le(b, c) ==> le(a, c))
  }

  predicate SortedBy<T>(s: seq<T>, le: (T, T) -> bool)
  {
    forall i, j :: 0 <= i < j < |s| ==> le(s[i], s[j])
  }

  /** Inserts `x` after every element of `s` that is not greater than it. */
  function Insert<T(!new)>(x: T, s: seq<T>, le: (T, T) -> bool): (r: seq<T>)
    ensures multiset(r) == multiset(s) + multiset{x}
  {
    if s == [] then [x]
    else if le(s[0], x) then
      assert s == [s[0]] + s[1..];
      [s[0]] + Insert(x, s[1..], le)
    else [x] + s
  }

  /** Inserting into a sorted sequence keeps it sorted. */
  lemma {:induction false} InsertSorted<T(!new)>(x: T, s: seq<T>, le: (T, T) -> bool)
    requires TotalPreorder(le) && SortedBy(s, le)
    ensures SortedBy(Insert(x, s, le), le)
  {
    if s == [] {
    } else if le(s[0], x) {
      var rest := Insert(x, s[1..], le);
      InsertSorted(x, s[1..], le);
      assert s == [s[0]] + s[1..];
      forall y | y in rest ensures le(s[0], y) {
        assert y in multiset(rest);
        if y != x {
          assert y in s[1..];
        }
      }
      assert Insert(x, s, le) == [s[0]] + rest;
    } else {
      assert le(x, s[0]);
      forall j | 0 <= j < |s| ensures le(x, s[j]) {
        if j > 0 { assert le(s[0], s[j]); }
      }
    }
  }

  /** `sorted(s)` under the order `le`, by stable insertion. */
  function SortBy<T(!new)>(s: seq<T>, le: (T, T) -> bool): (r: seq<T>)
    ensures multiset(r) == multiset(s)
  {
    if s == [] then []
    else
      assert s == s[..|s| - 1] + [s[|s| - 1]];
      Insert(s[|s| - 1], SortBy(s[..|s| - 1], le), le)
  }

  /** Under a total preorder the result of `SortBy` is sorted. */
  lemma {:induction false} SortBySorted<T(!new)>(s: seq<T>, le: (T, T) -> bool)
    requires TotalPreorder(le)
    ensures SortedBy(SortBy(s, le), le)
  {
    if s != [] {
      SortBySorted(s[..|s| - 1], le);
      InsertSorted(s[|s| - 1], SortBy(s[..|s| - 1], le), le);
    }
  }

  /** Sorting a sequence without repetitions gives one without repetitions. */
  lemma SortByDistinct<T(!new)>(s: seq<T>, le: (T, T) -> bool)
    requires Distinct(s)
    ensures Distinct(SortBy(s, le))
  {
    DistinctPermutation(s, SortBy(s, le));
  }

  /** Sorting the kept elements of `s`: the result holds exactly the elements
      of `s` that are allowed, as often as `Keep` does, and repeats none when
      `s` repeats none. */
  lemma SortKept<T(!new)>(s: seq<T>, allowed: seq<T>, le: (T, T) -> bool)
    ensures var r := SortBy(Keep(s, allowed), le);
      (forall x :: x in r <==> x in s && x in allowed) &&
      (Distinct(s) ==> Distinct(r))
  {
    var kept := Keep(s, allowed);
    var r := SortBy(kept, le);
    forall x ensures x in r <==> x in kept {
      assert x in r <==> x in multiset(r);
      assert x in kept <==> x in multiset(kept);
    }
    if Distinct(s) {
      SortByDistinct(kept, le);
    }
  }

  /** The elements of `s` tied with `k` under `le`, in the order of `s`. */
  function Ties<T>(s: seq<T>, le: (T, T) -> bool, k: T): seq<T>
  {
    if s == [] then []
    else (if le(s[0], k) && le(k, s[0]) then [s[0]] else []) + Ties(s[1..], le, k)
  }

  lemma {:induction false} TiesAppend<T>(a: seq<T>, b: seq<T>, le: (T, T) -> bool, k: T)
    ensures Ties(a + b, le, k) == Ties(a, le, k) + Ties(b, le, k)
  {
    if a != [] {
      assert (a + b)[0] == a[0];
      assert (a + b)[1..] == a[1..] + b;
      TiesAppend(a[1..], b, le, k);
    } else {
      assert a + b == b;
    }
  }

  /** Filtering commutes with picking the elements tied with `k`: the kept
      elements of a tie class come in the order the input had them. */
  lemma {:induction false} KeepTies<T(!new)>(s: seq<T>, allowed: seq<T>, le: (T, T) -> bool, k: T)
    ensures Ties(Keep(s, allowed), le, k) == Keep(Ties(s, le, k), allowed)
  {
    if s != [] {
      var head := if le(s[0], k) && le(k, s[0]) then [s[0]] else [];
      KeepTies(s[1..], allowed, le, k);
      assert Ties(s, le, k) == head + Ties(s[1..], le, k);
      KeepAppend(head, Ties(s[1..], le, k), allowed);
      if s[0] in allowed {
        assert Keep(s, allowed) == [s[0]] + Keep(s[1..], allowed);
        TiesAppend([s[0]], Keep(s[1..], allowed), le, k);
        assert Keep(head, allowed) == head;
      } else {
        assert Keep(head, allowed) == [];
      }
    }
  }

  lemma {:induction false} InsertTies<T(!new)>(x: T, t: seq<T>, le: (T, T) -> bool, k: T)
    requires TotalPreorder(le) && SortedBy(t, le)
    ensures Ties(Insert(x, t, le), le, k) == Ties(t + [x], le, k)
    decreases |t|, 1
  {
    if t == [] {
    } else if le(t[0], x) {
      InsertTiesAfterHead(x, t, le, k);
    } else {
      InsertTiesBeforeHead(x, t, le, k);
    }
  }

  lemma {:induction false} InsertTiesAfterHead<T(!new)>(x: T, t: seq<T>, le: (T, T) -> bool, k: T)
    requires TotalPreorder(le) && SortedBy(t, le)
    requires t != [] && le(t[0], x)
    ensures Ties(Insert(x, t, le), le, k) == Ties(t + [x], le, k)
    decreases |t|, 0
  {
    var head, tail := [t[0]], t[1..];
    assert t + [x] == head + (tail + [x]);
    TiesAppend(head, tail + [x], le, k);
    assert Insert(x, t, le) == head + Insert(x, tail, le);
    TiesAppend(head, Insert(x, tail, le), le, k);
    InsertTies(x, tail, le, k);
  }

  lemma {:induction false} InsertTiesBeforeHead<T(!new)>(x: T, t: seq<T>, le: (T, T) -> bool, k: T)
    requires TotalPreorder(le) && SortedBy(t, le)
    requires t != [] && !le(t[0], x)
    ensures Ties(Insert(x, t, le), le, k) == Ties(t + [x], le, k)
  {
    assert Insert(x, t, le) == [x] + t;
    TiesAppend([x], t, le, k);
    TiesAppend(t, [x], le, k);
    if le(x, k) && le(k, x) {
      NoTiesAbove(x, t, le, k);
    }
  }

  /** When every element of a sorted `t` is strictly above `x`, and `k` ties
      with `x`, nothing in `t` ties with `k`. */
  lemma {:induction false} NoTiesAbove<T(!new)>(x: T, t: seq<T>, le: (T, T) -> bool, k: T)
    requires TotalPreorder(le) && SortedBy(t, le)
    requires t != [] && !le(t[0], x) && le(k, x)
    ensures Ties(t, le, k) == []
  {
    if |t| > 1 {
      assert le(t[0], t[1]);
      assert !le(t[1], x);
      NoTiesAbove(x, t[1..], le, k);
    }
  }

  /** `sorted` is stable: elements tied under `le` keep their input order. */
  lemma {:induction false} SortByStable<T(!new)>(s: seq<T>, le: (T, T) -> bool, k: T)
    requires TotalPreorder(le)
    ensures Ties(SortBy(s, le), le, k) == Ties(s, le, k)
  {
    if s != [] {
      var init, last := s[..|s| - 1], s[|s| - 1];
      assert s == init + [last];
      SortByStable(init, le, k);
      SortBySorted(init, le);
      InsertTies(last, SortBy(init, le), le, k);
      TiesAppend(SortBy(init, le), [last], le, k);
      TiesAppend(init, [last], le, k);
    }
  }
}
