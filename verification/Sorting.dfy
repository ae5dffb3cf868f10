/** Stable sorting by a strict order, as sort.SliceStable and ORDER BY do it: only
    the result matters, so it is the insertion sort. */
module Sorting {
  function Insert<T>(less: (T, T) -> bool, x: T, s: seq<T>): (r: seq<T>)
    ensures multiset(r) == multiset(s) + multiset{x}
  {
    if s == [] then [x]
    else if less(x, s[0]) then [x] + s
    else
      var rest := Insert(less, x, s[1..]);
      assert s == [s[0]] + s[1..];
      [s[0]] + rest
  }

  function Sort<T>(less: (T, T) -> bool, s: seq<T>): (r: seq<T>)
    ensures multiset(r) == multiset(s)
    decreases |s|
  {
    if s == [] then []
    else
      assert s == s[..|s| - 1] + [s[|s| - 1]];
      Insert(less, s[|s| - 1], Sort(less, s[..|s| - 1]))
  }

  ghost predicate StrictOrder<T(!new)>(less: (T, T) -> bool) {
    && (forall x {:trigger less(x, x)} :: !less(x, x))
    && (forall x, y, z {:trigger less(x, y), less(y, z)} :: less(x, y) && less(y, z) ==> less(x, z))
  }

  ghost predicate Increasing<T(!new)>(less: (T, T) -> bool, s: seq<T>) {
    forall i, j :: 0 <= i < j < |s| ==> less(s[i], s[j])
  }

  ghost predicate Comparable<T(!new)>(less: (T, T) -> bool, x: T, s: seq<T>) {
    forall y :: y in s ==> less(x, y) || less(y, x)
  }

  ghost predicate AllBelow<T(!new)>(less: (T, T) -> bool, s: seq<T>, x: T) {
    forall y :: y in s ==> less(y, x)
  }

  /** No two positions hold equal or incomparable elements. */
  ghost predicate Distinct<T(!new)>(less: (T, T) -> bool, s: seq<T>) {
    forall i {:trigger s[i]} :: 0 <= i < |s| ==> Comparable(less, s[i], s[..i])
  }

  lemma {:induction false} SameMembers<T>(a: seq<T>, b: seq<T>)
    requires multiset(a) == multiset(b)
    ensures |a| == |b| && forall x :: x in a <==> x in b
  {
    assert |multiset(a)| == |a| && |multiset(b)| == |b|;
    forall x ensures x in a <==> x in b {
      assert x in a <==> x in multiset(a);
      assert x in b <==> x in multiset(b);
    }
  }

  lemma {:induction false} InsertKeepsIncreasing<T(!new)>(less: (T, T) -> bool, x: T, s: seq<T>)
    requires StrictOrder(less) && Increasing(less, s) && Comparable(less, x, s)
    ensures Increasing(less, Insert(less, x, s))
  {
    if s == [] {
    } else if less(x, s[0]) {
    } else {
      InsertKeepsIncreasing(less, x, s[1..]);
      var rest := Insert(less, x, s[1..]);
      SameMembers(rest, s[1..] + [x]);
      forall j | 0 <= j < |rest| ensures less(s[0], rest[j]) {
        assert rest[j] in rest;
        assert s[0] in s;
      }
    }
  }

  lemma {:induction false} SortIsIncreasing<T(!new)>(less: (T, T) -> bool, s: seq<T>)
    requires StrictOrder(less) && Distinct(less, s)
    ensures Increasing(less, Sort(less, s))
    decreases |s|
  {
    if s != [] {
      var init := s[..|s| - 1];
      forall i | 0 <= i < |init| ensures Comparable(less, init[i], init[..i]) {
        assert init[i] == s[i] && init[..i] == s[..i];
      }
      SortIsIncreasing(less, init);
      SameMembers(Sort(less, init), init);
      assert Comparable(less, s[|s| - 1], init);
      InsertKeepsIncreasing(less, s[|s| - 1], Sort(less, init));
    }
  }

  /** Elements already in order come out as they went in. */
  lemma {:induction false} SortOfIncreasing<T(!new)>(less: (T, T) -> bool, s: seq<T>)
    requires StrictOrder(less) && Increasing(less, s)
    ensures Sort(less, s) == s
    decreases |s|
  {
    if s != [] {
      var init, last := s[..|s| - 1], s[|s| - 1];
      LastIsGreatest(less, s);
      SortOfIncreasing(less, init);
      InsertLast(less, last, init);
    }
  }

  lemma {:induction false} LastIsGreatest<T(!new)>(less: (T, T) -> bool, s: seq<T>)
    requires Increasing(less, s) && s != []
    ensures Increasing(less, s[..|s| - 1]) && s == s[..|s| - 1] + [s[|s| - 1]]
    ensures AllBelow(less, s[..|s| - 1], s[|s| - 1])
  {
    var init := s[..|s| - 1];
    forall i, j | 0 <= i < j < |init| ensures less(init[i], init[j]) {
      assert init[i] == s[i] && init[j] == s[j];
    }
    forall y | y in init ensures less(y, s[|s| - 1]) {
      var i :| 0 <= i < |init| && init[i] == y;
    }
  }

  lemma {:induction false} InsertLast<T(!new)>(less: (T, T) -> bool, x: T, s: seq<T>)
    requires StrictOrder(less) && AllBelow(less, s, x)
    ensures Insert(less, x, s) == s + [x]
  {
    if s != [] {
      assert s[0] in s && !less(x, s[0]);
      InsertLast(less, x, s[1..]);
    }
  }

  /** An increasing list is the only one of its elements that is in order. */
  lemma {:induction false} IncreasingIsUnique<T(!new)>(less: (T, T) -> bool, a: seq<T>, b: seq<T>)
    requires StrictOrder(less) && Increasing(less, a) && InOrder(less, b)
    requires multiset(a) == multiset(b)
    ensures a == b
  {
    SameMembers(a, b);
    if a != [] {
      SameHead(less, a, b);
      HeadAndTail(a);
      HeadAndTail(b);
      IncreasingIsUnique(less, a[1..], b[1..]);
    }
  }

  lemma {:induction false} HeadAndTail<T>(a: seq<T>)
    requires a != []
    ensures a == [a[0]] + a[1..] && multiset(a[1..]) == multiset(a) - multiset{a[0]}
  {
    assert a == [a[0]] + a[1..];
  }

  lemma {:induction false} SameHead<T(!new)>(less: (T, T) -> bool, a: seq<T>, b: seq<T>)
    requires StrictOrder(less) && Increasing(less, a) && InOrder(less, b)
    requires a != [] && b != [] && forall x :: x in a <==> x in b
    ensures a[0] == b[0]
  {
    assert a[0] in b && b[0] in a;
    var i :| 0 <= i < |a| && a[i] == b[0];
    var j :| 0 <= j < |b| && b[j] == a[0];
    assert i > 0 ==> less(a[0], a[i]);
    assert j > 0 ==> !less(b[j], b[0]);
  }

  /** Not out of order: ties may stand in either order. */
  ghost predicate InOrder<T(!new)>(less: (T, T) -> bool, s: seq<T>) {
    forall i, j :: 0 <= i < j < |s| ==> !less(s[j], s[i])
  }

  ghost predicate WeakOrder<T(!new)>(less: (T, T) -> bool) {
    && StrictOrder(less)
    && (forall x, y, z {:trigger less(x, y), less(y, z)} {:trigger less(x, z), less(y, z)} :: !less(x, y) && !less(y, z) ==> !less(x, z))
  }

  lemma {:induction false} InsertKeepsInOrder<T(!new)>(less: (T, T) -> bool, x: T, s: seq<T>)
    requires WeakOrder(less) && InOrder(less, s)
    ensures InOrder(less, Insert(less, x, s))
  {
    if s == [] {
    } else if less(x, s[0]) {
      forall j | 0 <= j < |s| ensures !less(s[j], x) {
        assert !less(s[0], x);
      }
    } else {
      InsertKeepsInOrder(less, x, s[1..]);
      var rest := Insert(less, x, s[1..]);
      SameMembers(rest, s[1..] + [x]);
      forall j | 0 <= j < |rest| ensures !less(rest[j], s[0]) {
        assert rest[j] in rest;
      }
    }
  }

  lemma {:induction false} SortIsInOrder<T(!new)>(less: (T, T) -> bool, s: seq<T>)
    requires WeakOrder(less)
    ensures InOrder(less, Sort(less, s))
    decreases |s|
  {
    if s != [] {
      SortIsInOrder(less, s[..|s| - 1]);
      InsertKeepsInOrder(less, s[|s| - 1], Sort(less, s[..|s| - 1]));
    }
  }
}
