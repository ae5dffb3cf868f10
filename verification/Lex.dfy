/** The order Go puts on strings: byte by byte, a proper prefix first. Every
    cursor, page and key list of the sync layer is stated in this order. A char
    stands for one byte; the results hold for all chars. */
module Lex {
  predicate Less(a: string, b: string) {
    if b == "" then false
    else if a == "" then true
    else a[0] < b[0] || (a[0] == b[0] && Less(a[1..], b[1..]))
  }

  predicate AtMost(a: string, b: string) {
    a == b || Less(a, b)
  }

  lemma {:induction false} LessIrreflexive(a: string)
    ensures !Less(a, a)
  {
    if a != "" {
      LessIrreflexive(a[1..]);
    }
  }

  lemma {:induction false} LessTransitive(a: string, b: string, c: string)
    requires Less(a, b) && Less(b, c)
    ensures Less(a, c)
  {
    if a != "" && a[0] == b[0] == c[0] {
      LessTransitive(a[1..], b[1..], c[1..]);
    }
  }

  lemma {:induction false} LessTotal(a: string, b: string)
    ensures a == b || Less(a, b) || Less(b, a)
  {
    if a != "" && b != "" && a[0] == b[0] {
      LessTotal(a[1..], b[1..]);
      assert a == [a[0]] + a[1..] && b == [b[0]] + b[1..];
    }
  }

  /** The strict total order as one fact, for proofs that compare many keys. */
  lemma {:induction false} StrictTotalOrder()
    ensures forall a: string {:trigger Less(a, a)} :: !Less(a, a)
    ensures forall a: string, b: string, c: string {:trigger Less(a, b), Less(b, c)} ::
              Less(a, b) && Less(b, c) ==> Less(a, c)
    ensures forall a: string, b: string {:trigger Less(a, b)} {:trigger Less(b, a)} ::
              a == b || Less(a, b) || Less(b, a)
  {
    forall a: string ensures !Less(a, a) { LessIrreflexive(a); }
    forall a: string, b: string, c: string | Less(a, b) && Less(b, c) ensures Less(a, c) {
      LessTransitive(a, b, c);
    }
    forall a: string, b: string ensures a == b || Less(a, b) || Less(b, a) { LessTotal(a, b); }
  }

  lemma {:induction false} LessAsymmetric(a: string, b: string)
    requires Less(a, b)
    ensures a != b && !Less(b, a)
  {
    LessIrreflexive(a);
    if Less(b, a) {
      LessTransitive(a, b, a);
    }
  }

  /** A common prefix does not change the order of two strings. */
  lemma {:induction false} LessUnderPrefix(p: string, a: string, b: string)
    ensures Less(p + a, p + b) <==> Less(a, b)
  {
    if p == "" {
      assert p + a == a && p + b == b;
    } else {
      LessUnderPrefix(p[1..], a, b);
      assert (p + a)[1..] == p[1..] + a && (p + b)[1..] == p[1..] + b;
    }
  }

  /** A string sorts before each of its proper extensions. */
  lemma {:induction false} PrefixSortsFirst(p: string, a: string)
    requires a != ""
    ensures Less(p, p + a)
  {
    LessUnderPrefix(p, "", a);
    assert p + "" == p;
  }

  predicate Ascending(s: seq<string>) {
    forall i, j :: 0 <= i < j < |s| ==> Less(s[i], s[j])
  }

  /** An ascending list has no repeats, so a position is found from its key. */
  lemma {:induction false} AscendingIsInjective(s: seq<string>, i: nat, j: nat)
    requires Ascending(s) && i < |s| && j < |s| && s[i] == s[j]
    ensures i == j
  {
    LessIrreflexive(s[i]);
  }

  lemma {:induction false} AscendingAppend(s: seq<string>, k: string)
    requires Ascending(s)
    requires s != [] ==> Less(s[|s| - 1], k)
    ensures Ascending(s + [k])
  {
    forall i, j | 0 <= i < j < |s + [k]| ensures Less((s + [k])[i], (s + [k])[j]) {
      if j == |s| && i < |s| - 1 {
        LessTransitive(s[i], s[|s| - 1], k);
      }
    }
  }

  lemma {:induction false} AscendingConcat(s: seq<string>, t: seq<string>, cut: string)
    requires Ascending(s) && Ascending(t)
    requires forall k :: k in s ==> AtMost(k, cut)
    requires forall k :: k in t ==> Less(cut, k)
    ensures Ascending(s + t)
  {
    forall i, j | 0 <= i < j < |s + t| ensures Less((s + t)[i], (s + t)[j]) {
      if i < |s| <= j {
        assert s[i] in s && t[j - |s|] in t;
        if s[i] != cut {
          LessTransitive(s[i], cut, t[j - |s|]);
        }
      }
    }
  }

  /** Two ascending lists of the same keys are the same list: a key list sorted
      by this order has one form only. */
  lemma {:induction false} AscendingIsUnique(s: seq<string>, t: seq<string>)
    requires Ascending(s) && Ascending(t)
    requires forall k :: k in s <==> k in t
    ensures s == t
  {
    assert |t| > 0 ==> t[0] in s;
    if s == [] {
    } else {
      assert s[0] in t && t[0] in s;
      StrictTotalOrder();
      assert s[0] == t[0];
      forall k ensures k in s[1..] <==> k in t[1..] {
        if k in s[1..] {
          assert Less(s[0], k);
          assert k in t;
        }
        if k in t[1..] {
          assert Less(t[0], k);
          assert k in s;
        }
      }
      AscendingIsUnique(s[1..], t[1..]);
      assert s == [s[0]] + s[1..] && t == [t[0]] + t[1..];
    }
  }

  /** One page of a key list: the first `limit` keys after `since`, in order, and
      the cursor to ask for more with ("" when the page is short). */
  ghost predicate IsPage(keys: set<string>, since: string, limit: nat, page: seq<string>, next: string) {
    && Ascending(page)
    && |page| <= limit
    && (forall k :: k in page ==> k in keys && Less(since, k))
    && (forall k :: k in keys && Less(since, k) && k !in page ==>
          |page| == limit && (page != [] ==> Less(page[|page| - 1], k)))
    && next == (if |page| == limit && page != [] then page[|page| - 1] else "")
  }

  lemma {:induction false} LastIsGreatest(p: seq<string>, k: string)
    requires Ascending(p) && k in p
    ensures AtMost(k, p[|p| - 1])
  {
  }

  /** A page skips nothing: what lies between the cursor and a listed key is listed. */
  lemma {:induction false} PageHasNoHoles(keys: set<string>, since: string, limit: nat,
                       page: seq<string>, next: string, k: string, x: string)
    requires IsPage(keys, since, limit, page, next)
    requires k in page && x in keys && Less(since, x) && Less(x, k)
    ensures x in page
  {
    LastIsGreatest(page, k);
    StrictTotalOrder();
  }

  lemma {:induction false} MissingMeansLonger(p: seq<string>, q: seq<string>, k: string)
    requires Ascending(p) && Ascending(q)
    requires k in p && k !in q && forall x :: x in q ==> x in p
    ensures |q| < |p|
  {
    ElementsCount(p);
    ElementsCount(q);
    assert Elements(q) <= Elements(p) - {k};
    SubsetSize(Elements(q), Elements(p) - {k});
  }

  lemma {:induction false} PageContains(keys: set<string>, since: string, limit: nat,
                     p1: seq<string>, n1: string, p2: seq<string>, n2: string, k: string)
    requires IsPage(keys, since, limit, p1, n1) && IsPage(keys, since, limit, p2, n2)
    requires k in p1
    ensures k in p2
  {
    if k !in p2 {
      forall x | x in p2 ensures x in p1 {
        LastIsGreatest(p2, x);
        StrictTotalOrder();
        PageHasNoHoles(keys, since, limit, p1, n1, k, x);
      }
      MissingMeansLonger(p1, p2, k);
      assert false;
    }
  }

  /** A page is determined by the key set, the cursor and the limit. */
  lemma {:induction false} PageIsUnique(keys: set<string>, since: string, limit: nat,
                     p1: seq<string>, n1: string, p2: seq<string>, n2: string)
    requires IsPage(keys, since, limit, p1, n1) && IsPage(keys, since, limit, p2, n2)
    ensures p1 == p2 && n1 == n2
  {
    forall k ensures k in p1 <==> k in p2 {
      if k in p1 { PageContains(keys, since, limit, p1, n1, p2, n2, k); }
      if k in p2 { PageContains(keys, since, limit, p2, n2, p1, n1, k); }
    }
    AscendingIsUnique(p1, p2);
  }

  function Elements(s: seq<string>): set<string> {
    set k | k in s
  }

  lemma {:induction false} ElementsCount(s: seq<string>)
    requires Ascending(s)
    ensures |Elements(s)| == |s|
  {
    if s != [] {
      ElementsCount(s[1..]);
      LessIrreflexive(s[0]);
      assert s[0] !in s[1..];
      assert Elements(s) == {s[0]} + Elements(s[1..]);
    }
  }

  lemma {:induction false} SubsetSize<T>(a: set<T>, b: set<T>)
    requires a <= b
    ensures |a| <= |b|
  {
    if a != {} {
      var x :| x in a;
      SubsetSize(a - {x}, b - {x});
    }
  }
}
