/** Orderings used by the derived views: a stable sort on an integer rank
    (`Array.prototype.sort` with a numeric comparator is stable), the
    "sort then take the first n" idiom, and the code-unit order on strings
    that `sort()` with no comparator uses. */
module Ordering {
  import opened Common

  // ---------------------------------------------------------------------
  // Stable sort on an integer rank
  // ---------------------------------------------------------------------

  /** Ranks never decrease along `s`. */
  ghost predicate SortedBy<T>(s: seq<T>, rank: T -> int) {
    forall i, j :: 0 <= i < j < |s| ==> rank(s[i]) <= rank(s[j])
  }

  /** Putting an element in front of a sorted list whose ranks are all at
      least its own keeps the list sorted. */
  lemma ConsSorted<T>(a: T, tail: seq<T>, rank: T -> int)
    requires SortedBy(tail, rank)
    requires forall y :: y in tail ==> rank(a) <= rank(y)
    ensures SortedBy([a] + tail, rank)
  {
    var r := [a] + tail;
    forall i, j | 0 <= i < j < |r|
      ensures rank(r[i]) <= rank(r[j])
    {
      assert r[j] == tail[j - 1];
      if i > 0 {
        assert r[i] == tail[i - 1];
      }
    }
  }

  /** Inserts `x` before the first element whose rank is not smaller. */
  function Insert<T>(x: T, s: seq<T>, rank: T -> int): (r: seq<T>)
    requires SortedBy(s, rank)
    ensures |r| == |s| + 1
    ensures multiset(r) == multiset(s) + multiset{x}
    ensures SortedBy(r, rank)
  {
    if s == [] || rank(x) <= rank(s[0]) then
      ConsSorted(x, s, rank);
      [x] + s
    else
      var tail := Insert(x, s[1..], rank);
      HeadBelowTail(x, s, tail, rank);
      ConsSorted(s[0], tail, rank);
      [s[0]] + tail
  }

  /** Same elements, as a multiset, means the same members. */
  lemma SameMembers<T>(a: seq<T>, b: seq<T>)
    requires multiset(a) == multiset(b)
    ensures forall y :: y in a <==> y in b
  {
    forall y ensures y in a <==> y in b {
      assert y in a <==> y in multiset(a);
      assert y in b <==> y in multiset(b);
    }
  }

  /** The head of a sorted list ranks no higher than anything in the rest
      of it with `x` added, when `x` ranks higher than the head. */
  lemma HeadBelowTail<T>(x: T, s: seq<T>, tail: seq<T>, rank: T -> int)
    requires SortedBy(s, rank) && s != [] && rank(s[0]) < rank(x)
    requires multiset(tail) == multiset(s[1..]) + multiset{x}
    ensures forall y :: y in tail ==> rank(s[0]) <= rank(y)
    ensures multiset([s[0]] + tail) == multiset(s) + multiset{x}
  {
    assert s == [s[0]] + s[1..];
    forall y | y in tail ensures rank(s[0]) <= rank(y) {
      assert y in multiset(tail);
      assert y == x || y in multiset(s[1..]);
    }
  }

  /** Insertion sort: sorted, a permutation of the input. */
  function SortBy<T>(s: seq<T>, rank: T -> int): (r: seq<T>)
    ensures |r| == |s|
    ensures multiset(r) == multiset(s)
    ensures SortedBy(r, rank)
  {
    if s == [] then []
    else
      assert s == [s[0]] + s[1..];
      Insert(s[0], SortBy(s[1..], rank), rank)
  }

  /** The elements of `s` of rank `k`, in their order in `s`. */
  function OfRank<T>(s: seq<T>, rank: T -> int, k: int): seq<T> {
    if s == [] then []
    else (if rank(s[0]) == k then [s[0]] else []) + OfRank(s[1..], rank, k)
  }

  lemma OfRankCons<T>(x: T, s: seq<T>, rank: T -> int, k: int)
    ensures OfRank([x] + s, rank, k) == (if rank(x) == k then [x] else []) + OfRank(s, rank, k)
  {
    assert ([x] + s)[1..] == s;
  }

  /** Inserting keeps the elements of every rank in order, `x` first among
      its equals: what makes the sort stable. */
  lemma {:induction false} InsertStable<T>(x: T, s: seq<T>, rank: T -> int, k: int)
    requires SortedBy(s, rank)
    ensures OfRank(Insert(x, s, rank), rank, k)
         == (if rank(x) == k then [x] else []) + OfRank(s, rank, k)
  {
    if s == [] || rank(x) <= rank(s[0]) {
      OfRankCons(x, s, rank, k);
    } else {
      var tail := Insert(x, s[1..], rank);
      assert Insert(x, s, rank) == [s[0]] + tail;
      assert SortedBy(s[1..], rank);
      InsertStable(x, s[1..], rank, k);
      OfRankCons(s[0], tail, rank, k);
      assert s == [s[0]] + s[1..];
      OfRankCons(s[0], s[1..], rank, k);
      if rank(x) == k {
        assert rank(s[0]) != k;
        assert OfRank(s, rank, k) == OfRank(s[1..], rank, k);
      } else {
        assert OfRank(tail, rank, k) == OfRank(s[1..], rank, k);
      }
    }
  }

  /** Stability: the elements of any one rank keep their relative order. */
  lemma {:induction false} SortByStable<T>(s: seq<T>, rank: T -> int, k: int)
    ensures OfRank(SortBy(s, rank), rank, k) == OfRank(s, rank, k)
  {
    if s != [] {
      var sortedTail := SortBy(s[1..], rank);
      var first := if rank(s[0]) == k then [s[0]] else [];
      calc {
        OfRank(SortBy(s, rank), rank, k);
        OfRank(Insert(s[0], sortedTail, rank), rank, k);
        { InsertStable(s[0], sortedTail, rank, k); }
        first + OfRank(sortedTail, rank, k);
        { SortByStable(s[1..], rank, k); }
        first + OfRank(s[1..], rank, k);
        OfRank(s, rank, k);
      }
    }
  }

  function Min(a: int, b: int): int { if a <= b then a else b }

  /** What the first `m` elements of a sorted list say about the rest. */
  lemma PrefixOfSorted<T>(sorted: seq<T>, m: nat, rank: T -> int)
    requires SortedBy(sorted, rank) && m <= |sorted|
    ensures multiset(sorted[..m]) <= multiset(sorted)
    ensures forall x :: x in sorted && multiset(sorted[..m])[x] < multiset(sorted)[x] ==>
              m < |sorted| && (m > 0 ==> rank(sorted[m - 1]) <= rank(x))
  {
    var r, rest := sorted[..m], sorted[m..];
    assert sorted == r + rest;
    forall x | x in sorted && multiset(r)[x] < multiset(sorted)[x]
      ensures m < |sorted| && (m > 0 ==> rank(sorted[m - 1]) <= rank(x))
    {
      assert x in multiset(rest);
      var j :| 0 <= j < |rest| && rest[j] == x;
      assert sorted[m + j] == x;
    }
  }

  /** `[...s].sort(by rank).slice(0, n)`: the n lowest-ranked elements; any
      element left out ranks no lower than the last one kept. */
  function TopN<T>(s: seq<T>, rank: T -> int, n: nat): (r: seq<T>)
    ensures |r| == Min(n, |s|)
    ensures SortedBy(r, rank)
    ensures multiset(r) <= multiset(s)
    ensures forall x :: x in s && multiset(r)[x] < multiset(s)[x] ==>
              |r| == n && (n > 0 ==> rank(r[n - 1]) <= rank(x))
  {
    var sorted := SortBy(s, rank);
    TopOfSorted(s, sorted, rank, n);
    sorted[..Min(n, |s|)]
  }

  lemma TopOfSorted<T>(s: seq<T>, sorted: seq<T>, rank: T -> int, n: nat)
    requires multiset(sorted) == multiset(s) && SortedBy(sorted, rank)
    ensures |sorted| == |s|
    ensures var r := sorted[..Min(n, |s|)];
            && SortedBy(r, rank)
            && multiset(r) <= multiset(s)
            && forall x :: x in s && multiset(r)[x] < multiset(s)[x] ==>
                 |r| == n && (n > 0 ==> rank(r[n - 1]) <= rank(x))
  {
    assert |sorted| == |multiset(sorted)| == |multiset(s)| == |s|;
    var m := Min(n, |s|);
    PrefixOfSorted(sorted, m, rank);
    SameMembers(s, sorted);
    var r := sorted[..m];
    assert SortedBy(r, rank) by {
      forall i, j | 0 <= i < j < |r| ensures rank(r[i]) <= rank(r[j]) {
        assert r[i] == sorted[i] && r[j] == sorted[j];
      }
    }
  }

  lemma {:induction false} OfRankConcat<T>(a: seq<T>, b: seq<T>, rank: T -> int, k: int)
    ensures OfRank(a + b, rank, k) == OfRank(a, rank, k) + OfRank(b, rank, k)
  {
    if a == [] {
      assert a + b == b;
    } else {
      OfRankConcat(a[1..], b, rank, k);
      assert a + b == [a[0]] + (a[1..] + b);
      OfRankCons(a[0], a[1..] + b, rank, k);
      assert a == [a[0]] + a[1..];
      OfRankCons(a[0], a[1..], rank, k);
    }
  }

  /** Ties are broken by position: of the elements of any one rank, those
      `TopN` keeps are the first ones of that rank in `s`, in their order
      in `s`. */
  lemma TopNKeepsTieOrder<T>(s: seq<T>, rank: T -> int, n: nat, k: int)
    ensures var kept := OfRank(TopN(s, rank, n), rank, k);
            |kept| <= |OfRank(s, rank, k)| && kept == OfRank(s, rank, k)[..|kept|]
  {
    var sorted := SortBy(s, rank);
    var m := Min(n, |s|);
    assert sorted == sorted[..m] + sorted[m..];
    OfRankConcat(sorted[..m], sorted[m..], rank, k);
    SortByStable(s, rank, k);
  }

  // ---------------------------------------------------------------------
  // Lexicographic order on strings (UTF-16 code units)
  // ---------------------------------------------------------------------

  /** `a <= b` in the order `sort()` uses when given no comparator. */
  predicate StrLe(a: string, b: string) {
    a == [] || (b != [] && (a[0] < b[0] || (a[0] == b[0] && StrLe(a[1..], b[1..]))))
  }

  lemma {:induction false} StrLeTotal(a: string, b: string)
    ensures StrLe(a, b) || StrLe(b, a)
  {
    if a != [] && b != [] && a[0] == b[0] {
      StrLeTotal(a[1..], b[1..]);
    }
  }

  lemma {:induction false} StrLeAntisymmetric(a: string, b: string)
    requires StrLe(a, b) && StrLe(b, a)
    ensures a == b
  {
    if a != [] && b != [] {
      StrLeAntisymmetric(a[1..], b[1..]);
      assert a == [a[0]] + a[1..] && b == [b[0]] + b[1..];
    }
  }

  lemma {:induction false} StrLeTransitive(a: string, b: string, c: string)
    requires StrLe(a, b) && StrLe(b, c)
    ensures StrLe(a, c)
  {
    if a != [] && a[0] == b[0] && b[0] == c[0] {
      StrLeTransitive(a[1..], b[1..], c[1..]);
    }
  }

  ghost predicate StrSorted(s: seq<string>) {
    forall i, j :: 0 <= i < j < |s| ==> StrLe(s[i], s[j])
  }

  /** Sorted and duplicate-free: strictly increasing. */
  ghost predicate StrictlySorted(s: seq<string>) {
    StrSorted(s) && NoDup(s)
  }

  lemma StrConsSorted(a: string, tail: seq<string>)
    requires StrSorted(tail)
    requires forall y :: y in tail ==> StrLe(a, y)
    ensures StrSorted([a] + tail)
  {
    var r := [a] + tail;
    forall i, j | 0 <= i < j < |r|
      ensures StrLe(r[i], r[j])
    {
      assert r[j] == tail[j - 1];
      if i > 0 {
        assert r[i] == tail[i - 1];
      }
    }
  }

  function InsertStr(x: string, s: seq<string>): (r: seq<string>)
    requires StrSorted(s)
    ensures |r| == |s| + 1
    ensures multiset(r) == multiset(s) + multiset{x}
    ensures StrSorted(r)
  {
    if s == [] || StrLe(x, s[0]) then
      StrBelowAll(x, s);
      StrConsSorted(x, s);
      [x] + s
    else
      var tail := InsertStr(x, s[1..]);
      StrLeTotal(x, s[0]);
      StrHeadBelowTail(x, s, tail);
      StrConsSorted(s[0], tail);
      [s[0]] + tail
  }

  /** Below the head of a sorted list is below all of it. */
  lemma StrBelowAll(x: string, s: seq<string>)
    requires StrSorted(s) && (s == [] || StrLe(x, s[0]))
    ensures forall y :: y in s ==> StrLe(x, y)
  {
    forall y | y in s ensures StrLe(x, y) {
      var j :| 0 <= j < |s| && s[j] == y;
      if j > 0 {
        StrLeTransitive(x, s[0], y);
      }
    }
  }

  lemma StrHeadBelowTail(x: string, s: seq<string>, tail: seq<string>)
    requires StrSorted(s) && s != [] && StrLe(s[0], x)
    requires multiset(tail) == multiset(s[1..]) + multiset{x}
    ensures forall y :: y in tail ==> StrLe(s[0], y)
    ensures multiset([s[0]] + tail) == multiset(s) + multiset{x}
  {
    assert s == [s[0]] + s[1..];
    forall y | y in tail ensures StrLe(s[0], y) {
      assert y in multiset(tail);
      assert y == x || y in multiset(s[1..]);
    }
  }

  /** `s.sort()` on strings: sorted, a permutation of `s`. */
  function SortStrings(s: seq<string>): (r: seq<string>)
    ensures |r| == |s|
    ensures multiset(r) == multiset(s)
    ensures StrSorted(r)
  {
    if s == [] then []
    else
      assert s == [s[0]] + s[1..];
      InsertStr(s[0], SortStrings(s[1..]))
  }

  lemma {:induction false} NoDupAtMostOnce<T>(s: seq<T>, x: T)
    requires NoDup(s)
    ensures multiset(s)[x] <= 1
  {
    if s != [] {
      assert s == [s[0]] + s[1..];
      NoDupAtMostOnce(s[1..], x);
      if s[0] == x {
        assert x !in s[1..];
      }
    }
  }

  lemma TwiceCountsTwice<T>(s: seq<T>, i: nat, j: nat)
    requires i < j < |s| && s[i] == s[j]
    ensures multiset(s)[s[i]] >= 2
  {
    assert s == s[..i] + [s[i]] + s[i + 1..j] + [s[j]] + s[j + 1..];
  }

  /** A permutation of a duplicate-free list is duplicate-free. */
  lemma PermutationKeepsNoDup<T>(a: seq<T>, b: seq<T>)
    requires multiset(a) == multiset(b) && NoDup(a)
    ensures NoDup(b)
  {
    forall i, j | 0 <= i < j < |b|
      ensures b[i] != b[j]
    {
      NoDupAtMostOnce(a, b[i]);
      if b[i] == b[j] {
        TwiceCountsTwice(b, i, j);
      }
    }
  }

  /** Sorting a duplicate-free list of strings gives a strictly increasing one. */
  lemma SortStringsStrict(s: seq<string>)
    requires NoDup(s)
    ensures StrictlySorted(SortStrings(s))
  {
    PermutationKeepsNoDup(s, SortStrings(s));
  }

  /** The keys collected from a list, sorted: strictly increasing, and
      exactly the keys some element of the list has. */
  lemma SortedCollected<T>(s: seq<T>, key: T -> Option<string>, seen: seq<string>, r: seq<string>)
    requires seen == Collected(s, key) && r == SortStrings(seen)
    ensures StrictlySorted(r)
    ensures forall k :: k in r <==> exists x :: x in s && key(x) == Some(k)
  {
    CollectedFacts(s, key);
    SortStringsStrict(seen);
    SameMembers(seen, r);
  }

  /** A strictly increasing list is determined by its members. */
  lemma {:induction false} StrictlySortedUnique(a: seq<string>, b: seq<string>)
    requires StrictlySorted(a) && StrictlySorted(b)
    requires forall x :: x in a <==> x in b
    ensures a == b
  {
    if a == [] || b == [] {
      EmptyIffNoMembers(a);
      EmptyIffNoMembers(b);
    } else {
      assert a[0] in b && b[0] in a;
      if a[0] != b[0] {
        var i :| 0 <= i < |b| && b[i] == a[0];
        var j :| 0 <= j < |a| && a[j] == b[0];
        StrLeAntisymmetric(a[0], b[0]);
      }
      TailStrictlySorted(a);
      TailStrictlySorted(b);
      forall x ensures x in a[1..] <==> x in b[1..] {
        TailMember(a, x);
        TailMember(b, x);
      }
      StrictlySortedUnique(a[1..], b[1..]);
      assert a == [a[0]] + a[1..] && b == [b[0]] + b[1..];
    }
  }

  lemma EmptyIffNoMembers<T>(s: seq<T>)
    ensures s == [] <==> forall x :: x !in s
  {
    if s != [] {
      assert s[0] in s;
    }
  }

  lemma TailStrictlySorted(a: seq<string>)
    requires StrictlySorted(a) && a != []
    ensures StrictlySorted(a[1..])
  {
    var t := a[1..];
    forall i, j | 0 <= i < j < |t| ensures StrLe(t[i], t[j]) && t[i] != t[j] {
      assert t[i] == a[i + 1] && t[j] == a[j + 1];
    }
  }

  /** In a list without duplicates, the tail holds every member but the head. */
  lemma TailMember<T>(a: seq<T>, x: T)
    requires NoDup(a) && a != []
    ensures x in a[1..] <==> x in a && x != a[0]
  {
    assert a == [a[0]] + a[1..];
    if x in a[1..] {
      var k :| 0 <= k < |a[1..]| && a[1..][k] == x;
      assert a[k + 1] == x;
    }
  }
}
