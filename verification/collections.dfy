/**
 The two library operations the store logic leans on: walking a hash
 collection, whose order is arbitrary, and `sort_by`. Everything proved from
 these contracts holds for every iteration order and every choice between ties.
 */
module Collections {

  ghost predicate TotalPreorder<T(!new)>(le: (T, T) -> bool) {
    && (forall a, b :: le(a, b) || le(b, a))
    && (forall a, b, c :: le(a, b) && le(b, c) ==> le(a, c))
  }

  ghost predicate SortedBy<T>(s: seq<T>, le: (T, T) -> bool) {
    forall i, j :: 0 <= i < j < |s| ==> le(s[i], s[j])
  }

  ghost predicate Distinct<T>(s: seq<T>) {
    forall i, j :: 0 <= i < j < |s| ==> s[i] != s[j]
  }

  ghost predicate Enumerates<T(!new)>(s: seq<T>, all: set<T>) {
    && Distinct(s)
    && |s| == |all|
    && (forall x :: x in s <==> x in all)
  }

  /** The first n elements, or all there are. */
  function Take<T>(s: seq<T>, n: nat): seq<T> {
    if |s| <= n then s else s[..n]
  }

  /** The elements of a hash set or the entries of a hash map, in some order. */
  method Drain<T(==,!new)>(all: set<T>) returns (s: seq<T>)
    ensures Enumerates(s, all)
  {
    s := [];
    var rest := all;
    while rest != {}
      invariant rest <= all
      invariant Distinct(s)
      invariant |s| + |rest| == |all|
      invariant forall x :: x in s <==> x in all && x !in rest
      decreases |rest|
    {
      var x :| x in rest;
      rest := rest - {x};
      s := s + [x];
    }
  }

  lemma FullSubset<T>(a: set<T>, b: set<T>)
    requires a <= b && |a| == |b|
    ensures a == b
  {
    assert b == a + (b - a);
  }

  lemma {:induction false} DistinctSetSize<T(!new)>(s: seq<T>, all: set<T>)
    requires Distinct(s) && forall x :: x in s <==> x in all
    ensures |s| == |all|
  {
    if s == [] {
      assert forall x :: x !in all;
      assert all == {};
    } else {
      var n := |s| - 1;
      assert s == s[..n] + [s[n]];
      assert s[n] !in s[..n];
      DistinctSetSize(s[..n], all - {s[n]});
    }
  }

  lemma {:induction false} DistinctSize<T(!new)>(s: seq<T>)
    requires Distinct(s)
    ensures |set x | x in s| == |s|
  {
    if s != [] {
      var init, last := s[..|s| - 1], s[|s| - 1];
      DistinctSize(init);
      assert s == init + [last];
      assert (set x | x in s) == (set x | x in init) + {last};
    }
  }

  lemma SubsetSize<T>(a: set<T>, b: set<T>)
    requires a <= b
    ensures |a| <= |b|
  {
    assert b == a + (b - a);
  }

  lemma InsertAt<T>(s: seq<T>, i: nat, x: T)
    requires i <= |s|
    ensures multiset(s[..i] + [x] + s[i..]) == multiset(s + [x])
  {
    assert s[..i] + s[i..] == s;
  }

  lemma InsertSorted<T(!new)>(s: seq<T>, i: nat, x: T, le: (T, T) -> bool)
    requires TotalPreorder(le) && SortedBy(s, le) && i <= |s|
    requires i > 0 ==> le(s[i - 1], x)
    requires i < |s| ==> le(x, s[i])
    ensures SortedBy(s[..i] + [x] + s[i..], le)
  {
    var r := s[..i] + [x] + s[i..];
    forall j, k | 0 <= j < k < |r| ensures le(r[j], r[k]) {
      if j < i {
        assert r[j] == s[j];
        assert le(r[j], x);
        if k > i { assert r[k] == s[k - 1]; }
      } else if j == i {
        assert r[k] == s[k - 1];
      } else {
        assert r[j] == s[j - 1] && r[k] == s[k - 1];
      }
    }
  }

  method Insert<T(!new)>(r: seq<T>, x: T, le: (T, T) -> bool) returns (r': seq<T>)
    requires TotalPreorder(le) && SortedBy(r, le)
    ensures multiset(r') == multiset(r) + multiset{x}
    ensures |r'| == |r| + 1
    ensures SortedBy(r', le)
  {
    var i := |r|;
    while i > 0 && !le(r[i - 1], x)
      invariant 0 <= i <= |r|
      invariant i < |r| ==> le(x, r[i])
    {
      i := i - 1;
    }
    InsertAt(r, i, x);
    InsertSorted(r, i, x, le);
    r' := r[..i] + [x] + r[i..];
  }

  /** `sort_by`: a permutation of the input, in order. */
  method SortBy<T(!new)>(s: seq<T>, le: (T, T) -> bool) returns (r: seq<T>)
    requires TotalPreorder(le)
    ensures multiset(r) == multiset(s)
    ensures |r| == |s|
    ensures SortedBy(r, le)
  {
    r := [];
    for n := 0 to |s|
      invariant |r| == n
      invariant multiset(r) == multiset(s[..n])
      invariant SortedBy(r, le)
    {
      assert s[..n + 1] == s[..n] + [s[n]];
      r := Insert(r, s[n], le);
    }
    assert s[..|s|] == s;
  }

  /** Sorting keeps an enumeration an enumeration. */
  lemma PermutationEnumerates<T(!new)>(s: seq<T>, r: seq<T>, all: set<T>)
    requires Enumerates(s, all) && multiset(r) == multiset(s)
    ensures Enumerates(r, all)
  {
    assert |r| == |s| by {
      assert |multiset(r)| == |r| && |multiset(s)| == |s|;
    }
    DistinctCounts(s);
    forall i, j | 0 <= i < j < |r| ensures r[i] != r[j] {
      if r[i] == r[j] {
        CountsTwice(r, i, j);
        assert false;
      }
    }
    forall x ensures x in r <==> x in all {
      assert x in r <==> x in multiset(r);
      assert x in s <==> x in multiset(s);
    }
  }

  lemma {:induction false} DistinctCounts<T(!new)>(s: seq<T>)
    requires Distinct(s)
    ensures forall x :: multiset(s)[x] <= 1
  {
    if s != [] {
      var init := s[..|s| - 1];
      DistinctCounts(init);
      assert s == init + [s[|s| - 1]];
      assert s[|s| - 1] !in init;
    }
  }

  lemma CountsTwice<T>(s: seq<T>, i: nat, j: nat)
    requires i < j < |s| && s[i] == s[j]
    ensures multiset(s)[s[i]] >= 2
  {
    assert s == s[..j] + [s[j]] + s[j + 1..];
    assert s[i] in s[..j];
    assert s[i] in multiset(s[..j]);
  }

  /** Two strictly ordered enumerations of one set are the same list. */
  lemma {:induction false} SortedEnumerationsAgree<T(!new)>(s: seq<T>, r: seq<T>, all: set<T>, le: (T, T) -> bool)
    requires TotalPreorder(le)
    requires forall a, b :: a in all && b in all && le(a, b) && le(b, a) ==> a == b
    requires Enumerates(s, all) && SortedBy(s, le)
    requires Enumerates(r, all) && SortedBy(r, le)
    ensures s == r
    decreases |s|
  {
    if s != [] {
      var a, b := s[0], r[0];
      assert a in r && b in s;
      assert le(a, b) && le(b, a);
      var rest := all - {a};
      assert forall x :: x in s[1..] <==> x in rest;
      assert forall x :: x in r[1..] <==> x in rest;
      SortedEnumerationsAgree(s[1..], r[1..], rest, le);
      assert s == [a] + s[1..] && r == [b] + r[1..];
    }
  }
}

/** Rust's `str` ordering: by code point, a proper prefix first. */
module Lexical {
  import opened Collections

  predicate StrLe(a: string, b: string) {
    a == [] || (b != [] && (a[0] < b[0] || (a[0] == b[0] && StrLe(a[1..], b[1..]))))
  }

  predicate StrLt(a: string, b: string) {
    StrLe(a, b) && a != b
  }

  lemma {:induction false} StrTotal(a: string, b: string)
    ensures StrLe(a, b) || StrLe(b, a)
    ensures StrLe(a, b) && StrLe(b, a) ==> a == b
  {
    if a != [] && b != [] && a[0] == b[0] {
      StrTotal(a[1..], b[1..]);
      assert a == [a[0]] + a[1..] && b == [b[0]] + b[1..];
    }
  }

  lemma {:induction false} StrTransitive(a: string, b: string, c: string)
    requires StrLe(a, b) && StrLe(b, c)
    ensures StrLe(a, c)
  {
    if a != [] && a[0] == b[0] && b[0] == c[0] {
      StrTransitive(a[1..], b[1..], c[1..]);
    }
  }

  lemma SamePrefix(a: string, b: string, n: nat)
    requires n <= |a| && n <= |b| && a[..n] == b[..n]
    ensures n > 0 ==> a[0] == b[0]
  {
    if n > 0 {
      assert a[..n][0] == b[..n][0];
    }
  }

  /** The order spelled out: a prefix comes first, else the first differing character decides. */
  lemma {:induction false} StrLeMeans(a: string, b: string)
    ensures StrLe(a, b) <==>
              a <= b || exists i :: 0 <= i < |a| && i < |b| && a[..i] == b[..i] && a[i] < b[i]
  {
    if a != [] && b != [] {
      if a[0] == b[0] {
        StrLeMeans(a[1..], b[1..]);
        assert a == [a[0]] + a[1..] && b == [b[0]] + b[1..];
        if i :| 0 <= i < |a| && i < |b| && a[..i] == b[..i] && a[i] < b[i] {
          assert i > 0 && a[1..][..i - 1] == a[..i][1..] && b[1..][..i - 1] == b[..i][1..];
          assert a[1..][i - 1] < b[1..][i - 1];
        }
        if i :| 0 <= i < |a[1..]| && i < |b[1..]| && a[1..][..i] == b[1..][..i] && a[1..][i] < b[1..][i] {
          assert a[..i + 1] == [a[0]] + a[1..][..i] && b[..i + 1] == [b[0]] + b[1..][..i];
          assert a[i + 1] < b[i + 1];
        }
      } else if a[0] < b[0] {
        assert a[..0] == b[..0];
      } else if i :| 0 <= i < |a| && i < |b| && a[..i] == b[..i] && a[i] < b[i] {
        SamePrefix(a, b, i);
      }
    }
  }

  lemma StrIsOrder()
    ensures TotalPreorder(StrLe)
    ensures forall a, b :: StrLe(a, b) && StrLe(b, a) ==> a == b
  {
    forall a, b ensures StrLe(a, b) || StrLe(b, a) { StrTotal(a, b); }
    forall a, b | StrLe(a, b) && StrLe(b, a) ensures a == b { StrTotal(a, b); }
    forall a, b, c | StrLe(a, b) && StrLe(b, c) ensures StrLe(a, c) { StrTransitive(a, b, c); }
  }
}
