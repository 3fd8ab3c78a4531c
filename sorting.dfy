/**
  The two orderings the source relies on: Python's stable `sort`/`sorted` with a key,
  modelled as a stable insertion sort over a total preorder, and Python's ordering of
  strings (lexicographic by code point).
 */
module Sorting {

  /** `le` compares every two elements and chains. */
  ghost predicate TotalPreorder<T(!new)>(le: (T, T) -> bool) {
    && (forall a, b :: le(a, b) || le(b, a))
    && (forall a, b, c :: le(a, b) && le(b, c) ==> le(a, c))
  }

  ghost predicate SortedBy<T>(s: seq<T>, le: (T, T) -> bool) {
    forall i, j :: 0 <= i < j < |s| ==> le(s[i], s[j])
  }

  /** Inserts `x` after every element of `s` that is not above it, which keeps equal keys in arrival order. */
  function Insert<T(!new)>(x: T, s: seq<T>, le: (T, T) -> bool): (r: seq<T>)
    requires TotalPreorder(le)
    requires SortedBy(s, le)
    ensures multiset(r) == multiset(s) + multiset{x}
    ensures SortedBy(r, le)
  {
    if |s| == 0 then [x]
    else if le(s[0], x) then
      SortedTail(s, le);
      var rest := Insert(x, s[1..], le);
      BoundSurvivesInsert(s[0], x, s[1..], rest, le);
      SortedCons(s[0], rest, le);
      assert s == [s[0]] + s[1..];
      [s[0]] + rest
    else
      BelowSorted(x, s, le);
      SortedCons(x, s, le);
      [x] + s
  }

  /** An element not above the head of a sorted sequence is below all of it. */
  lemma BelowSorted<T(!new)>(x: T, s: seq<T>, le: (T, T) -> bool)
    requires TotalPreorder(le) && SortedBy(s, le)
    requires |s| > 0 && !le(s[0], x)
    ensures forall k :: 0 <= k < |s| ==> le(x, s[k])
  {
    assert le(x, s[0]);
    forall k | 0 < k < |s| ensures le(x, s[k]) {
      assert le(s[0], s[k]);
    }
  }

  lemma SortedTail<T>(s: seq<T>, le: (T, T) -> bool)
    requires |s| > 0 && SortedBy(s, le)
    ensures SortedBy(s[1..], le)
    ensures forall k :: 0 <= k < |s[1..]| ==> le(s[0], s[1..][k])
  {
    forall i, j | 0 <= i < j < |s| - 1 ensures le(s[1..][i], s[1..][j]) {
      assert s[1..][i] == s[i + 1] && s[1..][j] == s[j + 1];
    }
  }

  lemma SortedCons<T>(y: T, s: seq<T>, le: (T, T) -> bool)
    requires SortedBy(s, le) && forall k :: 0 <= k < |s| ==> le(y, s[k])
    ensures SortedBy([y] + s, le)
  {
    forall i, j | 0 <= i < j < |s| + 1 ensures le(([y] + s)[i], ([y] + s)[j]) {
      if i > 0 {
        assert ([y] + s)[i] == s[i - 1];
      }
      assert ([y] + s)[j] == s[j - 1];
    }
  }

  /** An element below `x` and below every element of `s` is below every element of a permutation of `s` plus `x`. */
  lemma BoundSurvivesInsert<T>(y: T, x: T, s: seq<T>, r: seq<T>, le: (T, T) -> bool)
    requires multiset(r) == multiset(s) + multiset{x}
    requires le(y, x) && forall k :: 0 <= k < |s| ==> le(y, s[k])
    ensures forall k :: 0 <= k < |r| ==> le(y, r[k])
  {
    forall k | 0 <= k < |r| ensures le(y, r[k]) {
      assert r[k] in multiset(r);
      if r[k] != x {
        assert r[k] in multiset(s);
        var j :| 0 <= j < |s| && s[j] == r[k];
      }
    }
  }

  /** Python's stable sort of `s` under `le`: a sorted permutation of `s`. */
  function SortBy<T(!new)>(s: seq<T>, le: (T, T) -> bool): (r: seq<T>)
    requires TotalPreorder(le)
    ensures multiset(r) == multiset(s)
    ensures |r| == |s|
    ensures SortedBy(r, le)
    decreases |s|
  {
    if |s| == 0 then []
    else
      assert s == s[..|s| - 1] + [s[|s| - 1]];
      var r := Insert(s[|s| - 1], SortBy(s[..|s| - 1], le), le);
      assert |multiset(r)| == |multiset(s)|;
      r
  }

  /** `f` applied to every element of `s`, in order. */
  function MapSeq<T, U>(f: T -> U, s: seq<T>): (r: seq<U>)
    ensures |r| == |s|
    ensures forall i :: 0 <= i < |s| ==> r[i] == f(s[i])
  {
    if |s| == 0 then [] else [f(s[0])] + MapSeq(f, s[1..])
  }

  lemma {:induction false} MapSeqAppend<T, U>(f: T -> U, a: seq<T>, b: seq<T>)
    ensures MapSeq(f, a + b) == MapSeq(f, a) + MapSeq(f, b)
  {
  }

  lemma {:induction false} InsertMapsPermutation<T(!new), U>(x: T, s: seq<T>, le: (T, T) -> bool, f: T -> U)
    requires TotalPreorder(le) && SortedBy(s, le)
    ensures multiset(MapSeq(f, Insert(x, s, le))) == multiset(MapSeq(f, s)) + multiset{f(x)}
    decreases |s|
  {
    if |s| > 0 && le(s[0], x) {
      SortedTail(s, le);
      InsertMapsPermutation(x, s[1..], le, f);
      MapSeqAppend(f, [s[0]], Insert(x, s[1..], le));
      MapSeqAppend(f, [s[0]], s[1..]);
      assert s == [s[0]] + s[1..];
    } else if |s| > 0 {
      MapSeqAppend(f, [x], s);
    }
  }

  /** Sorting permutes the elements, so it permutes any feature `f` of them as well. */
  lemma {:induction false} SortByMapsPermutation<T(!new), U>(s: seq<T>, le: (T, T) -> bool, f: T -> U)
    requires TotalPreorder(le)
    ensures multiset(MapSeq(f, SortBy(s, le))) == multiset(MapSeq(f, s))
    decreases |s|
  {
    if |s| > 0 {
      var front, last := s[..|s| - 1], s[|s| - 1];
      assert s == front + [last];
      var sorted := SortBy(front, le);
      assert SortBy(s, le) == Insert(last, sorted, le);
      SortByMapsPermutation(front, le, f);
      InsertMapsPermutation(last, sorted, le, f);
      MapSeqAppend(f, front, [last]);
      assert MapSeq(f, [last]) == [f(last)];
    }
  }

  /** Python's `a <= b` on strings: lexicographic by code point, a proper prefix first. */
  predicate StrLe(a: string, b: string) {
    if |a| == 0 then true
    else if |b| == 0 then false
    else if a[0] != b[0] then a[0] < b[0]
    else StrLe(a[1..], b[1..])
  }

  lemma {:induction false} StrLeTotal(a: string, b: string)
    ensures StrLe(a, b) || StrLe(b, a)
  {
    if |a| > 0 && |b| > 0 && a[0] == b[0] {
      StrLeTotal(a[1..], b[1..]);
    }
  }

  lemma {:induction false} StrLeTransitive(a: string, b: string, c: string)
    requires StrLe(a, b) && StrLe(b, c)
    ensures StrLe(a, c)
  {
    if |a| > 0 && |b| > 0 && |c| > 0 && a[0] == b[0] && b[0] == c[0] {
      StrLeTransitive(a[1..], b[1..], c[1..]);
    }
  }

  lemma {:induction false} StrLeAntisymmetric(a: string, b: string)
    requires StrLe(a, b) && StrLe(b, a)
    ensures a == b
  {
    if |a| > 0 && |b| > 0 {
      StrLeAntisymmetric(a[1..], b[1..]);
      assert a == [a[0]] + a[1..] && b == [b[0]] + b[1..];
    }
  }

  lemma StrLeIsTotalPreorder()
    ensures TotalPreorder(StrLe)
  {
    forall a, b ensures StrLe(a, b) || StrLe(b, a) {
      StrLeTotal(a, b);
    }
    forall a, b, c | StrLe(a, b) && StrLe(b, c) ensures StrLe(a, c) {
      StrLeTransitive(a, b, c);
    }
  }
}
