/**
 * Kotlin's `List.filter` and `List.map` on immutable lists, with the facts the
 * rest of the model needs about them.
 */
module Seqs {

  /** `a` is obtained from `b` by deleting elements, keeping the rest in order. */
  predicate IsSubsequence<T(==)>(a: seq<T>, b: seq<T>)
    decreases |b|
  {
    if a == [] then true
    else if b == [] then false
    else if a[0] == b[0] then IsSubsequence(a[1..], b[1..])
    else IsSubsequence(a, b[1..])
  }

  /** Every element of a subsequence occurs in the original, and it is no longer. */
  lemma {:induction false} SubsequenceElements<T>(a: seq<T>, b: seq<T>)
    requires IsSubsequence(a, b)
    ensures |a| <= |b|
    ensures forall x :: x in a ==> x in b
    decreases |b|
  {
    if a != [] {
      if a[0] == b[0] {
        SubsequenceElements(a[1..], b[1..]);
        forall x | x in a ensures x in b {
          if x != a[0] { assert x in a[1..]; }
        }
      } else {
        SubsequenceElements(a, b[1..]);
      }
    }
  }

  /**
   * Kotlin `s.filter(keep)`: the elements satisfying `keep`, in their original order
   * (`FilterCounts` adds that each keeps all its copies).
   */
  function Filter<T>(s: seq<T>, keep: T -> bool): (r: seq<T>)
    ensures |r| <= |s|
    ensures forall i :: 0 <= i < |r| ==> r[i] in s && keep(r[i])
    ensures forall i :: 0 <= i < |s| && keep(s[i]) ==> s[i] in r
    ensures IsSubsequence(r, s)
  {
    if s == [] then []
    else if keep(s[0]) then [s[0]] + Filter(s[1..], keep)
    else Filter(s[1..], keep)
  }

  /** Filtering keeps every copy of a kept element and no copy of a dropped one. */
  lemma {:induction false} FilterCounts<T>(s: seq<T>, keep: T -> bool)
    ensures forall x :: multiset(Filter(s, keep))[x] == if keep(x) then multiset(s)[x] else 0
  {
    if s != [] {
      FilterCounts(s[1..], keep);
      assert s == [s[0]] + s[1..];
    }
  }

  /** Filtering with a predicate every element satisfies returns the list itself. */
  lemma {:induction false} FilterKeepAll<T>(s: seq<T>, keep: T -> bool)
    requires forall i :: 0 <= i < |s| ==> keep(s[i])
    ensures Filter(s, keep) == s
  {
    if s != [] {
      FilterKeepAll(s[1..], keep);
    }
  }

  /** Filtering with a stronger predicate yields a subsequence of filtering with a weaker one. */
  lemma {:induction false} FilterMonotone<T>(s: seq<T>, strong: T -> bool, weak: T -> bool)
    requires forall x :: strong(x) ==> weak(x)
    ensures IsSubsequence(Filter(s, strong), Filter(s, weak))
  {
    if s != [] {
      FilterMonotone(s[1..], strong, weak);
      var rs, rw := Filter(s[1..], strong), Filter(s[1..], weak);
      if strong(s[0]) {
        assert Filter(s, strong) == [s[0]] + rs;
        assert Filter(s, weak) == [s[0]] + rw;
        assert ([s[0]] + rs)[1..] == rs;
        assert ([s[0]] + rw)[1..] == rw;
      } else if weak(s[0]) {
        assert Filter(s, weak) == [s[0]] + rw;
        assert ([s[0]] + rw)[1..] == rw;
        if rs != [] {
          SubsequenceElements(rs, s[1..]);
          SubsequenceTail(rs, rw, s[0]);
        }
      }
    }
  }

  /** Prepending an element to the longer list keeps a subsequence a subsequence. */
  lemma {:induction false} SubsequenceTail<T>(a: seq<T>, b: seq<T>, x: T)
    requires IsSubsequence(a, b)
    ensures IsSubsequence(a, [x] + b)
    decreases |a| + |b|, 1
  {
    if a != [] {
      assert ([x] + b)[1..] == b;
      if a[0] == x {
        SubsequenceDropFront(a, b);
      }
    }
  }

  /** Dropping the first element of a non-empty subsequence leaves a subsequence. */
  lemma {:induction false} SubsequenceDropFront<T>(a: seq<T>, b: seq<T>)
    requires a != []
    requires IsSubsequence(a, b)
    ensures IsSubsequence(a[1..], b)
    decreases |a| + |b|, 0
  {
    if a[0] == b[0] {
      if a[1..] != [] {
        SubsequenceTail(a[1..], b[1..], b[0]);
        assert [b[0]] + b[1..] == b;
      }
    } else {
      SubsequenceDropFront(a, b[1..]);
      if a[1..] != [] {
        SubsequenceTail(a[1..], b[1..], b[0]);
        assert [b[0]] + b[1..] == b;
      }
    }
  }

  /** Kotlin `s.map(f)`: `f` applied to every element, positions preserved. */
  function MapSeq<T, U>(s: seq<T>, f: T -> U): (r: seq<U>)
    ensures |r| == |s|
    ensures forall i :: 0 <= i < |s| ==> r[i] == f(s[i])
  {
    if s == [] then [] else [f(s[0])] + MapSeq(s[1..], f)
  }

  /** No two elements of `s` share a key. */
  predicate UniqueBy<T, K(==)>(s: seq<T>, key: T -> K) {
    forall i, j :: 0 <= i < j < |s| ==> key(s[i]) != key(s[j])
  }

  /** Filtering keeps keys unique. */
  lemma {:induction false} FilterUniqueBy<T, K>(s: seq<T>, keep: T -> bool, key: T -> K)
    requires UniqueBy(s, key)
    ensures UniqueBy(Filter(s, keep), key)
  {
    if s != [] {
      assert UniqueBy(s[1..], key) by {
        forall i, j | 0 <= i < j < |s[1..]| ensures key(s[1..][i]) != key(s[1..][j]) {
          assert s[1..][i] == s[i + 1] && s[1..][j] == s[j + 1];
        }
      }
      FilterUniqueBy(s[1..], keep, key);
      var rest := Filter(s[1..], keep);
      if keep(s[0]) {
        var r := [s[0]] + rest;
        forall i, j | 0 <= i < j < |r| ensures key(r[i]) != key(r[j]) {
          if i == 0 {
            assert r[j] == rest[j - 1];
            assert r[j] in s[1..];
            var k :| 0 <= k < |s[1..]| && s[1..][k] == r[j];
            assert s[k + 1] == r[j];
          } else {
            assert r[i] == rest[i - 1] && r[j] == rest[j - 1];
          }
        }
      }
    }
  }

  /** Filtering distributes over concatenation. */
  lemma {:induction false} FilterAppend<T>(a: seq<T>, b: seq<T>, keep: T -> bool)
    ensures Filter(a + b, keep) == Filter(a, keep) + Filter(b, keep)
  {
    if a == [] {
      assert a + b == b;
    } else {
      assert (a + b)[0] == a[0];
      assert (a + b)[1..] == a[1..] + b;
      FilterAppend(a[1..], b, keep);
    }
  }

  /** Dropping the first element commutes with mapping. */
  lemma MapSeqTail<T, U>(s: seq<T>, f: T -> U)
    requires s != []
    ensures MapSeq(s, f)[1..] == MapSeq(s[1..], f)
  {
  }

  /** Mapping with a function that fixes every element returns the list itself. */
  lemma MapSeqIdentity<T>(s: seq<T>, f: T -> T)
    requires forall i :: 0 <= i < |s| ==> f(s[i]) == s[i]
    ensures MapSeq(s, f) == s
  {
  }

  /** Replacing elements without changing their keys keeps keys unique. */
  lemma MapSeqUniqueBy<T, K>(s: seq<T>, f: T -> T, key: T -> K)
    requires UniqueBy(s, key)
    requires forall i :: 0 <= i < |s| ==> key(f(s[i])) == key(s[i])
    ensures UniqueBy(MapSeq(s, f), key)
  {
  }

  /** The tail of a list with unique keys has unique keys, none equal to the head's key. */
  lemma UniqueByTail<T, K>(s: seq<T>, key: T -> K)
    requires s != []
    requires UniqueBy(s, key)
    ensures UniqueBy(s[1..], key)
    ensures forall i :: 0 <= i < |s[1..]| ==> key(s[1..][i]) != key(s[0])
  {
    forall i, j | 0 <= i < j < |s[1..]| ensures key(s[1..][i]) != key(s[1..][j]) {
      assert s[1..][i] == s[i + 1] && s[1..][j] == s[j + 1];
    }
    forall i | 0 <= i < |s[1..]| ensures key(s[1..][i]) != key(s[0]) {
      assert s[1..][i] == s[i + 1];
    }
  }

  /** Filtering out exactly one position shortens the list by one. */
  lemma {:induction false} FilterDropsOne<T>(s: seq<T>, keep: T -> bool, k: int)
    requires 0 <= k < |s| && !keep(s[k])
    requires forall i :: 0 <= i < |s| && i != k ==> keep(s[i])
    ensures |Filter(s, keep)| == |s| - 1
  {
    if k == 0 {
      FilterKeepAll(s[1..], keep);
    } else {
      FilterDropsOne(s[1..], keep, k - 1);
    }
  }

  /** Filtering with a predicate no element satisfies returns the empty list. */
  lemma {:induction false} FilterNone<T>(s: seq<T>, keep: T -> bool)
    requires forall i :: 0 <= i < |s| ==> !keep(s[i])
    ensures Filter(s, keep) == []
  {
    if s != [] {
      FilterNone(s[1..], keep);
    }
  }

  /** Filtering with a predicate exactly one position satisfies keeps that one element. */
  lemma {:induction false} FilterPicksOne<T>(s: seq<T>, keep: T -> bool, a: int)
    requires 0 <= a < |s|
    requires forall i :: 0 <= i < |s| ==> keep(s[i]) == (i == a)
    ensures Filter(s, keep) == [s[a]]
  {
    if a == 0 {
      forall i | 0 <= i < |s[1..]| ensures !keep(s[1..][i]) {
        assert s[1..][i] == s[i + 1];
      }
      FilterNone(s[1..], keep);
    } else {
      forall i | 0 <= i < |s[1..]| ensures keep(s[1..][i]) == (i == a - 1) {
        assert s[1..][i] == s[i + 1];
      }
      FilterPicksOne(s[1..], keep, a - 1);
    }
  }

  /** Filtering with a predicate exactly two positions satisfy keeps those two, in order. */
  lemma {:induction false} FilterPicksTwo<T>(s: seq<T>, keep: T -> bool, a: int, b: int)
    requires 0 <= a < b < |s|
    requires forall i :: 0 <= i < |s| ==> keep(s[i]) == (i == a || i == b)
    ensures Filter(s, keep) == [s[a], s[b]]
  {
    if a == 0 {
      forall i | 0 <= i < |s[1..]| ensures keep(s[1..][i]) == (i == b - 1) {
        assert s[1..][i] == s[i + 1];
      }
      FilterPicksOne(s[1..], keep, b - 1);
    } else {
      forall i | 0 <= i < |s[1..]| ensures keep(s[1..][i]) == (i == a - 1 || i == b - 1) {
        assert s[1..][i] == s[i + 1];
      }
      FilterPicksTwo(s[1..], keep, a - 1, b - 1);
    }
  }

  /** Two predicates that agree on every element filter alike. */
  lemma {:induction false} FilterAgree<T>(s: seq<T>, f: T -> bool, g: T -> bool)
    requires forall i :: 0 <= i < |s| ==> f(s[i]) == g(s[i])
    ensures Filter(s, f) == Filter(s, g)
  {
    if s != [] {
      forall i | 0 <= i < |s[1..]| ensures f(s[1..][i]) == g(s[1..][i]) {
        assert s[1..][i] == s[i + 1];
      }
      FilterAgree(s[1..], f, g);
    }
  }

  /** Every list is a subsequence of itself. */
  lemma {:induction false} SubsequenceReflexive<T>(s: seq<T>)
    ensures IsSubsequence(s, s)
  {
    if s != [] {
      SubsequenceReflexive(s[1..]);
    }
  }
}
