/** Sequence operations in the shape of JavaScript's Array.prototype.filter,
    Array.prototype.map and Array.prototype.reduce, with the facts the rest of
    the model relies on. */
module Seqs {

  /** `a` is obtained from `b` by deleting zero or more elements: every element
      of `a` comes from `b`, in `b`'s order, and none is used twice. */
  predicate IsSubsequence<T(==)>(a: seq<T>, b: seq<T>)
    decreases |b|
  {
    if a == [] then true
    else if b == [] then false
    else (a[0] == b[0] && IsSubsequence(a[1..], b[1..])) || IsSubsequence(a, b[1..])
  }

  /** No two positions of `s` share a key. */
  predicate DistinctBy<T, K(==)>(s: seq<T>, key: T -> K)
  {
    forall i, j :: 0 <= i < j < |s| ==> key(s[i]) != key(s[j])
  }

  /** The number of positions of `s` holding `x`. */
  function Count<T(==)>(s: seq<T>, x: T): nat
  {
    if s == [] then 0 else (if s[0] == x then 1 else 0) + Count(s[1..], x)
  }

  /** `Count` is the multiplicity of `x` in the multiset of `s`. */
  lemma {:induction false} CountIsMultiplicity<T>(s: seq<T>, x: T)
    ensures Count(s, x) == multiset(s)[x]
  {
    if s != [] {
      assert s == [s[0]] + s[1..];
      assert multiset(s) == multiset([s[0]]) + multiset(s[1..]);
      CountIsMultiplicity(s[1..], x);
    }
  }

  /** `s.filter(keep)`: the elements of `s` for which `keep` holds, in order.
      A kept value occurs in the result as often as in `s`. */
  function Filter<T(==)>(s: seq<T>, keep: T -> bool): (r: seq<T>)
    ensures |r| <= |s|
    ensures forall i :: 0 <= i < |r| ==> r[i] in s && keep(r[i])
    ensures forall i :: 0 <= i < |s| && keep(s[i]) ==> s[i] in r
    ensures IsSubsequence(r, s)
    ensures multiset(r) <= multiset(s)
    ensures forall i :: 0 <= i < |s| ==> Count(r, s[i]) == if keep(s[i]) then Count(s, s[i]) else 0
    ensures (forall i :: 0 <= i < |s| ==> keep(s[i])) ==> r == s
    ensures (forall i :: 0 <= i < |s| ==> !keep(s[i])) ==> r == []
  {
    if s == [] then []
    else
      var tail := Filter(s[1..], keep);
      var r := if keep(s[0]) then [s[0]] + tail else tail;
      StepMembers(s, keep, tail, r);
      StepComplete(s, keep, tail, r);
      StepSubsequence(s, keep, tail, r);
      StepMultiset(s, keep, tail, r);
      StepCount(s, keep, tail, r);
      StepAllOrNone(s, keep, tail, r);
      r
  }

  // The steps of `Filter`: each promise for `s` follows from the same promise
  // for the tail of `s`.

  lemma StepSubsequence<T>(s: seq<T>, keep: T -> bool, tail: seq<T>, r: seq<T>)
    requires s != []
    requires IsSubsequence(tail, s[1..])
    requires r == if keep(s[0]) then [s[0]] + tail else tail
    ensures IsSubsequence(r, s)
  {
    if keep(s[0]) {
      assert r[0] == s[0] && r[1..] == tail;
    }
  }

  lemma StepAllOrNone<T>(s: seq<T>, keep: T -> bool, tail: seq<T>, r: seq<T>)
    requires s != []
    requires (forall i :: 0 <= i < |s[1..]| ==> keep(s[1..][i])) ==> tail == s[1..]
    requires (forall i :: 0 <= i < |s[1..]| ==> !keep(s[1..][i])) ==> tail == []
    requires r == if keep(s[0]) then [s[0]] + tail else tail
    ensures (forall i :: 0 <= i < |s| ==> keep(s[i])) ==> r == s
    ensures (forall i :: 0 <= i < |s| ==> !keep(s[i])) ==> r == []
  {
    if forall i :: 0 <= i < |s| ==> keep(s[i]) {
      assert forall i :: 0 <= i < |s[1..]| ==> keep(s[1..][i]) by {
        forall i | 0 <= i < |s[1..]| ensures keep(s[1..][i]) {
          assert s[1..][i] == s[i + 1];
        }
      }
      assert s == [s[0]] + s[1..];
    }
    if forall i :: 0 <= i < |s| ==> !keep(s[i]) {
      assert forall i :: 0 <= i < |s[1..]| ==> !keep(s[1..][i]) by {
        forall i | 0 <= i < |s[1..]| ensures !keep(s[1..][i]) {
          assert s[1..][i] == s[i + 1];
        }
      }
    }
  }

  lemma StepMembers<T>(s: seq<T>, keep: T -> bool, tail: seq<T>, r: seq<T>)
    requires s != []
    requires forall i :: 0 <= i < |tail| ==> tail[i] in s[1..] && keep(tail[i])
    requires r == if keep(s[0]) then [s[0]] + tail else tail
    ensures forall i :: 0 <= i < |r| ==> r[i] in s && keep(r[i])
  {
    forall i | 0 <= i < |r| ensures r[i] in s && keep(r[i]) {
      if keep(s[0]) && i == 0 {
        assert r[0] == s[0];
      } else {
        var j := if keep(s[0]) then i - 1 else i;
        assert r[i] == tail[j];
        var m :| 0 <= m < |s[1..]| && s[1..][m] == tail[j];
        assert s[m + 1] == r[i];
      }
    }
  }

  lemma StepComplete<T>(s: seq<T>, keep: T -> bool, tail: seq<T>, r: seq<T>)
    requires s != []
    requires forall i :: 0 <= i < |s[1..]| && keep(s[1..][i]) ==> s[1..][i] in tail
    requires r == if keep(s[0]) then [s[0]] + tail else tail
    ensures forall i :: 0 <= i < |s| && keep(s[i]) ==> s[i] in r
  {
    forall i | 0 <= i < |s| && keep(s[i]) ensures s[i] in r {
      if i > 0 {
        assert s[i] == s[1..][i - 1];
      }
    }
  }

  lemma StepMultiset<T>(s: seq<T>, keep: T -> bool, tail: seq<T>, r: seq<T>)
    requires s != []
    requires multiset(tail) <= multiset(s[1..])
    requires r == if keep(s[0]) then [s[0]] + tail else tail
    ensures multiset(r) <= multiset(s)
  {
    assert s == [s[0]] + s[1..];
    assert multiset(s) == multiset([s[0]]) + multiset(s[1..]);
    if keep(s[0]) {
      assert multiset(r) == multiset([s[0]]) + multiset(tail);
    }
  }

  lemma StepCount<T>(s: seq<T>, keep: T -> bool, tail: seq<T>, r: seq<T>)
    requires s != []
    requires forall i :: 0 <= i < |s[1..]| ==> Count(tail, s[1..][i]) == if keep(s[1..][i]) then Count(s[1..], s[1..][i]) else 0
    requires forall i :: 0 <= i < |tail| ==> tail[i] in s[1..]
    requires r == if keep(s[0]) then [s[0]] + tail else tail
    ensures forall i :: 0 <= i < |s| ==> Count(r, s[i]) == if keep(s[i]) then Count(s, s[i]) else 0
  {
    if keep(s[0]) {
      assert r[1..] == tail;
    }
    forall i | 0 <= i < |s|
      ensures Count(r, s[i]) == if keep(s[i]) then Count(s, s[i]) else 0
    {
      var x := s[i];
      assert Count(s, x) == (if s[0] == x then 1 else 0) + Count(s[1..], x);
      if x in s[1..] {
        var m :| 0 <= m < |s[1..]| && s[1..][m] == x;
        assert Count(tail, x) == if keep(x) then Count(s[1..], x) else 0;
      } else {
        CountAbsent(s[1..], x);
        CountAbsent(tail, x);
      }
    }
  }

  lemma {:induction false} CountAbsent<T>(s: seq<T>, x: T)
    requires x !in s
    ensures Count(s, x) == 0
  {
    if s != [] {
      CountAbsent(s[1..], x);
    }
  }

  /** `s.map(f)`: position `i` of the result is `f(s[i])`. */
  function Map<T, U>(s: seq<T>, f: T -> U): (r: seq<U>)
    ensures |r| == |s|
    ensures forall i :: 0 <= i < |s| ==> r[i] == f(s[i])
  {
    if s == [] then [] else [f(s[0])] + Map(s[1..], f)
  }

  /** Reference sum w(s[0]) + w(s[1]) + ... + w(s[|s| - 1]). */
  function Sum<T>(s: seq<T>, w: T -> int): int
  {
    if s == [] then 0 else w(s[0]) + Sum(s[1..], w)
  }

  /** `s.reduce((acc, x) => acc + w(x), acc)`: a left fold. */
  function FoldSum<T>(s: seq<T>, acc: int, w: T -> int): int
  {
    if s == [] then acc else FoldSum(s[1..], acc + w(s[0]), w)
  }

  /** The left fold started at `acc` is `acc` plus the reference sum. */
  lemma {:induction false} FoldSumIsSum<T>(s: seq<T>, acc: int, w: T -> int)
    ensures FoldSum(s, acc, w) == acc + Sum(s, w)
  {
    if s != [] {
      FoldSumIsSum(s[1..], acc + w(s[0]), w);
    }
  }

  lemma {:induction false} SumAppend<T>(a: seq<T>, b: seq<T>, w: T -> int)
    ensures Sum(a + b, w) == Sum(a, w) + Sum(b, w)
  {
    if a == [] {
      assert a + b == b;
    } else {
      assert (a + b)[1..] == a[1..] + b;
      SumAppend(a[1..], b, w);
    }
  }

  /** Mapping a function that changes only position `k` changes the sum only by
      the difference at `k`. */
  lemma {:induction false} SumMapOneChanged<T>(s: seq<T>, f: T -> T, w: T -> int, k: int)
    requires 0 <= k < |s|
    requires forall i :: 0 <= i < |s| && i != k ==> f(s[i]) == s[i]
    ensures Sum(Map(s, f), w) == Sum(s, w) - w(s[k]) + w(f(s[k]))
  {
    var r := Map(s, f);
    assert r == [f(s[0])] + Map(s[1..], f);
    if k == 0 {
      assert Map(s[1..], f) == s[1..];
    } else {
      SumMapOneChanged(s[1..], f, w, k - 1);
    }
  }

  /** Filtering out exactly position `k` lowers the sum by the weight at `k`. */
  lemma {:induction false} SumFilterOneDropped<T>(s: seq<T>, keep: T -> bool, w: T -> int, k: int)
    requires 0 <= k < |s|
    requires !keep(s[k])
    requires forall i :: 0 <= i < |s| && i != k ==> keep(s[i])
    ensures Sum(Filter(s, keep), w) == Sum(s, w) - w(s[k])
  {
    if k == 0 {
      assert forall i :: 0 <= i < |s[1..]| ==> keep(s[1..][i]) by {
        forall i | 0 <= i < |s[1..]| ensures keep(s[1..][i]) {
          assert s[1..][i] == s[i + 1];
        }
      }
      assert Filter(s, keep) == Filter(s[1..], keep) == s[1..];
    } else {
      assert Filter(s, keep) == [s[0]] + Filter(s[1..], keep);
      forall i | 0 <= i < |s[1..]| && i != k - 1 ensures keep(s[1..][i]) {
        assert s[1..][i] == s[i + 1];
      }
      SumFilterOneDropped(s[1..], keep, w, k - 1);
    }
  }

  /** Filtering a concatenation filters each part. */
  lemma {:induction false} FilterAppend<T>(a: seq<T>, b: seq<T>, keep: T -> bool)
    ensures Filter(a + b, keep) == Filter(a, keep) + Filter(b, keep)
  {
    if a == [] {
      assert a + b == b;
    } else {
      assert (a + b)[0] == a[0];
      assert (a + b)[1..] == a[1..] + b;
      FilterAppend(a[1..], b, keep);
    }
  }

  /** Filtering keeps keys distinct. */
  lemma {:induction false} FilterDistinctBy<T, K>(s: seq<T>, keep: T -> bool, key: T -> K)
    requires DistinctBy(s, key)
    ensures DistinctBy(Filter(s, keep), key)
  {
    if s != [] {
      var tail := Filter(s[1..], keep);
      assert DistinctBy(s[1..], key) by {
        forall i, j | 0 <= i < j < |s[1..]| ensures key(s[1..][i]) != key(s[1..][j]) {
          assert s[1..][i] == s[i + 1] && s[1..][j] == s[j + 1];
        }
      }
      FilterDistinctBy(s[1..], keep, key);
      if keep(s[0]) {
        ConsDistinctBy(s, key, tail);
      }
    }
  }

  /** Putting the head of `s` before distinct-keyed elements of its tail keeps
      keys distinct. */
  lemma ConsDistinctBy<T, K>(s: seq<T>, key: T -> K, tail: seq<T>)
    requires s != [] && DistinctBy(s, key) && DistinctBy(tail, key)
    requires forall i :: 0 <= i < |tail| ==> tail[i] in s[1..]
    ensures DistinctBy([s[0]] + tail, key)
  {
    var r := [s[0]] + tail;
    forall i, j | 0 <= i < j < |r| ensures key(r[i]) != key(r[j]) {
      assert r[j] == tail[j - 1];
      if i == 0 {
        var m :| 0 <= m < |s[1..]| && s[1..][m] == r[j];
        assert s[m + 1] == r[j];
      } else {
        assert r[i] == tail[i - 1];
      }
    }
  }

  /** Two filters in a row keep what one filter with the conjunction keeps. */
  lemma {:induction false} FilterFusion<T>(s: seq<T>, f: T -> bool, g: T -> bool, h: T -> bool)
    requires forall x :: h(x) == (f(x) && g(x))
    ensures Filter(Filter(s, f), g) == Filter(s, h)
  {
    if s != [] {
      FilterFusion(s[1..], f, g, h);
      if f(s[0]) {
        assert Filter(s, f) == [s[0]] + Filter(s[1..], f);
        assert ([s[0]] + Filter(s[1..], f))[1..] == Filter(s[1..], f);
      }
    }
  }

  /** Filters whose predicates agree everywhere give the same result. */
  lemma {:induction false} FilterExtensional<T>(s: seq<T>, f: T -> bool, g: T -> bool)
    requires forall x :: f(x) == g(x)
    ensures Filter(s, f) == Filter(s, g)
  {
    if s != [] {
      FilterExtensional(s[1..], f, g);
    }
  }
}
