/** Sequence operations that the pages and the server use in the shape of
    JavaScript's `filter`/`map`, Python's list comprehensions and MongoDB's
    sort-and-limit, with the facts about them that the other modules need. */
module Seqs {
  import opened Wrappers

  /** The order-preserving sub-list of `s` whose elements satisfy `p`. */
  function Filter<T>(s: seq<T>, p: T -> bool): (r: seq<T>)
    ensures |r| <= |s|
    ensures forall x :: x in r ==> x in s && p(x)
  {
    if s == [] then []
    else if p(s[0]) then [s[0]] + Filter(s[1..], p)
    else Filter(s[1..], p)
  }

  /** `f` applied to every element, in order. */
  function Map<T, U>(s: seq<T>, f: T -> U): (r: seq<U>)
    ensures |r| == |s|
    ensures forall i :: 0 <= i < |s| ==> r[i] == f(s[i])
  {
    if s == [] then [] else [f(s[0])] + Map(s[1..], f)
  }

  function Reverse<T>(s: seq<T>): (r: seq<T>)
    ensures |r| == |s|
    ensures forall i :: 0 <= i < |s| ==> r[i] == s[|s| - 1 - i]
  {
    if s == [] then [] else Reverse(s[1..]) + [s[0]]
  }

  /** The first `n` elements, or all of them when there are fewer (a result limit). */
  function Take<T>(s: seq<T>, n: nat): (r: seq<T>)
    ensures |r| == if |s| <= n then |s| else n
    ensures forall i :: 0 <= i < |r| ==> r[i] == s[i]
  {
    if |s| <= n then s else s[..n]
  }

  /** The index of the first element satisfying `p`, if there is one. */
  function FirstIndex<T>(s: seq<T>, p: T -> bool): (r: Option<nat>)
    ensures r.None? <==> forall i :: 0 <= i < |s| ==> !p(s[i])
    ensures r.Some? ==> r.value < |s| && p(s[r.value]) && forall j :: 0 <= j < r.value ==> !p(s[j])
  {
    if s == [] then None
    else if p(s[0]) then Some(0)
    else
      var r := FirstIndex(s[1..], p);
      assert forall i :: 1 <= i < |s| ==> s[i] == s[1..][i - 1];
      if r.None? then None else Some(r.value + 1)
  }

  /** `r` is `s` with some elements left out and the rest in their original order. */
  predicate IsSubsequence<T(==)>(r: seq<T>, s: seq<T>)
  {
    if r == [] then true
    else if s == [] then false
    else if r[0] == s[0] then IsSubsequence(r[1..], s[1..])
    else IsSubsequence(r, s[1..])
  }

  /** Strictly increasing under `key`. */
  predicate Increasing<T>(s: seq<T>, key: T -> int)
  {
    forall i, j :: 0 <= i < j < |s| ==> key(s[i]) < key(s[j])
  }

  /** Strictly decreasing under `key` (newest first). */
  predicate Decreasing<T>(s: seq<T>, key: T -> int)
  {
    forall i, j :: 0 <= i < j < |s| ==> key(s[i]) > key(s[j])
  }

  /** No two elements share a `key`. */
  predicate Distinct<T>(s: seq<T>, key: T -> int)
  {
    forall i, j :: 0 <= i < j < |s| ==> key(s[i]) != key(s[j])
  }

  lemma DistinctTail<T>(s: seq<T>, key: T -> int)
    requires Distinct(s, key) && s != []
    ensures Distinct(s[1..], key)
    ensures forall x :: x in s[1..] ==> key(x) != key(s[0])
  {
    forall i, j | 0 <= i < j < |s[1..]| ensures key(s[1..][i]) != key(s[1..][j]) {
      assert s[1..][i] == s[i + 1] && s[1..][j] == s[j + 1];
    }
    forall x | x in s[1..] ensures key(x) != key(s[0]) {
      var k :| 0 <= k < |s[1..]| && s[1..][k] == x;
      assert s[k + 1] == x;
    }
  }

  lemma {:induction false} FilterKeepsDistinct<T>(s: seq<T>, p: T -> bool, key: T -> int)
    requires Distinct(s, key)
    ensures Distinct(Filter(s, p), key)
  {
    if s != [] {
      DistinctTail(s, key);
      FilterKeepsDistinct(s[1..], p, key);
      var t := Filter(s[1..], p);
      if p(s[0]) {
        var r := [s[0]] + t;
        forall i, j | 0 <= i < j < |r| ensures key(r[i]) != key(r[j]) {
          assert r[j] == t[j - 1] && t[j - 1] in t;
          if i > 0 {
            assert r[i] == t[i - 1];
          }
        }
      }
    }
  }

  lemma {:induction false} FilterMembership<T>(s: seq<T>, p: T -> bool, x: T)
    ensures x in Filter(s, p) <==> x in s && p(x)
  {
    if s != [] {
      FilterMembership(s[1..], p, x);
      assert s == [s[0]] + s[1..];
    }
  }

  lemma {:induction false} FilterIsSubsequence<T>(s: seq<T>, p: T -> bool)
    ensures IsSubsequence(Filter(s, p), s)
  {
    if s != [] {
      FilterIsSubsequence(s[1..], p);
      var r := Filter(s, p);
      if p(s[0]) {
        assert r[0] == s[0] && r[1..] == Filter(s[1..], p);
      } else if r != [] {
        assert r[0] in r;
        assert r[0] != s[0];
      }
    }
  }

  lemma {:induction false} FilterAll<T>(s: seq<T>, p: T -> bool)
    requires forall i :: 0 <= i < |s| ==> p(s[i])
    ensures Filter(s, p) == s
  {
    if s != [] {
      FilterAll(s[1..], p);
    }
  }

  lemma {:induction false} FilterAppend<T>(a: seq<T>, b: seq<T>, p: T -> bool)
    ensures Filter(a + b, p) == Filter(a, p) + Filter(b, p)
  {
    if a != [] {
      assert (a + b)[1..] == a[1..] + b;
      FilterAppend(a[1..], b, p);
    } else {
      assert a + b == b;
    }
  }

  /** Removing the element at `i` does not change what a filter keeps when `p` rejects it. */
  lemma {:induction false} FilterRemoveRejected<T>(s: seq<T>, i: nat, p: T -> bool)
    requires i < |s| && !p(s[i])
    ensures Filter(s[..i] + s[i + 1..], p) == Filter(s, p)
  {
    if i == 0 {
      assert s[..i] + s[i + 1..] == s[1..];
    } else {
      var t := s[1..];
      FilterRemoveRejected(t, i - 1, p);
      var x := t[..i - 1] + t[i..];
      assert s[..i] + s[i + 1..] == [s[0]] + x;
      assert ([s[0]] + x)[0] == s[0] && ([s[0]] + x)[1..] == x;
    }
  }

  /** Replacing a rejected element by another rejected one does not change the filter. */
  lemma {:induction false} FilterUpdateRejected<T>(s: seq<T>, i: nat, y: T, p: T -> bool)
    requires i < |s| && !p(s[i]) && !p(y)
    ensures Filter(s[i := y], p) == Filter(s, p)
  {
    if i == 0 {
      assert s[i := y][1..] == s[1..];
    } else {
      var t := s[1..];
      FilterUpdateRejected(t, i - 1, y, p);
      assert s[i := y] == [s[0]] + t[i - 1 := y];
      assert ([s[0]] + t[i - 1 := y])[1..] == t[i - 1 := y];
    }
  }

  lemma {:induction false} FilterCommutes<T>(s: seq<T>, p: T -> bool, q: T -> bool)
    ensures Filter(Filter(s, p), q) == Filter(Filter(s, q), p)
  {
    if s != [] {
      FilterCommutes(s[1..], p, q);
    }
  }

  lemma {:induction false} FilterReverse<T>(s: seq<T>, p: T -> bool)
    ensures Filter(Reverse(s), p) == Reverse(Filter(s, p))
  {
    if s != [] {
      FilterReverse(s[1..], p);
      FilterAppend(Reverse(s[1..]), [s[0]], p);
      if p(s[0]) {
        assert ([s[0]] + Filter(s[1..], p))[1..] == Filter(s[1..], p);
      }
    }
  }

  /** A map that preserves what `p` says commutes with filtering by `p`. */
  lemma {:induction false} FilterMap<T>(s: seq<T>, f: T -> T, p: T -> bool)
    requires forall x :: p(f(x)) == p(x)
    ensures Filter(Map(s, f), p) == Map(Filter(s, p), f)
  {
    if s != [] {
      FilterMap(s[1..], f, p);
      assert Map(s, f)[1..] == Map(s[1..], f);
      assert p(f(s[0])) == p(s[0]);
    }
  }

  lemma MapReverse<T, U>(s: seq<T>, f: T -> U)
    ensures Reverse(Map(s, f)) == Map(Reverse(s), f)
  {
  }

  lemma MapTake<T, U>(s: seq<T>, f: T -> U, n: nat)
    ensures Take(Map(s, f), n) == Map(Take(s, n), f)
  {
  }

  lemma {:induction false} FilterKeepsIncreasing<T>(s: seq<T>, p: T -> bool, key: T -> int)
    requires Increasing(s, key)
    ensures Increasing(Filter(s, p), key)
  {
    if s != [] {
      assert Increasing(s[1..], key) by {
        forall i, j | 0 <= i < j < |s[1..]| ensures key(s[1..][i]) < key(s[1..][j]) {
          assert s[1..][i] == s[i + 1] && s[1..][j] == s[j + 1];
        }
      }
      FilterKeepsIncreasing(s[1..], p, key);
      var t := Filter(s[1..], p);
      if p(s[0]) {
        forall j | 0 <= j < |t| ensures key(s[0]) < key(t[j]) {
          assert t[j] in t;
          var k :| 0 <= k < |s[1..]| && s[1..][k] == t[j];
          assert s[k + 1] == t[j];
        }
        var r := [s[0]] + t;
        forall i, j | 0 <= i < j < |r| ensures key(r[i]) < key(r[j]) {
          if i > 0 {
            assert r[i] == t[i - 1] && r[j] == t[j - 1];
          } else {
            assert r[j] == t[j - 1];
          }
        }
      }
    }
  }

  lemma IncreasingAppend<T>(s: seq<T>, y: T, key: T -> int)
    requires Increasing(s, key)
    requires forall i :: 0 <= i < |s| ==> key(s[i]) < key(y)
    ensures Increasing(s + [y], key)
  {
    var r := s + [y];
    forall i, j | 0 <= i < j < |r| ensures key(r[i]) < key(r[j]) {
      assert r[i] == s[i];
      if j < |s| { assert r[j] == s[j]; }
    }
  }

  lemma IncreasingRemove<T>(s: seq<T>, k: nat, key: T -> int)
    requires Increasing(s, key) && k < |s|
    ensures Increasing(s[..k] + s[k + 1..], key)
  {
    var r := s[..k] + s[k + 1..];
    forall i, j | 0 <= i < j < |r| ensures key(r[i]) < key(r[j]) {
      var i' := if i < k then i else i + 1;
      var j' := if j < k then j else j + 1;
      assert r[i] == s[i'] && r[j] == s[j'];
    }
  }

  lemma IncreasingUpdate<T>(s: seq<T>, k: nat, y: T, key: T -> int)
    requires Increasing(s, key) && k < |s| && key(y) == key(s[k])
    ensures Increasing(s[k := y], key)
  {
    var r := s[k := y];
    forall i, j | 0 <= i < j < |r| ensures key(r[i]) < key(r[j]) {
      assert key(r[i]) == key(s[i]) && key(r[j]) == key(s[j]);
    }
  }

  lemma ReverseOfIncreasing<T>(s: seq<T>, key: T -> int)
    requires Increasing(s, key)
    ensures Decreasing(Reverse(s), key)
  {
    var r := Reverse(s);
    forall i, j | 0 <= i < j < |r| ensures key(r[i]) > key(r[j]) {
      assert r[i] == s[|s| - 1 - i] && r[j] == s[|s| - 1 - j];
    }
  }

  /** Of a list ordered by `key`, the first `n` of its reverse are its newest:
      any element left out is older than every element kept. */
  lemma TakeReverseHoldsNewest<T>(s: seq<T>, n: nat, key: T -> int, x: T, y: T)
    requires Increasing(s, key)
    requires x in s && x !in Take(Reverse(s), n) && y in Take(Reverse(s), n)
    ensures key(x) < key(y)
  {
    var r := Take(Reverse(s), n);
    var i :| 0 <= i < |s| && s[i] == x;
    var k :| 0 <= k < |r| && r[k] == y;
    InTakeReverse(s, n, i);
    assert y == s[|s| - 1 - k];
  }

  /** The element at `i` is among the first `n` of the reverse when it is within `n` of the end. */
  lemma InTakeReverse<T>(s: seq<T>, n: nat, i: nat)
    requires i < |s|
    ensures |s| - 1 - i < n ==> s[i] in Take(Reverse(s), n)
  {
    if |s| - 1 - i < n {
      assert Take(Reverse(s), n)[|s| - 1 - i] == s[i];
    }
  }

  lemma TakeOfDecreasing<T>(s: seq<T>, n: nat, key: T -> int)
    requires Decreasing(s, key)
    ensures Decreasing(Take(s, n), key)
  {
  }
}
