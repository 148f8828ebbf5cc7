/**
 * Sequences with identity keys: the "keep the first, drop later duplicates" discipline that
 * `[...new Set(xs)]`, `hashtags.includes(h)` and `musicData.some(sameKey)` all implement.
 */
module Seqs {

  function Id<T>(x: T): T { x }

  /** Some element of `s` has key `k`. */
  predicate HasKey<R, K(==,!new)>(s: seq<R>, key: R -> K, k: K) {
    exists i :: 0 <= i < |s| && key(s[i]) == k
  }

  lemma ConcatAssoc<T>(a: seq<T>, b: seq<T>, c: seq<T>)
    ensures (a + b) + c == a + (b + c)
  {
  }

  /** No two elements of `s` share a key. */
  predicate UniqueBy<R, K(==,!new)>(s: seq<R>, key: R -> K) {
    forall i, j :: 0 <= i < j < |s| ==> key(s[i]) != key(s[j])
  }

  lemma HasKeyIdIsIn<T(!new)>(s: seq<T>, x: T)
    ensures HasKey(s, Id, x) <==> x in s
  {
    if x in s {
      var i :| 0 <= i < |s| && s[i] == x;
      assert Id(s[i]) == x;
    }
  }

  lemma UniqueByIdIsDistinct<T(!new)>(s: seq<T>)
    ensures UniqueBy(s, Id) <==> forall i, j :: 0 <= i < j < |s| ==> s[i] != s[j]
  {
    assert forall i :: 0 <= i < |s| ==> Id(s[i]) == s[i];
  }

  /** The position of the first element of `s` whose key is `k`. */
  function FirstKeyIndex<R, K(==,!new)>(s: seq<R>, key: R -> K, k: K): (i: nat)
    requires HasKey(s, key, k)
    ensures i < |s| && key(s[i]) == k
    ensures forall j :: 0 <= j < i ==> key(s[j]) != k
    decreases |s|
  {
    if key(s[0]) == k then 0
    else
      var w :| 0 <= w < |s| && key(s[w]) == k;
      assert key(s[1..][w - 1]) == k;
      1 + FirstKeyIndex(s[1..], key, k)
  }

  /**
   * The elements of `s` whose key has not been seen earlier, in the order of `s`: a left fold
   * that inserts into a set-like list, as `new Set(xs)` does.
   */
  function DedupBy<R(==,!new), K(==,!new)>(s: seq<R>, key: R -> K): (r: seq<R>)
    ensures UniqueBy(r, key)
    ensures |r| <= |s|
    ensures forall x :: x in r ==> x in s
    ensures forall k :: HasKey(r, key, k) <==> HasKey(s, key, k)
    decreases |s|
  {
    if s == [] then []
    else
      var p := s[..|s| - 1];
      var x := s[|s| - 1];
      var d := DedupBy(p, key);
      assert forall k :: HasKey(p, key, k) ==> HasKey(s, key, k) by {
        forall k | HasKey(p, key, k) ensures HasKey(s, key, k) {
          var i :| 0 <= i < |p| && key(p[i]) == k;
          assert s[i] == p[i];
        }
      }
      assert forall k :: HasKey(s, key, k) ==> HasKey(p, key, k) || key(x) == k by {
        forall k | HasKey(s, key, k) ensures HasKey(p, key, k) || key(x) == k {
          var i :| 0 <= i < |s| && key(s[i]) == k;
          if i < |p| { assert p[i] == s[i]; }
        }
      }
      if HasKey(d, key, key(x)) then d
      else
        assert forall k :: HasKey(d + [x], key, k) ==> HasKey(d, key, k) || key(x) == k by {
          forall k | HasKey(d + [x], key, k) ensures HasKey(d, key, k) || key(x) == k {
            var i :| 0 <= i < |d| + 1 && key((d + [x])[i]) == k;
            if i < |d| { assert (d + [x])[i] == d[i]; }
          }
        }
        assert key((d + [x])[|d|]) == key(x);
        assert forall k :: HasKey(d, key, k) ==> HasKey(d + [x], key, k) by {
          forall k | HasKey(d, key, k) ensures HasKey(d + [x], key, k) {
            var i :| 0 <= i < |d| && key(d[i]) == k;
            assert (d + [x])[i] == d[i];
          }
        }
        d + [x]
  }

  /** Extending the input only extends the result: what is kept early is never displaced. */
  lemma {:induction false} DedupByPrefix<R(!new), K(!new)>(s: seq<R>, u: seq<R>, key: R -> K)
    ensures DedupBy(s, key) <= DedupBy(s + u, key)
    decreases |u|
  {
    if u == [] {
      assert s + u == s;
    } else {
      var u' := u[..|u| - 1];
      DedupByPrefix(s, u', key);
      assert (s + u)[..|s + u| - 1] == s + u';
      var a, b, c := DedupBy(s, key), DedupBy(s + u', key), DedupBy(s + u, key);
      assert b <= c;
      assert a == b[..|a|] && b == c[..|b|];
      assert a == c[..|a|];
    }
  }

  lemma FirstKeyIndexSnoc<R, K(!new)>(p: seq<R>, x: R, key: R -> K, k: K)
    requires HasKey(p + [x], key, k)
    ensures HasKey(p, key, k) ==> FirstKeyIndex(p + [x], key, k) == FirstKeyIndex(p, key, k)
    ensures !HasKey(p, key, k) ==> FirstKeyIndex(p + [x], key, k) == |p|
  {
    var f := FirstKeyIndex(p + [x], key, k);
    if HasKey(p, key, k) {
      var g := FirstKeyIndex(p, key, k);
      assert (p + [x])[g] == p[g];
    } else {
      assert forall i :: 0 <= i < |p| ==> (p + [x])[i] == p[i];
    }
  }

  /**
   * What `DedupBy` keeps is exactly the first occurrence of each key, in the order in which
   * those first occurrences appear in `s`.
   */
  lemma {:induction false} DedupByFirstOccurrences<R(!new), K(!new)>(s: seq<R>, key: R -> K)
    ensures forall i :: 0 <= i < |DedupBy(s, key)| ==>
      DedupBy(s, key)[i] == s[FirstKeyIndex(s, key, key(DedupBy(s, key)[i]))]
    ensures forall i, j :: 0 <= i < j < |DedupBy(s, key)| ==>
      FirstKeyIndex(s, key, key(DedupBy(s, key)[i])) < FirstKeyIndex(s, key, key(DedupBy(s, key)[j]))
    decreases |s|
  {
    var r := DedupBy(s, key);
    if s != [] {
      var p := s[..|s| - 1];
      var x := s[|s| - 1];
      assert s == p + [x];
      var d := DedupBy(p, key);
      DedupByFirstOccurrences(p, key);
      assert r == d || r == d + [x];
      forall i | 0 <= i < |r|
        ensures HasKey(s, key, key(r[i]))
        ensures i < |d| ==> FirstKeyIndex(s, key, key(r[i])) == FirstKeyIndex(p, key, key(d[i])) < |p|
        ensures i == |d| ==> FirstKeyIndex(s, key, key(r[i])) == |p|
        ensures r[i] == s[FirstKeyIndex(s, key, key(r[i]))]
      {
        assert HasKey(r, key, key(r[i]));
        FirstKeyIndexSnoc(p, x, key, key(r[i]));
        if i < |d| {
          assert r[i] == d[i];
          assert HasKey(d, key, key(d[i]));
          var f := FirstKeyIndex(p, key, key(d[i]));
          assert d[i] == p[f];
          assert FirstKeyIndex(s, key, key(r[i])) == f;
          assert s[f] == p[f];
        } else {
          assert r == d + [x] && r[i] == x;
          assert !HasKey(d, key, key(x));
        }
      }
      forall i, j | 0 <= i < j < |r|
        ensures FirstKeyIndex(s, key, key(r[i])) < FirstKeyIndex(s, key, key(r[j]))
      {
        if j < |d| {
          assert r[i] == d[i] && r[j] == d[j];
        }
      }
    }
  }

  /** `s.slice(0, n)`: the first `n` elements, or all of them when there are fewer. */
  function Take<T>(s: seq<T>, n: nat): (r: seq<T>)
    ensures r <= s
    ensures |r| == if |s| <= n then |s| else n
  {
    if |s| <= n then s else s[..n]
  }

  /** Cutting a sequence keeps its keys distinct. */
  lemma TakeKeepsUnique<R, K(!new)>(s: seq<R>, n: nat, key: R -> K)
    requires UniqueBy(s, key)
    ensures UniqueBy(Take(s, n), key)
  {
    var r := Take(s, n);
    assert forall i :: 0 <= i < |r| ==> r[i] == s[i];
  }

  /** `s` in reverse order. */
  function Reversed<T>(s: seq<T>): (r: seq<T>)
    ensures |r| == |s|
    decreases |s|
  {
    if s == [] then [] else Reversed(s[1..]) + [s[0]]
  }

  /** Position `k` of the reversal holds position `|s| - 1 - k` of the original. */
  lemma {:induction false} ReversedAt<T>(s: seq<T>, k: nat)
    requires k < |s|
    ensures Reversed(s)[k] == s[|s| - 1 - k]
    decreases |s|
  {
    if k < |s| - 1 {
      ReversedAt(s[1..], k);
    }
  }

  /** `a.reverse()`: reverses the array in place. */
  method Reverse<T>(a: array<T>)
    modifies a
    ensures a[..] == Reversed(old(a[..]))
  {
    var n := a.Length;
    var i := 0;
    while i < n / 2
      invariant 0 <= i <= n / 2
      invariant forall k :: 0 <= k < i ==> a[k] == old(a[n - 1 - k]) && a[n - 1 - k] == old(a[k])
      invariant forall k :: i <= k < n - i ==> a[k] == old(a[k])
    {
      a[i], a[n - 1 - i] := a[n - 1 - i], a[i];
      i := i + 1;
    }
    ghost var before := old(a[..]);
    forall k | 0 <= k < n ensures a[..][k] == Reversed(before)[k] {
      ReversedAt(before, k);
    }
  }
}
