/**
 * The collection loop shared by `extractHashtags` and `scrapeMusicAndGraphs` in scrape_1.js.
 * The browser page is an oracle: each pass of the outer loop sees one `Visit`, either a wait that
 * ran into its deadline or the batch of elements found together with whether a "View More"
 * button is present. A script that has run out shows nothing any more: every later wait times out.
 */
module Collection {
  import opened Seqs

  /** The fixed size a collection never exceeds. */
  const Capacity: nat := 500

  /** The default `retries` argument, and the retry budget of the main block. */
  const DefaultRetries: nat := 3

  datatype Visit<T> = TimedOut | Shown(items: seq<T>, viewMore: bool)

  /** The loop's state: the accumulated records, `retryCount`, and whether the loop was not left by `break`/`return`. */
  datatype Progress<R> = Progress(records: seq<R>, retryCount: nat, open: bool)

  function Start<R>(): Progress<R> {
    Progress([], 0, true)
  }

  /** The next visit; a script that has run out only times out. */
  function Next<T>(page: seq<Visit<T>>): Visit<T> {
    if page == [] then TimedOut else page[0]
  }

  function Rest<T>(page: seq<Visit<T>>): seq<Visit<T>> {
    if page == [] then [] else page[1..]
  }

  lemma UniqueSnoc<R, K(!new)>(acc: seq<R>, x: R, key: R -> K)
    requires !HasKey(acc, key, key(x))
    ensures UniqueBy(acc, key) ==> UniqueBy(acc + [x], key)
  {
    if UniqueBy(acc, key) {
      UniqueSnocHolds(acc, x, key);
    }
  }

  lemma UniqueSnocHolds<R, K(!new)>(acc: seq<R>, x: R, key: R -> K)
    requires UniqueBy(acc, key) && !HasKey(acc, key, key(x))
    ensures UniqueBy(acc + [x], key)
  {
    forall i, j | 0 <= i < j < |acc| + 1 ensures key((acc + [x])[i]) != key((acc + [x])[j]) {
      if j == |acc| {
        assert (acc + [x])[i] == acc[i];
      } else {
        assert (acc + [x])[i] == acc[i] && (acc + [x])[j] == acc[j];
      }
    }
  }

  /**
   * The inner `for` loop over one batch: an item whose key is already held is skipped, a new one
   * is appended, and the loop breaks as soon as the list holds `cap` items. The accumulated list
   * is only extended, keeps its keys distinct, stays within `cap`, and gains only batch items.
   */
  function MergeBatch<R(==,!new), K(==,!new)>(acc: seq<R>, batch: seq<R>, key: R -> K, cap: nat): (r: seq<R>)
    ensures acc <= r
    ensures UniqueBy(acc, key) ==> UniqueBy(r, key)
    ensures |acc| < cap ==> |r| <= cap
    ensures forall x :: x in r ==> x in acc || x in batch
    decreases |batch|
  {
    if batch == [] then acc
    else
      var x := batch[0];
      assert forall y :: y in batch[1..] ==> y in batch;
      if HasKey(acc, key, key(x)) then MergeBatch(acc, batch[1..], key, cap)
      else
        UniqueSnoc(acc, x, key);
        if |acc| + 1 >= cap then acc + [x]
        else MergeBatch(acc + [x], batch[1..], key, cap)
  }

  /**
   * Merging a batch into a list that is the deduplication of everything seen so far gives the
   * deduplication of everything seen including the batch, cut at `cap`: first-seen order is kept
   * across batches, a later duplicate is dropped, and the cut happens mid-batch.
   */
  lemma {:induction false} MergeIsDedup<R(!new), K(!new)>(p: seq<R>, b: seq<R>, key: R -> K, cap: nat)
    requires |DedupBy(p, key)| < cap
    ensures MergeBatch(DedupBy(p, key), b, key, cap) == Take(DedupBy(p + b, key), cap)
    decreases |b|
  {
    var d := DedupBy(p, key);
    if b == [] {
      assert p + b == p;
    } else {
      var x := b[0];
      var p' := p + [x];
      assert p' + b[1..] == p + b;
      assert p'[..|p'| - 1] == p;
      if HasKey(d, key, key(x)) {
        assert DedupBy(p', key) == d;
        MergeIsDedup(p', b[1..], key, cap);
      } else {
        assert DedupBy(p', key) == d + [x];
        if |d| + 1 >= cap {
          DedupByPrefix(p', b[1..], key);
        } else {
          MergeIsDedup(p', b[1..], key, cap);
        }
      }
    }
  }

  /** One element of a batch: skipped when its key is held, else appended, ending the merge at `cap`. */
  lemma MergeFirst<R(!new), K(!new)>(acc: seq<R>, batch: seq<R>, key: R -> K, cap: nat)
    requires batch != []
    ensures HasKey(acc, key, key(batch[0])) ==> MergeBatch(acc, batch, key, cap) == MergeBatch(acc, batch[1..], key, cap)
    ensures !HasKey(acc, key, key(batch[0])) && |acc| + 1 >= cap ==> MergeBatch(acc, batch, key, cap) == acc + [batch[0]]
    ensures !HasKey(acc, key, key(batch[0])) && |acc| + 1 < cap ==>
      MergeBatch(acc, batch, key, cap) == MergeBatch(acc + [batch[0]], batch[1..], key, cap)
  {
  }

  /** A batch whose every key is already held leaves the list as it was. */
  lemma {:induction false} MergeHeld<R(!new), K(!new)>(acc: seq<R>, batch: seq<R>, key: R -> K, cap: nat)
    requires forall i :: 0 <= i < |batch| ==> HasKey(acc, key, key(batch[i]))
    ensures MergeBatch(acc, batch, key, cap) == acc
    decreases |batch|
  {
    if batch != [] {
      MergeFirst(acc, batch, key, cap);
      assert forall i :: 0 <= i < |batch| - 1 ==> batch[1..][i] == batch[i + 1];
      MergeHeld(acc, batch[1..], key, cap);
    }
  }

  /** With room for one more, C is appended and the merge stops before D. */
  lemma CapacityReached()
    ensures MergeBatch(["A", "B"], ["C", "D"], Id, 3) == ["A", "B", "C"]
  {
    var a, b, c := "A", "B", "C";
    assert c[0] != a[0] && c[0] != b[0];
    MergeFirst([a, b], [c, "D"], Id, 3);
    HasKeyIdIsIn([a, b], c);
    assert [a, b] + [c] == ["A", "B", "C"];
  }

  /** A capacity-3 merge of A, A, B, C, D keeps A, B, C and stops in the middle of the batch. */
  lemma CapacityScenario()
    ensures MergeBatch([], ["A", "A", "B", "C", "D"], Id, 3) == ["A", "B", "C"]
  {
    var a, b, c, d := "A", "B", "C", "D";
    assert a[0] != b[0];
    var none: seq<string> := [];
    var batch := [a, a, b, c, d];
    MergeFirst(none, batch, Id, 3);
    HasKeyIdIsIn(none, a);
    assert none + [a] == [a] && batch[1..] == [a, b, c, d];
    MergeFirst([a], [a, b, c, d], Id, 3);
    HasKeyIdIsIn([a], a);
    assert [a, b, c, d][1..] == [b, c, d];
    MergeFirst([a], [b, c, d], Id, 3);
    HasKeyIdIsIn([a], b);
    assert [a] + [b] == [a, b] && [b, c, d][1..] == [c, d];
    CapacityReached();
  }
}
