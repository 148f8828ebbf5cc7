/**
 * `extractHashtags` of scrape_1.js: collect the trimmed text of the hashtag elements, page after
 * page ("View More"), each hashtag once, reloading when no element appears before the deadline.
 */
module Hashtags {
  import opened Text
  import opened Seqs
  import opened Collection

  /** The outer loop keeps going only while it holds fewer hashtags than this. */
  const Goal: nat := 10

  /** The outer loop's condition, and not yet left by `break`. */
  predicate Active(s: Progress<string>, retries: nat) {
    s.open && |s.records| < Goal && s.retryCount < retries
  }

  /** The polling wait ends early only once at least one hashtag element is on the page. */
  predicate Found(v: Visit<string>) {
    v.Shown? && v.items != []
  }

  /**
   * One pass of the outer loop: a wait that saw no element before its deadline costs a retry (the
   * page is reloaded); a batch is merged, and the loop goes on only if a "View More" button was
   * there to click.
   */
  function Step(s: Progress<string>, v: Visit<string>): Progress<string> {
    if !Found(v) then s.(retryCount := s.retryCount + 1)
    else Progress(MergeBatch(s.records, TrimAll(v.items), Id, Capacity), s.retryCount, v.viewMore)
  }

  /** The outer loop run to its end: it stops once `Active` fails. */
  function Run(s: Progress<string>, page: seq<Visit<string>>, retries: nat): Progress<string>
    decreases |page|, retries - s.retryCount
  {
    if !Active(s, retries) then s
    else Run(Step(s, Next(page)), Rest(page), retries)
  }

  /** What `extractHashtags(page, hashtagClass, retries)` returns: `hashtags.slice(0, 500)`. */
  function Extracted(page: seq<Visit<string>>, retries: nat): seq<string> {
    Take(Run(Start(), page, retries).records, Capacity)
  }

  /** The trimmed texts of one visit's batch; a wait that timed out contributes none. */
  function Batch(v: Visit<string>): seq<string> {
    if Found(v) then TrimAll(v.items) else []
  }

  /** The trimmed texts of every batch shown in `visits`, in order. */
  function Texts(visits: seq<Visit<string>>): seq<string>
    decreases |visits|
  {
    if visits == [] then [] else Batch(visits[0]) + Texts(visits[1..])
  }

  /** The number of waits in `visits` that ran into the deadline. */
  function Timeouts(visits: seq<Visit<string>>): nat
    decreases |visits|
  {
    if visits == [] then 0
    else (if Found(visits[0]) then 0 else 1) + Timeouts(visits[1..])
  }

  /**
   * `r` is what the loop reaches from `retryCount == start` and the hashtags of `seen`, after
   * consuming the visits `consumed`; `exhausted` says the page ran out, after which only
   * timeouts (and so extra retries) follow.
   */
  predicate Traced(seen: seq<string>, consumed: seq<Visit<string>>, start: nat, r: Progress<string>, exhausted: bool) {
    && r.records == Take(DedupBy(seen + Texts(consumed), Id), Capacity)
    && r.retryCount >= start + Timeouts(consumed)
    && (!exhausted ==> r.retryCount == start + Timeouts(consumed))
  }

  lemma {:induction false} TracedEmpty(seen: seq<string>, r: Progress<string>, page: seq<Visit<string>>)
    requires r.records == Take(DedupBy(seen, Id), Capacity)
    ensures Traced(seen, page[..0], r.retryCount, r, 0 == |page|)
  {
    assert page[..0] == [];
    assert seen + Texts(page[..0]) == seen;
  }

  lemma ConsumedCons(page: seq<Visit<string>>, k: nat)
    requires page != [] && k <= |page| - 1
    ensures Texts(page[..k + 1]) == Batch(page[0]) + Texts(page[1..][..k])
    ensures Timeouts(page[..k + 1]) == (if Found(page[0]) then 0 else 1) + Timeouts(page[1..][..k])
  {
    var p := page[..k + 1];
    assert p[0] == page[0] && p[1..] == page[1..][..k];
  }

  /** Consuming one more visit at the front of the trace. */
  lemma {:induction false} TracedCons(seen: seq<string>, page: seq<Visit<string>>, k: nat, start: nat, r: Progress<string>)
    requires page != [] && k <= |page| - 1
    requires Traced(seen + Batch(page[0]), page[1..][..k], start + (if Found(page[0]) then 0 else 1), r, k == |page| - 1)
    ensures Traced(seen, page[..k + 1], start, r, k + 1 == |page|)
  {
    ConsumedCons(page, k);
    var tail := page[1..][..k];
    var seen' := seen + Batch(page[0]);
    var start' := start + (if Found(page[0]) then 0 else 1);
    assert r.records == Take(DedupBy(seen' + Texts(tail), Id), Capacity);
    ConcatAssoc(seen, Batch(page[0]), Texts(tail));
    assert r.records == Take(DedupBy(seen + Texts(page[..k + 1]), Id), Capacity);
    assert start' + Timeouts(tail) == start + Timeouts(page[..k + 1]);
  }

  lemma ConsumedOne(page: seq<Visit<string>>)
    requires page != []
    ensures Texts(page[..1]) == Batch(page[0])
    ensures Timeouts(page[..1]) == (if Found(page[0]) then 0 else 1)
  {
    ConsumedCons(page, 0);
    assert page[1..][..0] == [];
  }

  /** A wait that timed out adds no hashtags and one retry in front of the trace of the rest. */
  lemma RetryStep(seen: seq<string>, page: seq<Visit<string>>, start: nat, r: Progress<string>, k: nat)
    requires !Found(Next(page)) && k <= |Rest(page)|
    requires Traced(seen, Rest(page)[..k], start + 1, r, k == |Rest(page)|)
    ensures exists k' :: 0 <= k' <= |page| && Traced(seen, page[..k'], start, r, k' == |page|)
  {
    if page == [] {
      assert page[..0] == [] && Rest(page)[..k] == [];
      assert Traced(seen, page[..0], start, r, true);
    } else {
      assert Batch(page[0]) == [];
      assert seen + Batch(page[0]) == seen;
      TracedCons(seen, page, k, start, r);
    }
  }

  /** A batch without "View More" is the last one: the trace is that one visit. */
  lemma StopStep(seen: seq<string>, page: seq<Visit<string>>, start: nat, r: Progress<string>)
    requires page != []
    requires r.records == Take(DedupBy(seen + Batch(page[0]), Id), Capacity)
    requires r.retryCount == start + (if Found(page[0]) then 0 else 1)
    ensures Traced(seen, page[..1], start, r, 1 == |page|)
  {
    ConsumedOne(page);
  }

  /**
   * The loop consumes some first `k` visits of the page. The hashtags it then holds are the
   * distinct trimmed texts of those visits' batches in first-seen order, cut at 500; `retryCount`
   * grew by at least the number of those visits that timed out, and by exactly that number unless
   * the page ran out and only timeouts followed.
   */
  lemma {:induction false} RunTrace(s: Progress<string>, page: seq<Visit<string>>, retries: nat, seen: seq<string>)
    requires s.records == Take(DedupBy(seen, Id), Capacity)
    ensures exists k :: 0 <= k <= |page| && Traced(seen, page[..k], s.retryCount, Run(s, page, retries), k == |page|)
    decreases |page|, retries - s.retryCount
  {
    var r := Run(s, page, retries);
    if !Active(s, retries) {
      TracedEmpty(seen, r, page);
    } else {
      var v := Next(page);
      var s' := Step(s, v);
      assert r == Run(s', Rest(page), retries);
      if !Found(v) {
        RunTrace(s', Rest(page), retries, seen);
        var k :| 0 <= k <= |Rest(page)| && Traced(seen, Rest(page)[..k], s'.retryCount, r, k == |Rest(page)|);
        RetryStep(seen, page, s.retryCount, r, k);
      } else {
        MergeIsDedup(seen, TrimAll(v.items), Id, Capacity);
        var seen' := seen + Batch(page[0]);
        assert page[0] == v && s'.retryCount == s.retryCount;
        if v.viewMore {
          RunTrace(s', Rest(page), retries, seen');
          var k :| 0 <= k <= |Rest(page)| && Traced(seen', Rest(page)[..k], s'.retryCount, r, k == |Rest(page)|);
          TracedCons(seen, page, k, s.retryCount, r);
        } else {
          assert r == s';
          StopStep(seen, page, s.retryCount, r);
        }
      }
    }
  }

  /** The loop always ends with its condition false or after a `break`. */
  lemma {:induction false} RunStops(s: Progress<string>, page: seq<Visit<string>>, retries: nat)
    ensures !Active(Run(s, page, retries), retries)
    decreases |page|, retries - s.retryCount
  {
    if Active(s, retries) {
      RunStops(Step(s, Next(page)), Rest(page), retries);
    }
  }

  /** A batch shown without a "View More" button is the last one processed. */
  lemma NoViewMoreEnds(s: Progress<string>, page: seq<Visit<string>>, retries: nat)
    requires Active(s, retries) && page != [] && Found(page[0]) && !page[0].viewMore
    ensures Run(s, page, retries) == Step(s, page[0])
    ensures !Run(s, page, retries).open
  {
  }

  /**
   * A visit that shows only hashtags already held, with "View More" still there to click: the
   * wait succeeded, so no retry is spent, and the loop goes on.
   */
  predicate Stale(s: Progress<string>, v: Visit<string>) {
    Found(v) && v.viewMore && forall i :: 0 <= i < |v.items| ==> Trim(v.items[i]) in s.records
  }

  /** A stale visit changes nothing: no hashtag, no retry, and the loop stays open. */
  lemma StaleStep(s: Progress<string>, v: Visit<string>)
    requires s.open && Stale(s, v)
    ensures Step(s, v) == s
  {
    var texts := TrimAll(v.items);
    forall i | 0 <= i < |texts| ensures HasKey(s.records, Id, Id(texts[i])) {
      HasKeyIdIsIn(s.records, texts[i]);
    }
    MergeHeld(s.records, texts, Id, Capacity);
  }

  /**
   * However many stale visits come first, the loop passes them without progress and is left exactly
   * where it started: a page that keeps offering "View More" over the same hashtags, while fewer
   * than 10 are held, keeps the loop going for as long as the page does.
   */
  lemma {:induction false} StaleVisitsChangeNothing(s: Progress<string>, page: seq<Visit<string>>, retries: nat, k: nat)
    requires s.open && k <= |page|
    requires forall i :: 0 <= i < k ==> Stale(s, page[i])
    ensures Run(s, page, retries) == Run(s, page[k..], retries)
    decreases k
  {
    if k == 0 {
      assert page[k..] == page;
    } else if Active(s, retries) {
      StaleStep(s, page[0]);
      assert page[1..][k - 1..] == page[k..];
      StaleVisitsChangeNothing(s, page[1..], retries, k - 1);
    }
  }

  /**
   * `extractHashtags`: every hashtag once, at most 500, and exactly the distinct trimmed texts of
   * the batches of the first `k` visits, in first-seen order, cut at 500.
   */
  lemma ExtractedSpec(page: seq<Visit<string>>, retries: nat)
    ensures var r := Extracted(page, retries);
      && (forall i, j :: 0 <= i < j < |r| ==> r[i] != r[j])
      && |r| <= Capacity
      && exists k :: 0 <= k <= |page| && r == Take(DedupBy(Texts(page[..k]), Id), Capacity)
  {
    var s: Progress<string> := Start();
    assert s.records == Take(DedupBy([], Id), Capacity);
    RunTrace(s, page, retries, []);
    var records := Run(s, page, retries).records;
    var k :| 0 <= k <= |page| && Traced([], page[..k], s.retryCount, Run(s, page, retries), k == |page|);
    assert [] + Texts(page[..k]) == Texts(page[..k]);
    assert Take(records, Capacity) == records;
    TakeKeepsUnique(DedupBy(Texts(page[..k]), Id), Capacity, Id);
    UniqueByIdIsDistinct(records);
  }

  /** Three waits that all time out, with a budget of three, end with no hashtag and no error. */
  lemma RetryBudgetScenario(retries: nat)
    requires retries == 3
    ensures Extracted([TimedOut, TimedOut, TimedOut], retries) == []
  {
    var page: seq<Visit<string>> := [TimedOut, TimedOut, TimedOut];
    var s0: Progress<string> := Start();
    var s1 := s0.(retryCount := 1);
    var s2 := s0.(retryCount := 2);
    var s3 := s0.(retryCount := 3);
    assert Run(s3, page[3..], retries) == s3;
    assert Run(s2, page[2..], retries) == Run(s3, page[3..], retries);
    assert Run(s1, page[1..], retries) == Run(s2, page[2..], retries);
    assert Run(s0, page, retries) == Run(s1, page[1..], retries);
  }

  /** The inner loop of `extractHashtags`: one batch of texts merged element by element. */
  method MergeTexts(hashtags: seq<string>, elements: seq<string>) returns (merged: seq<string>)
    ensures merged == MergeBatch(hashtags, elements, Id, Capacity)
  {
    merged := hashtags;
    var j := 0;
    while j < |elements|
      invariant 0 <= j <= |elements|
      invariant MergeBatch(merged, elements[j..], Id, Capacity) == MergeBatch(hashtags, elements, Id, Capacity)
    {
      var hashtag := elements[j];
      HasKeyIdIsIn(merged, hashtag);
      assert elements[j..][1..] == elements[j + 1..];
      if hashtag !in merged {
        merged := merged + [hashtag];
        if |merged| >= Capacity {
          return;
        }
      }
      j := j + 1;
    }
  }

  /** The loop of `extractHashtags`, with the page's behaviour given by `page`. */
  method ExtractHashtags(page: seq<Visit<string>>, retries: nat) returns (hashtags: seq<string>)
    ensures hashtags == Extracted(page, retries)
  {
    hashtags := [];
    var retryCount: nat := 0;
    var rest := page;
    while |hashtags| < Goal && retryCount < retries
      invariant Run(Progress(hashtags, retryCount, true), rest, retries) == Run(Start(), page, retries)
      decreases |rest|, retries - retryCount
    {
      ghost var state := Progress(hashtags, retryCount, true);
      var visit := Next(rest);
      assert Run(state, rest, retries) == Run(Step(state, visit), Rest(rest), retries);
      rest := Rest(rest);
      if visit.TimedOut? || visit.items == [] {
        retryCount := retryCount + 1;
        assert Step(state, visit) == Progress(hashtags, retryCount, true);
        continue;
      }
      var elements := TrimAll(visit.items);
      hashtags := MergeTexts(hashtags, elements);
      assert Step(state, visit) == Progress(hashtags, retryCount, visit.viewMore);
      if !visit.viewMore {
        break;
      }
    }
    hashtags := Take(hashtags, Capacity);
  }
}
