/**
 * `scrapeMusicAndGraphs` of scrape_1.js: pair the n-th title, author and trend chart of each
 * batch into a record, keep one record per (title, author), page through "View More", reload when
 * the three lists do not all appear, and give up on the spot when their lengths differ.
 */
module Music {
  import opened Text
  import opened Seqs
  import opened Collection
  import opened ChartDigitizer

  /** One scraped song: trimmed title and author, and the seven normalised chart readings. */
  datatype MusicRecord = MusicRecord(title: string, author: string, graphValues: seq<real>)

  /** Two records are the same song when both title and author agree. */
  function RecordKey(m: MusicRecord): (string, string) {
    (m.title, m.author)
  }

  /**
   * What one pass of the outer loop sees: nothing before the deadline, or the title elements,
   * author elements and the chart canvases (as rasters), and whether "View More" is present.
   */
  datatype Scan = Waited | Listed(titles: seq<string>, authors: seq<string>, graphs: seq<Image>, viewMore: bool)

  /** The next scan; a script that has run out only times out. */
  function NextScan(page: seq<Scan>): Scan {
    if page == [] then Waited else page[0]
  }

  function RestScans(page: seq<Scan>): seq<Scan> {
    if page == [] then [] else page[1..]
  }

  /** The polling wait ends early only once all three lists are non-empty. */
  predicate Found(v: Scan) {
    v.Listed? && v.titles != [] && v.authors != [] && v.graphs != []
  }

  /** The three lists have one entry per song. */
  predicate Aligned(v: Scan) {
    v.Listed? && |v.titles| == |v.authors| && |v.titles| == |v.graphs|
  }

  /** A record as the source assembles it: readings have seven entries, each in [0, 1]. */
  predicate WellFormed(m: MusicRecord) {
    |m.graphValues| == SampleCount && forall k :: 0 <= k < |m.graphValues| ==> 0.0 <= m.graphValues[k] <= 1.0
  }

  /** The records of one aligned batch, position by position. */
  function Records(titles: seq<string>, authors: seq<string>, graphs: seq<Image>): (rs: seq<MusicRecord>)
    requires |titles| == |authors| == |graphs|
    ensures |rs| == |titles|
    ensures forall i :: 0 <= i < |rs| ==>
      rs[i] == MusicRecord(Trim(titles[i]), Trim(authors[i]), Digitize(graphs[i])) && WellFormed(rs[i])
  {
    forall i | 0 <= i < |titles| ensures WellFormed(MusicRecord(Trim(titles[i]), Trim(authors[i]), Digitize(graphs[i]))) {
      DigitizeSpec(graphs[i]);
    }
    seq(|titles|, i requires 0 <= i < |titles| => MusicRecord(Trim(titles[i]), Trim(authors[i]), Digitize(graphs[i])))
  }

  /** The records one scan contributes: none unless it was found and aligned. */
  function Batch(v: Scan): seq<MusicRecord> {
    if Found(v) && Aligned(v) then Records(v.titles, v.authors, v.graphs) else []
  }

  /** The outer loop's condition, and not yet left by `break` or `return`. */
  predicate Active(s: Progress<MusicRecord>, retries: nat) {
    s.open && |s.records| < Capacity && s.retryCount < retries
  }

  /**
   * One pass of the outer loop: a wait that timed out costs a retry; lists of different lengths
   * end the scrape with what was collected; otherwise the batch is merged and the loop goes on
   * only if "View More" was there to click.
   */
  function Step(s: Progress<MusicRecord>, v: Scan): Progress<MusicRecord> {
    if !Found(v) then s.(retryCount := s.retryCount + 1)
    else if !Aligned(v) then s.(open := false)
    else Progress(MergeBatch(s.records, Records(v.titles, v.authors, v.graphs), RecordKey, Capacity), s.retryCount, v.viewMore)
  }

  function Run(s: Progress<MusicRecord>, page: seq<Scan>, retries: nat): Progress<MusicRecord>
    decreases |page|, retries - s.retryCount
  {
    if !Active(s, retries) then s
    else Run(Step(s, NextScan(page)), RestScans(page), retries)
  }

  /** What `scrapeMusicAndGraphs(page, musicClass, authorClass, graphClass, retries)` returns. */
  function Scraped(page: seq<Scan>, retries: nat): seq<MusicRecord> {
    Take(Run(Start(), page, retries).records, Capacity)
  }

  /** The records of every batch in `scans`, in order. */
  function Consumed(scans: seq<Scan>): seq<MusicRecord>
    decreases |scans|
  {
    if scans == [] then [] else Batch(scans[0]) + Consumed(scans[1..])
  }

  /** The number of waits in `scans` that ran into the deadline. */
  function Timeouts(scans: seq<Scan>): nat
    decreases |scans|
  {
    if scans == [] then 0 else (if Found(scans[0]) then 0 else 1) + Timeouts(scans[1..])
  }

  /** As in the hashtag loop: `r` is reached from `seen` and `start` by consuming `consumed`. */
  predicate Traced(seen: seq<MusicRecord>, consumed: seq<Scan>, start: nat, r: Progress<MusicRecord>, exhausted: bool) {
    && r.records == Take(DedupBy(seen + Consumed(consumed), RecordKey), Capacity)
    && r.retryCount >= start + Timeouts(consumed)
    && (!exhausted ==> r.retryCount == start + Timeouts(consumed))
  }

  lemma {:induction false} TracedEmpty(seen: seq<MusicRecord>, r: Progress<MusicRecord>, page: seq<Scan>)
    requires r.records == Take(DedupBy(seen, RecordKey), Capacity)
    ensures Traced(seen, page[..0], r.retryCount, r, 0 == |page|)
  {
    assert page[..0] == [];
    assert seen + Consumed(page[..0]) == seen;
  }

  lemma ConsumedCons(page: seq<Scan>, k: nat)
    requires page != [] && k <= |page| - 1
    ensures Consumed(page[..k + 1]) == Batch(page[0]) + Consumed(page[1..][..k])
    ensures Timeouts(page[..k + 1]) == (if Found(page[0]) then 0 else 1) + Timeouts(page[1..][..k])
  {
    var p := page[..k + 1];
    assert p[0] == page[0] && p[1..] == page[1..][..k];
  }

  lemma {:induction false} TracedCons(seen: seq<MusicRecord>, page: seq<Scan>, k: nat, start: nat, r: Progress<MusicRecord>)
    requires page != [] && k <= |page| - 1
    requires Traced(seen + Batch(page[0]), page[1..][..k], start + (if Found(page[0]) then 0 else 1), r, k == |page| - 1)
    ensures Traced(seen, page[..k + 1], start, r, k + 1 == |page|)
  {
    ConsumedCons(page, k);
    var tail := page[1..][..k];
    var seen' := seen + Batch(page[0]);
    var start' := start + (if Found(page[0]) then 0 else 1);
    assert r.records == Take(DedupBy(seen' + Consumed(tail), RecordKey), Capacity);
    ConcatAssoc(seen, Batch(page[0]), Consumed(tail));
    assert r.records == Take(DedupBy(seen + Consumed(page[..k + 1]), RecordKey), Capacity);
    assert start' + Timeouts(tail) == start + Timeouts(page[..k + 1]);
  }

  /** A wait that timed out adds no records and one retry in front of the trace of the rest. */
  lemma RetryStep(seen: seq<MusicRecord>, page: seq<Scan>, start: nat, r: Progress<MusicRecord>, k: nat)
    requires !Found(NextScan(page)) && k <= |RestScans(page)|
    requires Traced(seen, RestScans(page)[..k], start + 1, r, k == |RestScans(page)|)
    ensures exists k' :: 0 <= k' <= |page| && Traced(seen, page[..k'], start, r, k' == |page|)
  {
    if page == [] {
      assert page[..0] == [] && RestScans(page)[..k] == [];
      assert Traced(seen, page[..0], start, r, true);
    } else {
      assert Batch(page[0]) == [];
      assert seen + Batch(page[0]) == seen;
      TracedCons(seen, page, k, start, r);
    }
  }

  lemma ConsumedOne(page: seq<Scan>)
    requires page != []
    ensures Consumed(page[..1]) == Batch(page[0])
    ensures Timeouts(page[..1]) == (if Found(page[0]) then 0 else 1)
  {
    ConsumedCons(page, 0);
    assert page[1..][..0] == [];
  }

  /** A scan after which the loop stops: the trace is that one scan. */
  lemma StopStep(seen: seq<MusicRecord>, page: seq<Scan>, start: nat, r: Progress<MusicRecord>)
    requires page != []
    requires r.records == Take(DedupBy(seen + Batch(page[0]), RecordKey), Capacity)
    requires r.retryCount == start + (if Found(page[0]) then 0 else 1)
    ensures Traced(seen, page[..1], start, r, 1 == |page|)
  {
    ConsumedOne(page);
  }

  /**
   * The loop consumes some first `k` scans. The records it then holds are the records of those
   * scans' aligned batches, one per (title, author) in first-seen order, cut at 500; `retryCount`
   * grew by the number of those waits that timed out (at least, and exactly unless the page ran out).
   */
  lemma {:induction false} RunTrace(s: Progress<MusicRecord>, page: seq<Scan>, retries: nat, seen: seq<MusicRecord>)
    requires s.records == Take(DedupBy(seen, RecordKey), Capacity)
    ensures exists k :: 0 <= k <= |page| && Traced(seen, page[..k], s.retryCount, Run(s, page, retries), k == |page|)
    decreases |page|, retries - s.retryCount
  {
    var r := Run(s, page, retries);
    if !Active(s, retries) {
      TracedEmpty(seen, r, page);
    } else {
      var v := NextScan(page);
      var s' := Step(s, v);
      assert r == Run(s', RestScans(page), retries);
      if !Found(v) {
        RunTrace(s', RestScans(page), retries, seen);
        var k :| 0 <= k <= |RestScans(page)| && Traced(seen, RestScans(page)[..k], s'.retryCount, r, k == |RestScans(page)|);
        RetryStep(seen, page, s.retryCount, r, k);
      } else if !Aligned(v) {
        assert r == s' && page[0] == v;
        assert Batch(page[0]) == [] && seen + Batch(page[0]) == seen;
        StopStep(seen, page, s.retryCount, r);
      } else {
        MergeIsDedup(seen, Batch(v), RecordKey, Capacity);
        var seen' := seen + Batch(page[0]);
        assert page[0] == v && s'.retryCount == s.retryCount;
        if v.viewMore {
          RunTrace(s', RestScans(page), retries, seen');
          var k :| 0 <= k <= |RestScans(page)| && Traced(seen', RestScans(page)[..k], s'.retryCount, r, k == |RestScans(page)|);
          TracedCons(seen, page, k, s.retryCount, r);
        } else {
          assert r == s';
          StopStep(seen, page, s.retryCount, r);
        }
      }
    }
  }

  /** Every record the loop holds was assembled from one position of an aligned batch. */
  lemma {:induction false} RunWellFormed(s: Progress<MusicRecord>, page: seq<Scan>, retries: nat)
    requires forall m :: m in s.records ==> WellFormed(m)
    ensures forall m :: m in Run(s, page, retries).records ==> WellFormed(m)
    decreases |page|, retries - s.retryCount
  {
    if Active(s, retries) {
      var v := NextScan(page);
      if Found(v) && Aligned(v) {
        var b := Records(v.titles, v.authors, v.graphs);
        assert forall m :: m in b ==> WellFormed(m);
      }
      RunWellFormed(Step(s, v), RestScans(page), retries);
    }
  }

  /** Lists of different lengths end the scrape at once, with the records collected so far. */
  lemma MismatchKeepsCollected(s: Progress<MusicRecord>, page: seq<Scan>, retries: nat)
    requires Active(s, retries) && page != [] && Found(page[0]) && !Aligned(page[0])
    ensures Run(s, page, retries) == s.(open := false)
    ensures Run(s, page, retries).records == s.records
  {
  }

  /**
   * A scan whose songs are all held already, by title and author, with "View More" still there to
   * click: the wait succeeded, so no retry is spent, and the loop goes on.
   */
  predicate Stale(s: Progress<MusicRecord>, v: Scan) {
    && Found(v) && Aligned(v) && v.viewMore
    && forall i :: 0 <= i < |v.titles| ==> HasKey(s.records, RecordKey, (Trim(v.titles[i]), Trim(v.authors[i])))
  }

  /** A stale scan changes nothing: no record, no retry, and the loop stays open. */
  lemma StaleStep(s: Progress<MusicRecord>, v: Scan)
    requires s.open && Stale(s, v)
    ensures Step(s, v) == s
  {
    var rs := Records(v.titles, v.authors, v.graphs);
    forall i | 0 <= i < |rs| ensures HasKey(s.records, RecordKey, RecordKey(rs[i])) {
      assert RecordKey(rs[i]) == (Trim(v.titles[i]), Trim(v.authors[i]));
    }
    MergeHeld(s.records, rs, RecordKey, Capacity);
    assert Step(s, v) == Progress(MergeBatch(s.records, rs, RecordKey, Capacity), s.retryCount, true);
  }

  /**
   * However many stale scans come first, the loop passes them without progress and is left exactly
   * where it started: a page that keeps offering "View More" over the same songs keeps the loop
   * going for as long as the page does.
   */
  lemma {:induction false} StaleScansChangeNothing(s: Progress<MusicRecord>, page: seq<Scan>, retries: nat, k: nat)
    requires s.open && k <= |page|
    requires forall i :: 0 <= i < k ==> Stale(s, page[i])
    ensures Run(s, page, retries) == Run(s, page[k..], retries)
    decreases k
  {
    if k == 0 {
      assert page[k..] == page;
    } else if Active(s, retries) {
      StaleStep(s, page[0]);
      assert page[1..][k - 1..] == page[k..];
      StaleScansChangeNothing(s, page[1..], retries, k - 1);
    }
  }

  /**
   * `scrapeMusicAndGraphs`: one record per (title, author), at most 500, each with seven readings
   * in [0, 1], and exactly the first-seen records of the batches of the first `k` scans, cut at 500.
   */
  lemma ScrapedSpec(page: seq<Scan>, retries: nat)
    ensures var r := Scraped(page, retries);
      && UniqueBy(r, RecordKey)
      && |r| <= Capacity
      && (forall m :: m in r ==> WellFormed(m))
      && exists k :: 0 <= k <= |page| && r == Take(DedupBy(Consumed(page[..k]), RecordKey), Capacity)
  {
    var s: Progress<MusicRecord> := Start();
    assert s.records == Take(DedupBy([], RecordKey), Capacity);
    RunTrace(s, page, retries, []);
    RunWellFormed(s, page, retries);
    var run := Run(s, page, retries);
    var k :| 0 <= k <= |page| && Traced([], page[..k], s.retryCount, run, k == |page|);
    var records := Consumed(page[..k]);
    assert [] + records == records;
    var d := DedupBy(records, RecordKey);
    assert run.records == Take(d, Capacity);
    assert Scraped(page, retries) == run.records;
    TakeKeepsUnique(d, Capacity, RecordKey);
  }

  /** `musicData.some(item => item.title === musicTitle && item.author === authorName)` is `HasKey`. */
  lemma HasKeyByFields(data: seq<MusicRecord>, m: MusicRecord)
    ensures HasKey(data, RecordKey, RecordKey(m))
      <==> exists k :: 0 <= k < |data| && data[k].title == m.title && data[k].author == m.author
  {
    if exists k :: 0 <= k < |data| && data[k].title == m.title && data[k].author == m.author {
      var k :| 0 <= k < |data| && data[k].title == m.title && data[k].author == m.author;
      assert RecordKey(data[k]) == RecordKey(m);
    }
  }

  /** The inner loop of `scrapeMusicAndGraphs`: one aligned batch read pair by pair and merged. */
  method MergeScan(musicData: seq<MusicRecord>, titles: seq<string>, authors: seq<string>, graphs: seq<Image>)
    returns (merged: seq<MusicRecord>)
    requires |titles| == |authors| == |graphs|
    ensures merged == MergeBatch(musicData, Records(titles, authors, graphs), RecordKey, Capacity)
  {
    ghost var batch := Records(titles, authors, graphs);
    merged := musicData;
    var i := 0;
    while i < |titles|
      invariant 0 <= i <= |titles|
      invariant MergeBatch(merged, batch[i..], RecordKey, Capacity) == MergeBatch(musicData, batch, RecordKey, Capacity)
    {
      var musicTitle := Trim(titles[i]);
      var authorName := Trim(authors[i]);
      var graphValues := ExtractGraphValues(graphs[i]);
      var musicItem := MusicRecord(musicTitle, authorName, graphValues);
      assert musicItem == batch[i];
      assert batch[i..][1..] == batch[i + 1..];
      HasKeyByFields(merged, musicItem);
      if !(exists k :: 0 <= k < |merged| && merged[k].title == musicTitle && merged[k].author == authorName) {
        merged := merged + [musicItem];
        if |merged| >= Capacity {
          return;
        }
      }
      i := i + 1;
    }
  }

  /** The loop of `scrapeMusicAndGraphs`, with the page's behaviour given by `page`. */
  method ScrapeMusicAndGraphs(page: seq<Scan>, retries: nat) returns (musicData: seq<MusicRecord>)
    ensures musicData == Scraped(page, retries)
  {
    musicData := [];
    var retryCount: nat := 0;
    var rest := page;
    while |musicData| < Capacity && retryCount < retries
      invariant Run(Progress(musicData, retryCount, true), rest, retries) == Run(Start(), page, retries)
      decreases |rest|, retries - retryCount
    {
      ghost var state := Progress(musicData, retryCount, true);
      var visit := NextScan(rest);
      assert Run(state, rest, retries) == Run(Step(state, visit), RestScans(rest), retries);
      rest := RestScans(rest);
      if !(visit.Listed? && visit.titles != [] && visit.authors != [] && visit.graphs != []) {
        retryCount := retryCount + 1;
        assert Step(state, visit) == Progress(musicData, retryCount, true);
        continue;
      }
      if |visit.titles| != |visit.authors| || |visit.titles| != |visit.graphs| {
        assert Step(state, visit) == Progress(musicData, retryCount, false);
        return;
      }
      musicData := MergeScan(musicData, visit.titles, visit.authors, visit.graphs);
      assert Step(state, visit) == Progress(musicData, retryCount, visit.viewMore);
      if !visit.viewMore {
        break;
      }
    }
    musicData := Take(musicData, Capacity);
  }
}
