/**
 * distro_3.js: for every trending song, look up YouTube videos for a "Topic" channel query
 * (through a cache of past searches), and flag the song when a video description mentions
 * DistroKid. The web search is a parameter `search` that maps a query to the response it gets.
 */
module Distro {
  import opened Wrappers
  import opened Text
  import Seqs

  /** The word whose presence in a description flags a song. */
  const Marker: string := "DistroKid"

  /** Appended to "title author" to aim the search at auto-generated YouTube "Topic" channels. */
  const QuerySuffix: string := " Topic site:youtube.com"

  /** One entry of `value`; `description` is `None` when it is missing or not a string. */
  datatype Video = Video(description: Option<string>)

  /** A search response; `value` is `None` when absent, as in the `{}` returned after a failed request. */
  datatype BingResponse = BingResponse(value: Option<seq<Video>>)

  /**
   * The `forEach` of `extractVideoDescriptions`: trimmed descriptions in order, up to the first
   * entry whose description cannot be trimmed, where the thrown error ends the collection.
   */
  function TrimmedUntilMissing(videos: seq<Video>): (ds: seq<string>)
    ensures |ds| <= |videos|
    decreases |videos|
  {
    if videos == [] || videos[0].description.None? then []
    else [Trim(videos[0].description.value)] + TrimmedUntilMissing(videos[1..])
  }

  /**
   * The collected descriptions are the trimmed descriptions of the longest prefix of entries that
   * have one: the collection stops at the end or at the first entry without a description.
   */
  lemma {:induction false} TrimmedPrefix(videos: seq<Video>)
    ensures var ds := TrimmedUntilMissing(videos);
      && (forall i :: 0 <= i < |ds| ==> videos[i].description.Some? && ds[i] == Trim(videos[i].description.value))
      && (|ds| == |videos| || videos[|ds|].description.None?)
    decreases |videos|
  {
    if videos != [] && videos[0].description.Some? {
      TrimmedPrefix(videos[1..]);
      var ds := TrimmedUntilMissing(videos);
      forall i | 0 <= i < |ds| ensures videos[i].description.Some? && ds[i] == Trim(videos[i].description.value) {
        if i > 0 {
          assert ds[i] == TrimmedUntilMissing(videos[1..])[i - 1] && videos[i] == videos[1..][i - 1];
        }
      }
    }
  }

  /** What `extractVideoDescriptions(bingResponse)` returns. */
  function Descriptions(r: BingResponse): (ds: seq<string>)
    ensures r.value.None? ==> ds == []
    ensures r.value.Some? ==> ds == TrimmedUntilMissing(r.value.value)
  {
    match r.value
    case None => []
    case Some(videos) => TrimmedUntilMissing(videos)
  }

  /** When every entry has a description, each one is returned trimmed, in input order. */
  lemma AllDescribedAllReturned(videos: seq<Video>)
    requires forall i :: 0 <= i < |videos| ==> videos[i].description.Some?
    ensures |Descriptions(BingResponse(Some(videos)))| == |videos|
    ensures forall i :: 0 <= i < |videos| ==> Descriptions(BingResponse(Some(videos)))[i] == Trim(videos[i].description.value)
  {
    TrimmedPrefix(videos);
  }

  lemma TrimmedStep(videos: seq<Video>, i: nat)
    requires i < |videos|
    ensures videos[i].description.None? ==> TrimmedUntilMissing(videos[i..]) == []
    ensures videos[i].description.Some? ==>
      TrimmedUntilMissing(videos[i..]) == [Trim(videos[i].description.value)] + TrimmedUntilMissing(videos[i + 1..])
  {
    assert videos[i..][0] == videos[i] && videos[i..][1..] == videos[i + 1..];
  }

  /** One more described entry moves its trimmed description from the rest onto the collected list. */
  lemma TrimmedExtends(videos: seq<Video>, i: nat, collected: seq<string>, all: seq<string>)
    requires i < |videos| && videos[i].description.Some?
    requires collected + TrimmedUntilMissing(videos[i..]) == all
    ensures (collected + [Trim(videos[i].description.value)]) + TrimmedUntilMissing(videos[i + 1..]) == all
  {
    TrimmedStep(videos, i);
    Seqs.ConcatAssoc(collected, [Trim(videos[i].description.value)], TrimmedUntilMissing(videos[i + 1..]));
  }

  /** `extractVideoDescriptions`: the loop, with the caught `TypeError` as an early exit. */
  method ExtractVideoDescriptions(bingResponse: BingResponse) returns (descriptions: seq<string>)
    ensures descriptions == Descriptions(bingResponse)
  {
    descriptions := [];
    var videoResults := if bingResponse.value.Some? then bingResponse.value.value else [];
    assert TrimmedUntilMissing(videoResults) == Descriptions(bingResponse);
    assert videoResults[0..] == videoResults;
    var i := 0;
    while i < |videoResults|
      invariant 0 <= i <= |videoResults|
      invariant descriptions + TrimmedUntilMissing(videoResults[i..]) == Descriptions(bingResponse)
    {
      var video := videoResults[i];
      if video.description.None? {
        TrimmedStep(videoResults, i);
        break;
      }
      var description := Trim(video.description.value);
      TrimmedExtends(videoResults, i, descriptions, Descriptions(bingResponse));
      descriptions := descriptions + [description];
      i := i + 1;
    }
  }

  /** `descriptions.some(description => description.includes("DistroKid"))`. */
  function MentionsDistroKid(ds: seq<string>): (b: bool)
    ensures b <==> exists i :: 0 <= i < |ds| && Contains(ds[i], Marker)
    decreases |ds|
  {
    if ds == [] then false
    else
      assert forall i :: 1 <= i < |ds| ==> ds[1..][i - 1] == ds[i];
      Contains(ds[0], Marker) || MentionsDistroKid(ds[1..])
  }

  /** The search query for a song. */
  function Query(title: string, author: string): (q: string)
    ensures |q| == |title| + 1 + |author| + |QuerySuffix|
    ensures q[..|title|] == title && q[|title|] == ' '
    ensures q[|title| + 1..|title| + 1 + |author|] == author && q[|title| + 1 + |author|..] == QuerySuffix
  {
    title + " " + author + QuerySuffix
  }

  /**
   * Two songs share a query, and so a cache entry, only if they agree, as long as the titles hold
   * no space; with spaces they can collide.
   */
  lemma SpacelessTitlesKeepQueriesApart(t1: string, a1: string, t2: string, a2: string)
    requires ' ' !in t1 && ' ' !in t2
    requires Query(t1, a1) == Query(t2, a2)
    ensures t1 == t2 && a1 == a2
  {
    FirstSpaceEndsTitle(t1, a1, t2);
    FirstSpaceEndsTitle(t2, a2, t1);
  }

  /** A title with no space cannot run past the space that ends another title. */
  lemma FirstSpaceEndsTitle(t1: string, a1: string, t2: string)
    requires ' ' !in t2
    requires t2 <= Query(t1, a1)
    ensures |t2| <= |t1|
  {
  }

  lemma QueriesCollide()
    ensures Query("a b", "c") == Query("a", "b c")
  {
  }

  /** A trending song as read from the features file. */
  datatype Song = Song(title: string, author: string)

  /** The fields of `songData` this model keeps. */
  datatype SongResult = SongResult(title: string, author: string, distrokid: bool)

  /** One element of `videoDescriptions`, as saved to video_descriptions.json. */
  datatype LogEntry = LogEntry(query: string, descriptions: seq<string>)

  /** `processedSongs`, `videoDescriptionsDict` and `videoDescriptions` while `main` runs. */
  datatype Cache = Cache(processed: map<string, bool>, dict: map<string, seq<string>>, log: seq<LogEntry>)

  /** The results so far and the cache. */
  datatype Processing = Processing(results: seq<SongResult>, cache: Cache)

  /** `Object.fromEntries(videoDescriptions.map(...))`: one key per query, the last entry winning. */
  function FromEntries(log: seq<LogEntry>): (d: map<string, seq<string>>)
    ensures forall q :: q in d <==> exists i :: 0 <= i < |log| && log[i].query == q
    decreases |log|
  {
    if log == [] then map[]
    else
      var init := log[..|log| - 1];
      assert forall i :: 0 <= i < |init| ==> init[i] == log[i];
      FromEntries(init)[log[|log| - 1].query := log[|log| - 1].descriptions]
  }

  /** The dictionary holds, for each query, the descriptions of its last entry. */
  lemma {:induction false} FromEntriesLastWins(log: seq<LogEntry>, i: nat)
    requires i < |log|
    requires forall j :: i < j < |log| ==> log[j].query != log[i].query
    ensures FromEntries(log)[log[i].query] == log[i].descriptions
    decreases |log|
  {
    if i < |log| - 1 {
      var init := log[..|log| - 1];
      assert init[i] == log[i];
      FromEntriesLastWins(init, i);
    }
  }

  /** The state `main` starts from: the saved flags and entries, and the dictionary built from them. */
  function Loaded(processed: map<string, bool>, log: seq<LogEntry>): (c: Cache)
    ensures c.dict == FromEntries(c.log)
  {
    Cache(processed, FromEntries(log), log)
  }

  /** `processedSongs[query]` is truthy. */
  predicate Processed(processed: map<string, bool>, q: string) {
    q in processed && processed[q]
  }

  /** `videoDescriptionsDict[query] || []`. */
  function Cached(dict: map<string, seq<string>>, q: string): seq<string> {
    if q in dict then dict[q] else []
  }

  /** Lines 56-61: search, record the descriptions in all three places. */
  function Refresh(c: Cache, q: string, search: string -> BingResponse): (c': Cache)
    ensures Processed(c'.processed, q) && Cached(c'.dict, q) == Descriptions(search(q))
    ensures c'.log == c.log + [LogEntry(q, Descriptions(search(q)))]
    ensures c.dict == FromEntries(c.log) ==> c'.dict == FromEntries(c'.log)
    ensures forall p :: p != q ==> (p in c'.processed <==> p in c.processed) && (p in c.processed ==> c'.processed[p] == c.processed[p])
    ensures forall p :: p != q ==> Cached(c'.dict, p) == Cached(c.dict, p)
  {
    var ds := Descriptions(search(q));
    var log' := c.log + [LogEntry(q, ds)];
    assert log'[..|log'| - 1] == c.log;
    Cache(c.processed[q := true], c.dict[q := ds], log')
  }

  /**
   * One iteration of the song loop, with the descriptions taken from the cache for a processed
   * query and from a fresh search otherwise. The flag is decided by what the cache holds for the
   * song's query afterwards, and the query is then processed; a cached query leaves the cache alone.
   */
  function Visit(c: Cache, song: Song, search: string -> BingResponse): (p: Processing)
    ensures var q := Query(song.title, song.author);
      && p.results == [SongResult(song.title, song.author, MentionsDistroKid(Cached(p.cache.dict, q)))]
      && Processed(p.cache.processed, q)
      && (Processed(c.processed, q) ==> p.cache == c)
      && (!Processed(c.processed, q) ==> p.cache == Refresh(c, q, search))
  {
    var q := Query(song.title, song.author);
    if Processed(c.processed, q) then
      Processing([SongResult(song.title, song.author, MentionsDistroKid(Cached(c.dict, q)))], c)
    else
      var c' := Refresh(c, q, search);
      Processing([SongResult(song.title, song.author, MentionsDistroKid(Descriptions(search(q))))], c')
  }

  /** The song loop of `main`, `for (const song of trendingMusic)`. */
  function ProcessAll(songs: seq<Song>, c: Cache, search: string -> BingResponse): Processing
    decreases |songs|
  {
    if songs == [] then Processing([], c)
    else
      var p := Visit(c, songs[0], search);
      var rest := ProcessAll(songs[1..], p.cache, search);
      Processing(p.results + rest.results, rest.cache)
  }

  /** The queries of `songs`. */
  predicate QueriedBy(songs: seq<Song>, q: string) {
    exists i :: 0 <= i < |songs| && Query(songs[i].title, songs[i].author) == q
  }

  /** A processed query keeps its processed flag and its cached descriptions to the end. */
  lemma {:induction false} ProcessedStaysPut(songs: seq<Song>, c: Cache, search: string -> BingResponse, q: string)
    requires Processed(c.processed, q)
    ensures Processed(ProcessAll(songs, c, search).cache.processed, q)
    ensures Cached(ProcessAll(songs, c, search).cache.dict, q) == Cached(c.dict, q)
    decreases |songs|
  {
    if songs != [] {
      var p := Visit(c, songs[0], search);
      ProcessedStaysPut(songs[1..], p.cache, search, q);
    }
  }

  /**
   * `result` is what `main` records for `song` against the final cache `c`: its title and author,
   * the flag for the descriptions cached for its query, and the query processed.
   */
  ghost predicate ResultFor(song: Song, result: SongResult, c: Cache) {
    var q := Query(song.title, song.author);
    && result.title == song.title && result.author == song.author
    && result.distrokid == MentionsDistroKid(Cached(c.dict, q))
    && Processed(c.processed, q)
  }

  /** A result that agrees with a cache still agrees with it after any later songs. */
  lemma ResultForStays(song: Song, result: SongResult, c: Cache, songs: seq<Song>, search: string -> BingResponse)
    requires ResultFor(song, result, c)
    ensures ResultFor(song, result, ProcessAll(songs, c, search).cache)
  {
    ProcessedStaysPut(songs, c, search, Query(song.title, song.author));
  }

  /**
   * `main` emits one result per song, in order, with its title and author; each flag says
   * whether the descriptions cached for the song's query at the end mention DistroKid, and
   * every song's query ends up processed.
   */
  lemma {:induction false} ResultsFollowSongs(songs: seq<Song>, c: Cache, search: string -> BingResponse)
    ensures var p := ProcessAll(songs, c, search);
      && |p.results| == |songs|
      && forall i :: 0 <= i < |songs| ==> ResultFor(songs[i], p.results[i], p.cache)
    decreases |songs|
  {
    if songs != [] {
      var v := Visit(c, songs[0], search);
      var rest := ProcessAll(songs[1..], v.cache, search);
      var p := ProcessAll(songs, c, search);
      assert p.results == [v.results[0]] + rest.results && p.cache == rest.cache;
      ResultsFollowSongs(songs[1..], v.cache, search);
      ResultForStays(songs[0], v.results[0], v.cache, songs[1..], search);
      ResultsCons(songs, v.results[0], rest.results, p.cache);
    }
  }

  lemma ResultsCons(songs: seq<Song>, head: SongResult, tail: seq<SongResult>, c: Cache)
    requires songs != [] && |tail| == |songs| - 1
    requires ResultFor(songs[0], head, c)
    requires forall i :: 0 <= i < |tail| ==> ResultFor(songs[1..][i], tail[i], c)
    ensures forall i :: 0 <= i < |songs| ==> ResultFor(songs[i], ([head] + tail)[i], c)
  {
    forall i | 0 < i < |songs| ensures ResultFor(songs[i], ([head] + tail)[i], c) {
      assert ([head] + tail)[i] == tail[i - 1] && songs[i] == songs[1..][i - 1];
    }
  }

  lemma QueriedByTail(songs: seq<Song>)
    requires songs != []
    ensures forall q :: QueriedBy(songs, q) <==> q == Query(songs[0].title, songs[0].author) || QueriedBy(songs[1..], q)
  {
    forall q | QueriedBy(songs[1..], q) ensures QueriedBy(songs, q) {
      var i :| 0 <= i < |songs[1..]| && Query(songs[1..][i].title, songs[1..][i].author) == q;
      assert songs[i + 1] == songs[1..][i];
    }
    forall q | QueriedBy(songs, q) ensures q == Query(songs[0].title, songs[0].author) || QueriedBy(songs[1..], q) {
      var i :| 0 <= i < |songs| && Query(songs[i].title, songs[i].author) == q;
      if i > 0 {
        assert songs[1..][i - 1] == songs[i];
      }
    }
    assert Query(songs[0].title, songs[0].author) == Query(songs[0].title, songs[0].author);
  }

  /** The dictionary built in memory always agrees with the list of entries that is saved. */
  lemma {:induction false} DictAgreesWithLog(songs: seq<Song>, c: Cache, search: string -> BingResponse)
    requires c.dict == FromEntries(c.log)
    ensures ProcessAll(songs, c, search).cache.dict == FromEntries(ProcessAll(songs, c, search).cache.log)
    decreases |songs|
  {
    if songs != [] {
      DictAgreesWithLog(songs[1..], Visit(c, songs[0], search).cache, search);
    }
  }

  /** Exactly the songs' queries become processed; every other flag is left as it was. */
  lemma {:induction false} ProcessedFlags(songs: seq<Song>, c: Cache, search: string -> BingResponse)
    ensures var c' := ProcessAll(songs, c, search).cache;
      && (forall q :: Processed(c'.processed, q) <==> Processed(c.processed, q) || QueriedBy(songs, q))
      && (forall q :: !QueriedBy(songs, q) ==> (q in c'.processed <==> q in c.processed) && (q in c.processed ==> c'.processed[q] == c.processed[q]))
    decreases |songs|
  {
    if songs != [] {
      ProcessedFlags(songs[1..], Visit(c, songs[0], search).cache, search);
      QueriedByTail(songs);
    }
  }

  /** Entries are only ever appended. */
  lemma {:induction false} LogExtends(songs: seq<Song>, c: Cache, search: string -> BingResponse)
    ensures c.log <= ProcessAll(songs, c, search).cache.log
    decreases |songs|
  {
    if songs != [] {
      LogExtends(songs[1..], Visit(c, songs[0], search).cache, search);
    }
  }

  /** What one visit appends: nothing for a processed query, else one entry for the query. */
  lemma VisitLog(c: Cache, song: Song, search: string -> BingResponse)
    ensures var q := Query(song.title, song.author);
      var v := Visit(c, song, search).cache;
      && (Processed(c.processed, q) ==> v.log == c.log)
      && (!Processed(c.processed, q) ==> |v.log| == |c.log| + 1 && v.log[|c.log|].query == q && v.log[..|c.log|] == c.log)
      && (forall p :: Processed(c.processed, p) ==> Processed(v.processed, p))
      && Processed(v.processed, q)
  {
  }

  /** Each entry added is for a song's query that was not processed at the start. */
  lemma {:induction false} LogNewUnprocessed(songs: seq<Song>, c: Cache, search: string -> BingResponse)
    ensures var c' := ProcessAll(songs, c, search).cache;
      forall k :: |c.log| <= k < |c'.log| ==> !Processed(c.processed, c'.log[k].query) && QueriedBy(songs, c'.log[k].query)
    decreases |songs|
  {
    if songs != [] {
      var q0 := Query(songs[0].title, songs[0].author);
      var v := Visit(c, songs[0], search).cache;
      var c' := ProcessAll(songs, c, search).cache;
      LogNewUnprocessed(songs[1..], v, search);
      LogExtends(songs[1..], v, search);
      VisitLog(c, songs[0], search);
      QueriedByTail(songs);
      forall k | |c.log| <= k < |c'.log| ensures !Processed(c.processed, c'.log[k].query) && QueriedBy(songs, c'.log[k].query) {
        if k < |v.log| {
          assert c'.log[k] == v.log[k];
        }
      }
    }
  }

  /** No query gets two new entries: each is searched at most once. */
  lemma {:induction false} LogNewDistinct(songs: seq<Song>, c: Cache, search: string -> BingResponse)
    ensures var c' := ProcessAll(songs, c, search).cache;
      forall k, l :: |c.log| <= k < l < |c'.log| ==> c'.log[k].query != c'.log[l].query
    decreases |songs|
  {
    if songs != [] {
      var v := Visit(c, songs[0], search).cache;
      var c' := ProcessAll(songs, c, search).cache;
      LogNewDistinct(songs[1..], v, search);
      LogNewUnprocessed(songs[1..], v, search);
      LogExtends(songs[1..], v, search);
      VisitLog(c, songs[0], search);
      forall k, l | |c.log| <= k < l < |c'.log| ensures c'.log[k].query != c'.log[l].query {
        if k < |v.log| {
          assert c'.log[k] == v.log[k];
          assert !Processed(v.processed, c'.log[l].query);
        }
      }
    }
  }

  /**
   * The entries saved before are kept, and each entry added is for a song's query that was not
   * processed, with no query searched twice.
   */
  lemma LogGrowth(songs: seq<Song>, c: Cache, search: string -> BingResponse)
    ensures var c' := ProcessAll(songs, c, search).cache;
      && c.log <= c'.log
      && (forall k :: |c.log| <= k < |c'.log| ==> !Processed(c.processed, c'.log[k].query) && QueriedBy(songs, c'.log[k].query))
      && (forall k, l :: |c.log| <= k < l < |c'.log| ==> c'.log[k].query != c'.log[l].query)
  {
    LogExtends(songs, c, search);
    LogNewUnprocessed(songs, c, search);
    LogNewDistinct(songs, c, search);
  }

  lemma ProcessAllCons(songs: seq<Song>, i: nat, c: Cache, search: string -> BingResponse)
    requires i < |songs|
    ensures var v := Visit(c, songs[i], search);
      var rest := ProcessAll(songs[i + 1..], v.cache, search);
      ProcessAll(songs[i..], c, search) == Processing(v.results + rest.results, rest.cache)
  {
    assert songs[i..][0] == songs[i] && songs[i..][1..] == songs[i + 1..];
  }

  /** The song loop of `main`, with each search's descriptions taken from the song's own search. */
  method ProcessSongs(songs: seq<Song>, processedSongs0: map<string, bool>, videoDescriptions0: seq<LogEntry>, search: string -> BingResponse)
    returns (results: seq<SongResult>, processedSongs: map<string, bool>, videoDescriptionsDict: map<string, seq<string>>, videoDescriptions: seq<LogEntry>)
    ensures Processing(results, Cache(processedSongs, videoDescriptionsDict, videoDescriptions))
      == ProcessAll(songs, Loaded(processedSongs0, videoDescriptions0), search)
  {
    processedSongs := processedSongs0;
    videoDescriptions := videoDescriptions0;
    videoDescriptionsDict := FromEntries(videoDescriptions0);
    results := [];
    for i := 0 to |songs|
      invariant var rest := ProcessAll(songs[i..], Cache(processedSongs, videoDescriptionsDict, videoDescriptions), search);
        Processing(results + rest.results, rest.cache) == ProcessAll(songs, Loaded(processedSongs0, videoDescriptions0), search)
    {
      var song := songs[i];
      ghost var before := Cache(processedSongs, videoDescriptionsDict, videoDescriptions);
      ProcessAllCons(songs, i, before, search);
      var query := Query(song.title, song.author);
      var descriptions;
      if query in processedSongs && processedSongs[query] {
        descriptions := if query in videoDescriptionsDict then videoDescriptionsDict[query] else [];
      } else {
        var bingResponse := search(query);
        descriptions := ExtractVideoDescriptions(bingResponse);
        videoDescriptions := videoDescriptions + [LogEntry(query, descriptions)];
        videoDescriptionsDict := videoDescriptionsDict[query := descriptions];
        processedSongs := processedSongs[query := true];
      }
      var distrokid := MentionsDistroKid(descriptions);
      var songData := SongResult(song.title, song.author, distrokid);
      assert Visit(before, song, search) == Processing([songData], Cache(processedSongs, videoDescriptionsDict, videoDescriptions));
      ghost var after := ProcessAll(songs[i + 1..], Cache(processedSongs, videoDescriptionsDict, videoDescriptions), search);
      Seqs.ConcatAssoc(results, [songData], after.results);
      results := results + [songData];
    }
  }

  /**
   * The loop as written: the cached path assigns an implicit global `descriptions` (line 54), the
   * fresh path declares a block-scoped `const` of the same name (line 58), and the flag (line 64)
   * reads the global. `global` is `None` while the global has never been assigned, and reading
   * it then throws a `ReferenceError` that ends `main` before anything is saved.
   */
  datatype Outcome = Completed(results: seq<SongResult>, cache: Cache) | ReferenceError(at: nat)

  function ProcessAllAsWritten(songs: seq<Song>, c: Cache, global: Option<seq<string>>, search: string -> BingResponse, at: nat): Outcome
    decreases |songs|
  {
    if songs == [] then Completed([], c)
    else
      var q := Query(songs[0].title, songs[0].author);
      var g := if Processed(c.processed, q) then Some(Cached(c.dict, q)) else global;
      var c' := if Processed(c.processed, q) then c else Refresh(c, q, search);
      if g.None? then ReferenceError(at)
      else
        match ProcessAllAsWritten(songs[1..], c', g, search, at + 1)
        case ReferenceError(k) => ReferenceError(k)
        case Completed(rs, c2) => Completed([SongResult(songs[0].title, songs[0].author, MentionsDistroKid(g.value))] + rs, c2)
  }

  /** As written, a first song that needs a fresh search makes `main` throw at once. */
  lemma AsWrittenFreshFirstSongThrows(songs: seq<Song>, c: Cache, search: string -> BingResponse)
    requires songs != [] && !Processed(c.processed, Query(songs[0].title, songs[0].author))
    ensures ProcessAllAsWritten(songs, c, None, search, 0) == ReferenceError(0)
  {
  }

  /** When every query is already processed, the code as written and the corrected loop agree. */
  lemma {:induction false} AsWrittenAgreesWhenAllCached(songs: seq<Song>, c: Cache, global: Option<seq<string>>, search: string -> BingResponse, at: nat)
    requires forall i :: 0 <= i < |songs| ==> Processed(c.processed, Query(songs[i].title, songs[i].author))
    ensures ProcessAllAsWritten(songs, c, global, search, at) == Completed(ProcessAll(songs, c, search).results, c)
    ensures ProcessAll(songs, c, search).cache == c
    decreases |songs|
  {
    if songs != [] {
      assert forall i :: 0 <= i < |songs[1..]| ==> songs[1..][i] == songs[i + 1];
      var q := Query(songs[0].title, songs[0].author);
      AsWrittenAgreesWhenAllCached(songs[1..], c, Some(Cached(c.dict, q)), search, at + 1);
    }
  }

  /**
   * As written, a fresh song after a cached one inherits the cached song's flag: the cached song
   * mentions DistroKid, the new song's search finds nothing, and it is still flagged; the
   * corrected loop does not flag it.
   */
  lemma AsWrittenStaleFlag(songs: seq<Song>, c: Cache, search: string -> BingResponse)
    requires songs == [Song("A", "B"), Song("C", "D")]
    requires c == Cache(map[Query("A", "B") := true], map[Query("A", "B") := [Marker]], [])
    requires forall q :: search(q) == BingResponse(None)
    ensures ProcessAllAsWritten(songs, c, None, search, 0).Completed?
    ensures ProcessAllAsWritten(songs, c, None, search, 0).results == [SongResult("A", "B", true), SongResult("C", "D", true)]
    ensures ProcessAll(songs, c, search).results == [SongResult("A", "B", true), SongResult("C", "D", false)]
  {
    var q1 := Query("A", "B");
    var q2 := Query("C", "D");
    assert OccursAt(Marker, Marker, 0);
    assert MentionsDistroKid([Marker]);
    assert !MentionsDistroKid([]);
    assert q1 != q2 by { assert q1[0] != q2[0]; }
    assert Processed(c.processed, q1) && Cached(c.dict, q1) == [Marker];
    assert !Processed(c.processed, q2);
    assert Descriptions(search(q2)) == [];
    var tail := songs[1..];
    assert tail == [Song("C", "D")] && tail[1..] == [];
    var c2 := Refresh(c, q2, search);
    assert ProcessAllAsWritten(tail[1..], c2, Some([Marker]), search, 2) == Completed([], c2);
    assert ProcessAllAsWritten(tail, c, Some([Marker]), search, 1) == Completed([SongResult("C", "D", true)], c2);
    assert ProcessAll(tail[1..], c2, search) == Processing([], c2);
    assert ProcessAll(tail, c, search).results == [SongResult("C", "D", false)];
  }
}
