/**
 * The main block of scrape_1.js: for hashtags and then for music, navigate to the page, resolve
 * the dynamic class names from its markup, and scrape with the selectors built from them; the
 * navigation is retried while no data has been obtained. Only a page whose class names cannot
 * be resolved counts against the retry budget.
 */
module Harvest {
  import opened Wrappers
  import opened Collection
  import opened SelectorResolver
  import Hashtags
  import Music

  /**
   * One navigation to the hashtag page: the class attribute values in its markup, and how the page
   * then behaves towards `extractHashtags` for the selector it is given.
   */
  datatype HashtagLoad = HashtagLoad(classAttrs: seq<string>, respond: string -> seq<Visit<string>>)

  /**
   * One navigation to the music page: its class attribute values, and how it then behaves towards
   * `scrapeMusicAndGraphs` for the title, author and canvas selectors it is given.
   */
  datatype MusicLoad = MusicLoad(classAttrs: seq<string>, respond: (string, string, string) -> seq<Music.Scan>)

  /** Where a retry loop of the main block ends: its data, the loads it made, and `retryCount`. */
  datatype Outcome<R> = Outcome(data: seq<R>, passes: nat, retryCount: nat)

  /**
   * A main-block retry loop: while no data is held and `retryCount < retries`, take the next load;
   * `attempt` gives `None` when the class names could not be resolved (a retry) and otherwise
   * the data scraped. A list of loads that has run out reads as markup without class names.
   */
  function MainLoop<L, R>(loads: seq<L>, attempt: L -> Option<seq<R>>, data: seq<R>, passes: nat, retryCount: nat, retries: nat): Outcome<R>
    decreases |loads|, retries - retryCount
  {
    if data != [] || retryCount >= retries then Outcome(data, passes, retryCount)
    else if loads == [] then MainLoop(loads, attempt, data, passes + 1, retryCount + 1, retries)
    else match attempt(loads[0])
      case None => MainLoop(loads[1..], attempt, data, passes + 1, retryCount + 1, retries)
      case Some(d) => MainLoop(loads[1..], attempt, d, passes + 1, retryCount, retries)
  }

  /** The data one load yields: none when its class names were not resolved. */
  function Yield<L, R>(attempt: L -> Option<seq<R>>, l: L): seq<R> {
    match attempt(l)
    case None => []
    case Some(d) => d
  }

  /** The number of loads in `ls` whose class names could not be resolved. */
  function Failures<L, R>(attempt: L -> Option<seq<R>>, ls: seq<L>): nat
    decreases |ls|
  {
    if ls == [] then 0 else (if attempt(ls[0]).None? then 1 else 0) + Failures(attempt, ls[1..])
  }

  lemma FailuresCons<L, R>(attempt: L -> Option<seq<R>>, loads: seq<L>, i: nat)
    requires 0 < i <= |loads|
    ensures Failures(attempt, loads[..i]) == (if attempt(loads[0]).None? then 1 else 0) + Failures(attempt, loads[1..][..i - 1])
  {
    assert loads[..i][1..] == loads[1..][..i - 1];
  }

  /**
   * The loop ends on the first load that yields data, provided the loads before it that failed to
   * resolve did not use up the retry budget: otherwise it ends with no data.
   */
  lemma {:induction false} FirstYieldWins<L, R>(loads: seq<L>, attempt: L -> Option<seq<R>>, i: nat, passes: nat, retryCount: nat, retries: nat)
    requires i < |loads| && Yield(attempt, loads[i]) != []
    requires forall j :: 0 <= j < i ==> Yield(attempt, loads[j]) == []
    ensures MainLoop(loads, attempt, [], passes, retryCount, retries).data
      == if retryCount + Failures(attempt, loads[..i]) < retries then Yield(attempt, loads[i]) else []
    decreases i
  {
    if retryCount >= retries {
    } else if i == 0 {
      assert loads[..0] == [];
    } else {
      assert Yield(attempt, loads[0]) == [];
      FailuresCons(attempt, loads, i);
      var rc := retryCount + (if attempt(loads[0]).None? then 1 else 0);
      assert MainLoop(loads, attempt, [], passes, retryCount, retries) == MainLoop(loads[1..], attempt, [], passes + 1, rc, retries);
      FirstYieldWins(loads[1..], attempt, i - 1, passes + 1, rc, retries);
    }
  }

  /** No load yields data: the loop ends with none. */
  lemma {:induction false} NoYieldNoData<L, R>(loads: seq<L>, attempt: L -> Option<seq<R>>, passes: nat, retryCount: nat, retries: nat)
    requires forall j :: 0 <= j < |loads| ==> Yield(attempt, loads[j]) == []
    ensures MainLoop(loads, attempt, [], passes, retryCount, retries).data == []
    decreases |loads|, retries - retryCount
  {
    if retryCount < retries {
      if loads == [] {
        NoYieldNoData(loads, attempt, passes + 1, retryCount + 1, retries);
      } else {
        assert Yield(attempt, loads[0]) == [];
        var rc := retryCount + (if attempt(loads[0]).None? then 1 else 0);
        NoYieldNoData(loads[1..], attempt, passes + 1, rc, retries);
      }
    }
  }

  /**
   * Loads whose class names resolve but whose scrape comes back empty do not count against the
   * budget: every one of them is made, and only the retries after the loads run out are bounded.
   */
  lemma {:induction false} EmptyScrapesAreNotRetries<L, R>(loads: seq<L>, attempt: L -> Option<seq<R>>, passes: nat, retryCount: nat, retries: nat)
    requires forall j :: 0 <= j < |loads| ==> attempt(loads[j]) == Some([])
    requires retryCount < retries
    ensures MainLoop(loads, attempt, [], passes, retryCount, retries) == Outcome([], passes + |loads| + (retries - retryCount), retries)
    decreases |loads|, retries - retryCount
  {
    if loads == [] {
      if retryCount + 1 < retries {
        EmptyScrapesAreNotRetries(loads, attempt, passes + 1, retryCount + 1, retries);
      }
    } else {
      assert attempt(loads[0]) == Some([]);
      EmptyScrapesAreNotRetries(loads[1..], attempt, passes + 1, retryCount, retries);
    }
  }

  /** The loop's data is empty or what one of its loads yielded. */
  lemma {:induction false} DataFromSomeLoad<L, R>(loads: seq<L>, attempt: L -> Option<seq<R>>, passes: nat, retryCount: nat, retries: nat)
    ensures var d := MainLoop(loads, attempt, [], passes, retryCount, retries).data;
      d == [] || exists i :: 0 <= i < |loads| && attempt(loads[i]) == Some(d)
    decreases |loads|, retries - retryCount
  {
    if retryCount < retries {
      if loads == [] {
        DataFromSomeLoad(loads, attempt, passes + 1, retryCount + 1, retries);
      } else {
        match attempt(loads[0])
        case None =>
          DataFromSomeLoad(loads[1..], attempt, passes + 1, retryCount + 1, retries);
          var d := MainLoop(loads, attempt, [], passes, retryCount, retries).data;
          if d != [] {
            var i :| 0 <= i < |loads[1..]| && attempt(loads[1..][i]) == Some(d);
            assert attempt(loads[i + 1]) == Some(d);
          }
        case Some(d0) =>
          if d0 == [] {
            DataFromSomeLoad(loads[1..], attempt, passes + 1, retryCount, retries);
            var d := MainLoop(loads, attempt, [], passes, retryCount, retries).data;
            if d != [] {
              var i :| 0 <= i < |loads[1..]| && attempt(loads[1..][i]) == Some(d);
              assert attempt(loads[i + 1]) == Some(d);
            }
          }
      }
    }
  }

  /** Lines 215-216: resolve the hashtag class, then scrape with the selector built from it. */
  function HashtagAttempt(l: HashtagLoad): Option<seq<string>> {
    match ResolveSelector(l.classAttrs, HashtagFragment)
    case None => None
    case Some(sel) => Some(Hashtags.Extracted(l.respond(sel), DefaultRetries))
  }

  /** Lines 248-253: resolve all three classes, then scrape with their selectors. */
  function MusicAttempt(l: MusicLoad): Option<seq<Music.MusicRecord>> {
    match (ResolveSelector(l.classAttrs, MusicFragment), ResolveSelector(l.classAttrs, AuthorFragment), ResolveSelector(l.classAttrs, GraphFragment))
    case (Some(m), Some(a), Some(g)) => Some(Music.Scraped(l.respond(m, a, g + " canvas"), DefaultRetries))
    case _ => None
  }

  function HarvestedHashtags(loads: seq<HashtagLoad>): Outcome<string> {
    MainLoop(loads, HashtagAttempt, [], 0, 0, DefaultRetries)
  }

  function HarvestedMusic(loads: seq<MusicLoad>): Outcome<Music.MusicRecord> {
    MainLoop(loads, MusicAttempt, [], 0, 0, DefaultRetries)
  }

  /**
   * The hashtags the main block ends with are distinct and at most 500: empty, or what
   * `extractHashtags` gave for the selector resolved from some load's markup.
   */
  lemma HarvestedHashtagsSpec(loads: seq<HashtagLoad>)
    ensures var d := HarvestedHashtags(loads).data;
      && (forall i, j :: 0 <= i < j < |d| ==> d[i] != d[j])
      && |d| <= Capacity
      && (d == [] || exists i, sel ::
            (0 <= i < |loads| && ResolveSelector(loads[i].classAttrs, HashtagFragment) == Some(sel)
             && d == Hashtags.Extracted(loads[i].respond(sel), DefaultRetries)))
  {
    var d := HarvestedHashtags(loads).data;
    DataFromSomeLoad(loads, HashtagAttempt, 0, 0, DefaultRetries);
    if d != [] {
      var i :| 0 <= i < |loads| && HashtagAttempt(loads[i]) == Some(d);
      var sel := ResolveSelector(loads[i].classAttrs, HashtagFragment).value;
      Hashtags.ExtractedSpec(loads[i].respond(sel), DefaultRetries);
    }
  }

  /** A load whose three classes resolve yields what `scrapeMusicAndGraphs` promises. */
  lemma MusicAttemptSpec(l: MusicLoad)
    ensures MusicAttempt(l).Some? ==>
      var d := MusicAttempt(l).value;
      && Seqs.UniqueBy(d, Music.RecordKey)
      && |d| <= Capacity
      && (forall m :: m in d ==> Music.WellFormed(m))
  {
    if MusicAttempt(l).Some? {
      var m := ResolveSelector(l.classAttrs, MusicFragment).value;
      var a := ResolveSelector(l.classAttrs, AuthorFragment).value;
      var g := ResolveSelector(l.classAttrs, GraphFragment).value;
      assert MusicAttempt(l).value == Music.Scraped(l.respond(m, a, g + " canvas"), DefaultRetries);
      Music.ScrapedSpec(l.respond(m, a, g + " canvas"), DefaultRetries);
    }
  }

  /**
   * The music records the main block ends with have distinct (title, author) keys, are at most
   * 500, carry seven readings in [0, 1] each, and come from one load whose three classes resolved.
   */
  lemma HarvestedMusicSpec(loads: seq<MusicLoad>)
    ensures var d := HarvestedMusic(loads).data;
      && Seqs.UniqueBy(d, Music.RecordKey)
      && |d| <= Capacity
      && (forall m :: m in d ==> Music.WellFormed(m))
      && (d == [] || exists i :: 0 <= i < |loads| && MusicAttempt(loads[i]) == Some(d))
  {
    var d := HarvestedMusic(loads).data;
    DataFromSomeLoad(loads, MusicAttempt, 0, 0, DefaultRetries);
    if d != [] {
      var i :| 0 <= i < |loads| && MusicAttempt(loads[i]) == Some(d);
      MusicAttemptSpec(loads[i]);
    }
  }

  /** Lines 211-216 for one load: resolve the hashtag class, then scrape with its selector. */
  method TryHashtagLoad(load: HashtagLoad) returns (result: Option<seq<string>>)
    ensures result == HashtagAttempt(load)
  {
    var hashtagClassNames := SearchDynamicClassNames(load.classAttrs, HashtagFragment);
    if |hashtagClassNames| > 0 {
      FirstClassNameIsFirstCapture(load.classAttrs, HashtagFragment);
      var hashtagClass := ClassSelector(hashtagClassNames[0]);
      var hashtagData := Hashtags.ExtractHashtags(load.respond(hashtagClass), DefaultRetries);
      result := Some(hashtagData);
    } else {
      result := None;
    }
  }

  /** Lines 240-253 for one load: resolve the three classes, then scrape with their selectors. */
  method TryMusicLoad(load: MusicLoad) returns (result: Option<seq<Music.MusicRecord>>)
    ensures result == MusicAttempt(load)
  {
    var musicClassNames := SearchDynamicClassNames(load.classAttrs, MusicFragment);
    var authorClassNames := SearchDynamicClassNames(load.classAttrs, AuthorFragment);
    var graphClassNames := SearchDynamicClassNames(load.classAttrs, GraphFragment);
    if |musicClassNames| > 0 && |authorClassNames| > 0 && |graphClassNames| > 0 {
      FirstClassNameIsFirstCapture(load.classAttrs, MusicFragment);
      FirstClassNameIsFirstCapture(load.classAttrs, AuthorFragment);
      FirstClassNameIsFirstCapture(load.classAttrs, GraphFragment);
      var musicClass := ClassSelector(musicClassNames[0]);
      var authorClass := ClassSelector(authorClassNames[0]);
      var graphClass := ClassSelector(graphClassNames[0]);
      var musicData := Music.ScrapeMusicAndGraphs(load.respond(musicClass, authorClass, graphClass + " canvas"), DefaultRetries);
      result := Some(musicData);
    } else {
      result := None;
    }
  }

  /**
   * The hashtag retry loop of the main block, with each navigation's behaviour given by `loads`;
   * once the loads run out, the markup holds no class names.
   */
  method HarvestHashtags(loads: seq<HashtagLoad>) returns (hashtagData: seq<string>)
    ensures hashtagData == HarvestedHashtags(loads).data
  {
    hashtagData := [];
    var retryCount: nat := 0;
    var rest := loads;
    ghost var passes: nat := 0;
    while hashtagData == [] && retryCount < DefaultRetries
      invariant MainLoop(rest, HashtagAttempt, hashtagData, passes, retryCount, DefaultRetries) == HarvestedHashtags(loads)
      decreases |rest|, DefaultRetries - retryCount
    {
      var attempt: Option<seq<string>> := None;
      if rest != [] {
        attempt := TryHashtagLoad(rest[0]);
      }
      if attempt.Some? {
        hashtagData := attempt.value;
      } else {
        retryCount := retryCount + 1;
      }
      rest := if rest == [] then [] else rest[1..];
      passes := passes + 1;
    }
  }

  /** The music retry loop of the main block, with each navigation's behaviour given by `loads`. */
  method HarvestMusic(loads: seq<MusicLoad>) returns (musicData: seq<Music.MusicRecord>)
    ensures musicData == HarvestedMusic(loads).data
  {
    musicData := [];
    var retryCount: nat := 0;
    var rest := loads;
    ghost var passes: nat := 0;
    while musicData == [] && retryCount < DefaultRetries
      invariant MainLoop(rest, MusicAttempt, musicData, passes, retryCount, DefaultRetries) == HarvestedMusic(loads)
      decreases |rest|, DefaultRetries - retryCount
    {
      var attempt: Option<seq<Music.MusicRecord>> := None;
      if rest != [] {
        attempt := TryMusicLoad(rest[0]);
      }
      if attempt.Some? {
        musicData := attempt.value;
      } else {
        retryCount := retryCount + 1;
      }
      rest := if rest == [] then [] else rest[1..];
      passes := passes + 1;
    }
  }
}
