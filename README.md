# TikTok trend pipeline, modelled in Dafny

The repository is a small Node.js pipeline with three steps:

- `scrape_1.js` opens TikTok's Creative Center in a visible (non-headless) Chromium window and collects four things:
  - the trending hashtags;
  - the trending songs, each with its title and author;
  - each song's popularity chart, read off the canvas it is drawn on as seven values in [0, 1].
  The scraper does not know the page's class names in advance. It finds them by searching the
  page source for `class="…"` attributes that contain a fixed fragment, such as `CardPc_titleText`.
- `distro_3.js` puts a Bing video search to every song not yet processed and records whether any returned video
  description mentions "DistroKid". It keeps a cache of processed queries and of their
  descriptions.
- `server.js` is an Express server with two jobs:
  - it upserts notes by title into a JSON file;
  - it runs the three scripts one after another, stopping at the first failure.

This project models the core of those steps and proves what they guarantee. Modules:

- `Text`: ECMAScript `trim`, `includes`, and `split`/`join` on one-character separators.
- `Seqs`: order-preserving deduplication by a key, `slice(0, n)`, and reversal in place.
- `SelectorResolver`: `searchDynamicClassNames` and the CSS selector built from its first result.
- `ChartDigitizer`: `extractGraphValues` on a raster of RGBA pixels.
- `Collection`: the shared shape of the two collection loops, meaning the page oracle, the loop
  state and the merge of one batch.
- `Hashtags` and `Music`: `extractHashtags` and `scrapeMusicAndGraphs`.
- `Harvest`: the two retry loops of the main block.
- `Distro`: `extractVideoDescriptions`, the query string, the DistroKid test and the cache.
- `Server`: the note upsert, the `NotesData` object the handler mutates, and `runScripts`.

How the outside world enters the model:

- A browser page is a sequence of observations. Each pass of a collection loop consumes one of
  them:
  - either the polling wait ran into its 10-second deadline;
  - or it shows a batch of elements (their text, and for songs the chart rasters), together with
    whether a "View More" button is present.
  
  A batch with no elements counts as a timeout, because the wait only ends early once an element
  is there. A page whose sequence is used up keeps timing out, so every loop of the model
  terminates. That termination belongs to the model: in the source, a page that keeps offering
  "View More" over items already collected keeps a collection loop going forever (see "## Left out").
- Each pass of a main-block retry loop sees one load of the page:
  - the `class` attribute values in its markup;
  - the page behaviour that the selectors resolved from them lead to.
- Bing is a function from query to response, and `exec` a predicate saying which scripts fail.

Each loop or in-place step of the source is a `method` proved equal to a specification function.
The function's properties are proved as lemmas.

## Model

| member | source | states |
|---|---|---|
| Text.Trim | scrape_1.js:86 | the result is the slice of the input between its leading and trailing ECMAScript whitespace; what is cut off is whitespace, and a non-empty result starts and ends with non-whitespace |
| Text.TrimAll | scrape_1.js:85-86 | one trimmed text per element, in element order |
| Text.Split | scrape_1.js:215 | `split` yields at least one piece and no piece contains the separator |
| Text.JoinSplitReplaces | scrape_1.js:215 | `split(' ').join('.')` is the same as replacing every space by a dot |
| Text.JoinSplitRoundTrip | scrape_1.js:215 | joining the pieces of a split with the same separator restores the string |
| Text.Join | scrape_1.js:215 | reference definition of `join` on a one-character separator; `JoinSplitReplaces` and `JoinSplitRoundTrip` relate it to `split` |
| Text.Replace | scrape_1.js:215 | the character-by-character replacement, independent of `split`/`join`, keeps the length |
| Seqs.DedupBy | scrape_1.js:21 | `[...new Set(…)]` keeps keys distinct, does not grow, keeps only input elements, and keeps every key of the input |
| Seqs.DedupByFirstOccurrences | scrape_1.js:21 | each kept element is the first occurrence of its key, and kept elements are in the order their keys first appear |
| Seqs.DedupByPrefix | scrape_1.js:87-88 | deduplicating a longer input only extends the deduplication of its prefix |
| Seqs.HasKeyIdIsIn | scrape_1.js:87 | `includes` on the identity key is sequence membership, in both directions |
| Seqs.UniqueByIdIsDistinct | scrape_1.js:87-88 | distinct identity keys means pairwise distinct elements, in both directions |
| Seqs.Take | scrape_1.js:109 | `slice(0, n)` is a prefix of length `min(length, n)` |
| Seqs.Reversed | scrape_1.js:56 | reference definition of the reversal; it keeps the length, and `ReversedAt` gives its elements |
| Seqs.TakeKeepsUnique | scrape_1.js:185 | cutting a list with distinct keys keeps them distinct |
| Seqs.ReversedAt | scrape_1.js:56 | position k of the reversal holds element `length-1-k` |
| Seqs.Reverse | scrape_1.js:56 | `values.reverse()` leaves the array holding the reversal of its old contents |
| SelectorResolver.Captures | scrape_1.js:20 | no more captures than attribute values, and exactly the values that contain the fragment; their order is stated by the next three rows |
| SelectorResolver.CapturesConcat | scrape_1.js:20 | the captures of two stretches of markup are the captures of the first followed by those of the second |
| SelectorResolver.CapturesSnoc | scrape_1.js:20 | each further attribute value adds its own capture, if it matches, after all earlier captures |
| SelectorResolver.FirstCaptureIsFirstMatch | scrape_1.js:20 | the first capture is the first attribute value in the markup that contains the fragment |
| SelectorResolver.SearchDynamicClassNames | scrape_1.js:18-23 | the class names are distinct, are exactly the matching attribute values, and are empty exactly when nothing matches |
| SelectorResolver.NoNamesIffNoMatch | scrape_1.js:21-22 | any list holding exactly the matching values is empty iff no attribute matches |
| SelectorResolver.ClassNamesInFirstMatchOrder | scrape_1.js:21 | each class name was captured, and the names keep the order of their first match |
| SelectorResolver.FirstClassNameIsFirstCapture | scrape_1.js:214-215 | `classNames[0]` is the first attribute value the pattern matched |
| SelectorResolver.ClassSelector | scrape_1.js:215 | the selector is one character longer than the name; it is a leading dot, then the name with every space turned into a dot |
| SelectorResolver.SplitReplaced | scrape_1.js:215 | for a name with no dot, splitting the dotted form on dots gives the same tokens as splitting the name on spaces |
| SelectorResolver.SelectorTokens | scrape_1.js:249-251 | for a class attribute without a `.` (required), the selector's classes, split on dots, are exactly the class tokens of the name |
| SelectorResolver.EmptyClassInSelector | scrape_1.js:215 | for a class attribute without a `.`, the selector has an empty class between dots or at its end exactly when the attribute has a leading, trailing or doubled space |
| SelectorResolver.DoubledSpaceScenario | scrape_1.js:215 | `"a  b"` gives the selector `".a..b"`, and the attribute is not well spaced |
| SelectorResolver.LeadingSpaceScenario | scrape_1.js:215 | `" a"` gives the selector `"..a"`, and the attribute is not well spaced |
| SelectorResolver.ResolveSelector | scrape_1.js:211-215 | no selector iff no attribute contains the fragment; otherwise the selector is built from the first match |
| SelectorResolver.ResolvesFirstMatch | scrape_1.js:211-215 | when attribute value i is the first one containing the fragment, the resolved selector is the class selector of value i |
| SelectorResolver.DuplicateAttributeScenario | scrape_1.js:21 | an attribute value that occurs twice gives one class name |
| ChartDigitizer.SampleColumn | scrape_1.js:39-40 | the sampled column is inside the image; it is `floor(i*width/6)` for the first six samples and the last column for the seventh |
| ChartDigitizer.SignalRows | scrape_1.js:41-47 | the red rows of a column are strictly ascending, inside the image, and are exactly the rows whose pixel passes the red test |
| ChartDigitizer.SignalRowsBelow | scrape_1.js:49 | the red rows above the k-th red row are the first k red rows |
| ChartDigitizer.ChosenRow | scrape_1.js:48-49 | there is no row iff the column has no red pixel; otherwise the row is red, inside the image, and has `floor(n/2)` of the n red rows above it |
| ChartDigitizer.ColumnValue | scrape_1.js:48-53 | the value is `1 - y/height` for the chosen row y, and 0 for a column without a red pixel; it is 0 iff the column has no red pixel, and otherwise lies in (0, 1] |
| ChartDigitizer.Normalized | scrape_1.js:50 | `1 - y/height` for a row inside the image, which lies in (0, 1] |
| ChartDigitizer.NormalizedInRange | scrape_1.js:50 | `1 - y/height` lies in (0, 1] for a row inside the image |
| ChartDigitizer.Columns | scrape_1.js:38-54 | seven values, the i-th taken at sample column i |
| ChartDigitizer.Digitize | scrape_1.js:56-57 | reference definition of the returned list, the column values reversed; its meaning is stated by `DigitizeSpec` |
| ChartDigitizer.DigitizeSpec | scrape_1.js:38-57 | seven values; position k holds the value of sample column 6-k: `1 - y/height` for that column's chosen row y, 0 without a red pixel; each value is 0 or lies in (0, 1] |
| ChartDigitizer.ScanColumn | scrape_1.js:41-47 | the inner loop collects exactly the red rows of the column, in ascending order |
| ChartDigitizer.SampleValue | scrape_1.js:39-53 | one pass of the outer loop yields the value of its sample column: `1 - y/height` of the chosen row, or 0 |
| ChartDigitizer.ExtractGraphValues | scrape_1.js:33-58 | the method returns the digitized chart: seven values, position k being `1 - y/height` for the chosen row of sample column 6-k, or 0 |
| ChartDigitizer.SignalRowsOfLine | scrape_1.js:41-47 | a chart with one red row has exactly that row as its red rows |
| ChartDigitizer.SingleSignalPixel | scrape_1.js:48-50 | a chart whose only red row is y reads `1 - y/height` in every column |
| ChartDigitizer.RowTenOfHundredScenario | scrape_1.js:50 | a red line at row 10 of a 100-row chart reads 0.9 |
| Collection.UniqueSnocHolds | scrape_1.js:87-88 | appending an element whose key is not held keeps keys distinct |
| Collection.UniqueSnoc | scrape_1.js:163-164 | the push guarded by the key test preserves distinct keys |
| Collection.MergeBatch | scrape_1.js:84-93 | merging a batch only extends the list, keeps its keys distinct, does not exceed the cap when started below it, and adds only batch elements |
| Collection.MergeIsDedup | scrape_1.js:163-167 | merge after merge is the first-seen deduplication of everything seen, cut at the cap (the cut may fall in mid-batch) |
| Collection.CapacityReached | scrape_1.js:89-90 | the merge stops at the cap in mid-batch |
| Collection.CapacityScenario | scrape_1.js:87-91 | a duplicate is dropped and the merge stops at the cap |
| Collection.MergeHeld | scrape_1.js:87-88 | a batch whose every key is already held leaves the list as it was |
| Hashtags.Batch | scrape_1.js:84-86 | reference definition: the trimmed texts of a visit that found elements, none for a timeout |
| Hashtags.Step | scrape_1.js:76-106 | reference definition of one pass: a timeout costs a retry; a batch is merged, and the loop stays open only with a "View More" button |
| Hashtags.Run | scrape_1.js:65-107 | reference definition of the outer loop, run until fewer than 10 hashtags, retries left and no `break` no longer all hold; `RunTrace`, `RunStops` and `ExtractedSpec` state what it computes |
| Hashtags.Extracted | scrape_1.js:61-110 | reference definition of the returned list, the run's hashtags cut at 500; `ExtractedSpec` states its meaning |
| Hashtags.TracedEmpty | scrape_1.js:62-63 | before any visit the state is the deduplication of what was seen, with no timeouts |
| Hashtags.TracedCons | scrape_1.js:65-107 | a trace of the page after its first visit is extended to a trace of the whole page |
| Hashtags.RetryStep | scrape_1.js:76-82 | a timed-out visit keeps the hashtags and costs exactly one retry in the trace |
| Hashtags.StopStep | scrape_1.js:95-106 | a pass that leaves the loop after one visit is traced by that visit |
| Hashtags.RunTrace | scrape_1.js:65-107 | the loop's final hashtags are the deduplicated trimmed texts of some prefix of the visits, cut at 500, and its retry count is the start plus the prefix's timeouts, or more once the page is used up |
| Hashtags.RunStops | scrape_1.js:65 | when the loop ends it holds at least 10 hashtags, has used its retries, or left by `break` |
| Hashtags.NoViewMoreEnds | scrape_1.js:95-106 | a batch without a "View More" button is merged and ends the loop |
| Hashtags.StaleStep | scrape_1.js:84-99 | a visit showing only held hashtags, with "View More" present, changes nothing: no hashtag, no retry, and the loop stays open |
| Hashtags.StaleVisitsChangeNothing | scrape_1.js:65-107 | any number of such visits are passed without progress, leaving the loop as it started, so a page that keeps offering them keeps the loop going |
| Hashtags.ExtractedSpec | scrape_1.js:61-110 | the result is pairwise distinct, at most 500 long, and the first-seen deduplication of the trimmed texts of some prefix of the visits |
| Hashtags.RetryBudgetScenario | scrape_1.js:76-82 | three timeouts with three retries give no hashtags |
| Hashtags.MergeTexts | scrape_1.js:84-93 | the inner `for` loop computes the merge of the batch |
| Hashtags.ExtractHashtags | scrape_1.js:61-110 | the loop computes the specified extraction for every page and retry budget |
| Music.Records | scrape_1.js:148-162 | one record per position, holding the trimmed title, the trimmed author and the digitized chart; each record is well formed |
| Music.Batch | scrape_1.js:139-162 | reference definition: the records of a found, aligned scan, none otherwise |
| Music.Step | scrape_1.js:131-182 | reference definition of one pass: a timeout costs a retry, lists of different lengths end the scrape, and a batch is merged, the loop staying open only with "View More" |
| Music.Run | scrape_1.js:117-183 | reference definition of the outer loop, run until fewer than 500 records, retries left and no `break`/`return` no longer all hold; `RunTrace` and `ScrapedSpec` state what it computes |
| Music.Scraped | scrape_1.js:113-186 | reference definition of the returned list, the run's records cut at 500; `ScrapedSpec` states its meaning |
| Music.TracedEmpty | scrape_1.js:114-115 | before any scan the state is the deduplication of what was seen, with no timeouts |
| Music.TracedCons | scrape_1.js:117-183 | a trace of the page after its first scan is extended to a trace of the whole page |
| Music.RetryStep | scrape_1.js:131-137 | a timed-out scan keeps the records and costs exactly one retry in the trace |
| Music.StopStep | scrape_1.js:143-146 | a pass that leaves the loop after one scan is traced by that scan |
| Music.RunTrace | scrape_1.js:117-183 | the final records are the deduplication, by title and author, of the records of some prefix of the scans, cut at 500 |
| Music.RunWellFormed | scrape_1.js:148-169 | every collected record has seven chart values in [0, 1] |
| Music.MismatchKeepsCollected | scrape_1.js:143-146 | lists of different lengths end the scrape and keep exactly what was collected |
| Music.StaleStep | scrape_1.js:139-175 | a scan of songs all held already, with "View More" present, changes nothing: no record, no retry, and the loop stays open |
| Music.StaleScansChangeNothing | scrape_1.js:117-183 | any number of such scans are passed without progress, leaving the loop as it started |
| Music.ScrapedSpec | scrape_1.js:113-186 | the result has distinct (title, author) pairs, is at most 500 long, holds well-formed records, and is the deduplication of some prefix of the scans |
| Music.HasKeyByFields | scrape_1.js:163 | the `some` test on title and author is the key test on the record key, in both directions |
| Music.MergeScan | scrape_1.js:148-169 | the inner `for` loop computes the merge of the batch's records |
| Music.ScrapeMusicAndGraphs | scrape_1.js:113-186 | the loop computes the specified scrape for every page and retry budget |
| Harvest.MainLoop | scrape_1.js:207-224 | reference definition of a main-block retry loop: a load whose class names do not resolve costs a retry, and the loop ends with the first non-empty data |
| Harvest.FirstYieldWins | scrape_1.js:207-224 | the first load whose scrape yields data ends the loop with that data, provided the unresolved loads before it did not use up the retries |
| Harvest.NoYieldNoData | scrape_1.js:207-224 | when no load yields data, the loop ends with none |
| Harvest.EmptyScrapesAreNotRetries | scrape_1.js:207-224 | an empty scrape does not count against the retries: every load is tried, then the whole retry budget is spent on the used-up page |
| Harvest.DataFromSomeLoad | scrape_1.js:236-263 | the data is empty or exactly what one load's attempt returned |
| Harvest.HashtagAttempt | scrape_1.js:211-217 | reference definition of one hashtag pass: resolve the selector and extract with it, or fail when nothing matches |
| Harvest.MusicAttempt | scrape_1.js:240-256 | reference definition of one music pass: resolve all three selectors, add ` canvas` to the chart selector and scrape, or fail |
| Harvest.HarvestedHashtags | scrape_1.js:204-224 | reference definition of the hashtag retry loop with a budget of 3 |
| Harvest.HarvestedMusic | scrape_1.js:233-263 | reference definition of the music retry loop with a budget of 3 |
| Harvest.HarvestedHashtagsSpec | scrape_1.js:204-224 | the hashtags saved are distinct and at most 500; they are empty, or the extraction with the selector resolved from some load's markup |
| Harvest.MusicAttemptSpec | scrape_1.js:244-256 | a resolved attempt gives distinct (title, author) pairs, at most 500 records, each well formed |
| Harvest.HarvestedMusicSpec | scrape_1.js:233-263 | the songs saved have distinct (title, author) pairs and are at most 500 well-formed records, empty or the scrape from some load |
| Harvest.TryHashtagLoad | scrape_1.js:211-217 | one pass resolves the hashtag selector and scrapes with it, or reports that no class name matched |
| Harvest.TryMusicLoad | scrape_1.js:240-256 | one pass resolves all three selectors, adds ` canvas` to the chart selector and scrapes, or reports a failure |
| Harvest.HarvestHashtags | scrape_1.js:204-224 | the hashtag retry loop computes the specified outcome |
| Harvest.HarvestMusic | scrape_1.js:233-263 | the music retry loop computes the specified outcome |
| Distro.TrimmedUntilMissing | distro_3.js:28-31 | no more descriptions than videos |
| Distro.TrimmedPrefix | distro_3.js:24-36 | the descriptions are the trimmed descriptions of the videos in order; they stop at the first video without a description, whose `TypeError` is caught |
| Distro.Descriptions | distro_3.js:27 | a response without `value` gives no descriptions |
| Distro.AllDescribedAllReturned | distro_3.js:28-31 | when every video has a description, all of them come back trimmed, one per video |
| Distro.TrimmedExtends | distro_3.js:28-30 | pushing one trimmed description keeps the collected list a prefix of the final one |
| Distro.ExtractVideoDescriptions | distro_3.js:24-36 | the loop returns the specified descriptions |
| Distro.MentionsDistroKid | distro_3.js:64 | true iff some description contains "DistroKid" |
| Distro.Query | distro_3.js:51 | the query is the title, a space, the author, then " Topic site:youtube.com" |
| Distro.SpacelessTitlesKeepQueriesApart | distro_3.js:51 | two titles without spaces that give the same query have the same title and author |
| Distro.FirstSpaceEndsTitle | distro_3.js:51 | a spaceless title that prefixes a query is no longer than the query's title |
| Distro.QueriesCollide | distro_3.js:51 | different songs can share a query, and so share a cache entry: ("a b", "c") and ("a", "b c") |
| Distro.FromEntries | distro_3.js:47 | the dictionary's keys are exactly the logged queries |
| Distro.FromEntriesLastWins | distro_3.js:47 | for a repeated query, the dictionary holds the descriptions of its last entry |
| Distro.Loaded | distro_3.js:43-47 | the loaded dictionary is built from the loaded log |
| Distro.Cached | distro_3.js:54 | reference definition of the cached descriptions of a query, or none when the dictionary lacks it |
| Distro.Refresh | distro_3.js:56-61 | a search marks the query processed, appends one log entry and caches its descriptions, keeping the dictionary built from the log; other queries are unchanged |
| Distro.Visit | distro_3.js:51-71 | one song gives a result with its own title and author and with the DistroKid test of its query's cached descriptions; a processed query leaves the cache alone, and a new one is refreshed |
| Distro.ProcessAll | distro_3.js:50-72 | reference definition of the corrected song loop, one `Visit` per song; `ResultsFollowSongs`, `ProcessedFlags` and `LogGrowth` state its meaning |
| Distro.ProcessedStaysPut | distro_3.js:52-54 | a processed query keeps its flag and its cached descriptions through later songs |
| Distro.ResultForStays | distro_3.js:52-54 | a result that agrees with the cache still agrees after later songs |
| Distro.ResultsFollowSongs | distro_3.js:50-72 | one result per song, in song order; each result's flag is the DistroKid test of that song's query, and the query is processed at the end |
| Distro.ResultsCons | distro_3.js:71 | results that agree position by position stay that way after each push |
| Distro.DictAgreesWithLog | distro_3.js:59-60 | the dictionary stays the dictionary built from the log |
| Distro.ProcessedFlags | distro_3.js:61 | afterwards the processed queries are exactly the earlier ones plus the songs' queries; flags of other queries are unchanged |
| Distro.LogExtends | distro_3.js:59 | the log is only appended to |
| Distro.VisitLog | distro_3.js:52-61 | a cached song leaves the log alone; a new one appends exactly one entry for its query |
| Distro.LogNewUnprocessed | distro_3.js:55-59 | every new log entry is for a song's query that was not processed before |
| Distro.LogNewDistinct | distro_3.js:52-59 | no query is searched twice in one run |
| Distro.LogGrowth | distro_3.js:50-72 | the log is extended by distinct entries, only for songs' queries that were not processed before |
| Distro.ProcessSongs | distro_3.js:47-72 | the song loop computes the specified results, flags, dictionary and log from the loaded files |
| Distro.ProcessAllAsWritten | distro_3.js:50-72 | reference definition of the song loop as written, reading the flag from the global `descriptions`; the next three rows state what it does |
| Distro.AsWrittenFreshFirstSongThrows | distro_3.js:54-64 | as written, a first song that is not cached throws a `ReferenceError` |
| Distro.AsWrittenAgreesWhenAllCached | distro_3.js:52-64 | as written, the flags are right when every song is cached, and the cache is unchanged |
| Distro.AsWrittenStaleFlag | distro_3.js:54-64 | as written, a new song after a cached DistroKid song is wrongly flagged; the corrected loop does not flag it |
| Server.FindTitle | server.js:43 | no index iff no note has the title; otherwise the first note with that title |
| Server.Upsert | server.js:43-48 | reference definition of one save: update the first note with the title, or append a new one; the next rows state its meaning |
| Server.UpsertReplacesFirst | server.js:43-45 | with a matching note, only the first one changes, to the new content; the length is unchanged |
| Server.UpsertAppends | server.js:46-47 | without a matching note, exactly one note is appended |
| Server.UpsertThenFind | server.js:43-48 | after saving, finding the title gives the saved note |
| Server.FindTitleByOccurrences | server.js:43 | two lists with the same positions for a title give the same first match |
| Server.UpsertKeepsOtherTitles | server.js:43-48 | saving one title changes neither the position nor the content of any other title's first note |
| Server.UpsertLastWriteWins | server.js:43-48 | saving a title twice is the same as saving only the second content |
| Server.UpsertIdempotent | server.js:43-48 | saving the same note twice is the same as saving it once |
| Server.NotesData.Empty | server.js:37 | the default object holds no notes |
| Server.NotesData.Parsed | server.js:39-41 | the parsed object holds the notes read from the file |
| Server.NotesData.Save | server.js:43-48 | the notes become the upsert of the old notes |
| Server.SaveNote | server.js:34-52 | the file written is the upsert of the stored notes, or of none when there is no file; the reply is the success message |
| Server.FirstFailure | server.js:58-65 | no index iff no script fails; otherwise the first failing script |
| Server.Started | server.js:58-70 | reference definition of the scripts started: all of them, or those up to and including the first failure |
| Server.Outcome | server.js:62-72 | reference definition of the reply: 500 naming the first failing script, or 200 with the success message |
| Server.StartedInOrder | server.js:55-77 | scripts start in list order and never past a failure; the answer is 200 iff all ran without failure, and 500 iff the last started one failed |
| Server.ScrapeFailureStopsPipeline | server.js:81-87 | a failing scraper stops the pipeline before the other two steps, with a 500 naming it |
| Server.RunScripts | server.js:55-77 | the `next` chain starts the specified scripts and sends the specified reply |
| Server.RunScript | server.js:80-88 | the endpoint runs the three pipeline scripts in order |

## Left out

- The browser session (Puppeteer launch, `goto`, `reload`, clicking, waiting) is not modelled. A page is the sequence of observations described above.
- The polling loops are not modelled as loops: the deadlines of 10, 5 and 2 seconds are modelled only by their outcome, a wait that timed out or ended with elements; `Date.now` and `setTimeout` are not modelled.
- The second `page.$$` query after a successful wait (scrape_1.js:84, 139-141) is taken to see the same elements the wait saw. The model does not capture a page that changes between the two queries.
- The `page.content()` markup is reduced to its list of `class` attribute values. The regular expression `class="([^"]*Fragment[^"]*)"` is modelled as "the attribute value contains the fragment"; this agrees with the pattern on attribute values without quotes.
- `decodeBase64Image`, `canvas.toDataURL` and the PNG codec are not modelled. A chart is given as its raster of RGBA pixels.
- Floating point is not modelled: chart values are exact reals, and `Math.floor(i * (width / 6))` is the exact `floor(i*width/6)`. The two might differ by rounding of `width / 6`.
- JavaScript strings are UTF-16 code-unit sequences; here they are sequences of Dafny characters.
- `saveToJson`, `saveData`, `readJSONFile`, `ensureFilesExist`, every file read and write, JSON serialization and `console.log` output are not modelled.
- In server.js:40, a malformed notes file makes `JSON.parse` throw; that throw is not modelled. The loader of distro_3.js:88-96 catches the same throw and falls back to an empty value (`{}` for a missing file, `[]` otherwise); the arbitrary starting cache of the model covers that.
- `features_2.js` is not part of this model.
- `Distro.SongResult` holds title, author and flag. The `...song.features` spread of distro_3.js:69 is not modelled.
- `performBingVideoSearch` (axios, the API key, the `count: 5` parameter) is a function parameter. Its `{}` on error is a response without `value`.
- `Distro.TrimmedUntilMissing`: a video without a string `description` throws a `TypeError` inside `forEach`; the catch keeps what was pushed. The model represents a missing description as `None`. It does not model other exceptions. The loop's stopping point is stated in `Distro.TrimmedPrefix`.
- `Distro.ProcessSongs` models the corrected song loop; the loop as written is `Distro.ProcessAllAsWritten` (see Findings).
- Notes carry a title and a content. Any other fields of a stored note are not modelled.
- A stored file whose object lacks a `notes` array makes the handler throw; that case is not modelled.
- Express routing, static files, `sendFile` and the JSON response object are not modelled. A reply is a status and a message.
- `exec` and child processes are modelled only as a predicate on script names saying which ones fail. Their output is not modelled, and neither is the asynchronous callback chain; the model keeps only its order.
- `Hashtags.Run`, `Music.Run`: the source does not terminate on a page that keeps offering "View More" while showing only items already collected: the wait succeeds, so no retry is spent, and the count never reaches 10 (scrape_1.js:65) or 500 (scrape_1.js:117). The model's page is a finite sequence, so its loops end once the sequence is used up; `Hashtags.StaleVisitsChangeNothing` and `Music.StaleScansChangeNothing` state that such visits make no progress.
- `SelectorResolver.ClassSelector`: a class attribute with a leading, trailing or doubled space, or a `.` next to a space or at its end, gives an invalid selector such as `".a..b"`, on which `page.$$` throws (scrape_1.js:70, 122-124) and the script stops. The model does not model that throw: the scrape continues as if the selector matched nothing. `SelectorResolver.WellSpaced` and `SelectorResolver.EmptyClassInSelector` name the inputs concerned. A `.` inside a token, as in `"a.b"`, gives the valid selector `".a.b"`, which means a different pair of classes; the model's selector string is the same, but what the page then matches is not modelled.
- `Harvest.EmptyScrapesAreNotRetries`: in the source, when class names resolve but the scrape returns nothing, the loop navigates again without spending a retry, and can repeat forever. The model gives the main block a finite list of loads; once they are used up, later passes see markup without matches. The lemma states exactly how many passes that takes.

## Findings

| source | as written | input that shows it | evidently intended | confidence | as-written member | corrected member |
|---|---|---|---|---|---|---|
| distro_3.js:54-64 | Line 54 assigns `descriptions` without a declaration, creating an implicit global. Line 58 declares a block-scoped `const descriptions`, which line 64 cannot see; line 64 reads the global. | In the first input (Distro.AsWrittenFreshFirstSongThrows), the first song is not yet processed: no global exists, so line 64 throws a `ReferenceError`. In the second (Distro.AsWrittenStaleFlag), songs (A, B) and (C, D) arrive with only "A B …" cached and mentioning DistroKid: song C gets the stale `true` left by song A. | The DistroKid flag is computed from the descriptions of the song's own query. | not executed | Distro.ProcessAllAsWritten | Distro.ProcessSongs |
