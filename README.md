# second-chance, modelled in Dafny

second-chance ranks methods from the research literature by the "second
chance" they get. A paper that presents method M compares it with other
methods in its result tables. Those competitors, in the order the paper
ranks them, earn credit for coming second, third and so on. This project
models that pipeline's core and proves properties of it:

- **content.py** (`content.dfy`, module `Content`): `extract_tables_and_legends`.
  - The blocks of every page are sorted top to bottom.
  - A block whose stripped text is a table caption (`Table 3:` …) starts a table.
  - The table grows downward, then upward, over unused non-empty blocks
    closer than `distance` to the caption.
  - With `cut`, the scan stops at the first back-matter heading
    (references, appendix, …).
  - The imperative method `ExtractTablesAndLegends` keeps the Python code's
    loops and its `used_indices` set. It is proved equal to a recursive
    reference, `Extract`, whose shape is then proved lemma by lemma.
- **ranking.py** (`ranking.dfy`, module `Ranking`):
  - `Cache` is a class over a modelled cache directory (`CacheDir`, a map
    from file name to stored entry).
  - `PaperRanking` is a class whose `ExtractBenchmarks` updates its fields
    and the cache. The language-model gateway (`get_benchmarks`) is a
    function parameter.
  - `GetRanking` turns benchmarks into rank entries, starting at rank 2.
  - `GetRankings` gathers every paper's entries into records
    (paper, year, method, rank).
- **score.py** (`score.dfy`, module `Score`):
  - the rank weight and the time weight;
  - `compute_score`, as the method `ComputeScore` with the Python code's nested
    year and rank loops.
  - Each method's loop sums are proved equal to a record-by-record sum of
    weighted credit, `Total`. The scores are specified by `Scores` and
    proved bounded, named and ordered.
- **Python string operations** (`text.dfy`, module `Text`): `strip`,
  `lower`, `in`, `replace` and `join`, as used by the three files.

Modelling choices:
- A pandas table is a sequence of `Record`s.
- A dictionary of benchmarks is a sequence of named method lists, in insertion order.
- Floats are `real`s.
- An exception is the `Raised` case of `Outcome`, carrying the Python
  exception's class and message.
- Default arguments are not modelled. Every caller passes every argument;
  the Python code's defaults are `k = 2`, `min_count = 4`, `eps = 1e-6` and
  `num_comparisons = 4`.

Behaviour of the code that the model keeps:
- The wide second extraction pass (ranking.py:53-56) runs only after an
  EMPTY reply from the cheap pass. An exception from the gateway, such as
  an exceeded cost ceiling, is not retried: it ends `extract_benchmarks`
  at once (`GatewayFailurePropagates`).
- The back-matter pattern (content.py:26) matches "acknowledgement" and
  "acknowledgments" but not "acknowledgements" or "acknowledgment"
  (`AcknowledgementSpellings`).
- `get_rankings` with no record at all builds a table without a `method`
  column, so line 99 raises `KeyError` (`RankingsOf`, `RankingsOutcome`).
- With `eps > 0`, as with the default `1e-6`, no division in
  `compute_score` fails and every score lies in [0, 1) (`Scores`,
  `ScoresBounded`). The case `eps <= 0` is under "## Left out".

## Model

| member | source | states |
|---|---|---|
| Text.Lower | ranking.py:10 | the lowered string has the same length and each character is lowered on its own (ASCII letters only) |
| Text.StripIsTrim | content.py:23 | `strip` returns a slice with only whitespace outside it, and the slice neither starts nor ends with whitespace |
| Text.LeadingSpacesRun | content.py:23 | the whitespace counted at the front is the longest leading whitespace run |
| Text.TrailingSpacesRun | content.py:23 | the whitespace counted at the back is the longest trailing whitespace run |
| Text.Strip | content.py:23 | the stripped text is no longer than the original and neither starts nor ends with whitespace |
| Text.Join | content.py:55-57 | joining no parts gives the empty string, one part gives the part itself, and a join begins with its first part |
| Text.JoinSnoc | content.py:55-57 | one more part is added behind a separator, after the earlier parts' join |
| Text.Contains | ranking.py:69 | the empty needle and the whole text are always contained, and a contained needle is no longer than the text |
| Text.ContainsOccurs | ranking.py:69 | Python's substring test holds exactly when the needle occurs at some index |
| Text.ReplaceChar | ranking.py:10 | replacing one character by another keeps the length, changes exactly the matching positions, and leaves none of the replaced character when the two differ |
| Text.ReplaceCharAppend | ranking.py:10 | replacing commutes with concatenation, so the other characters keep their order |
| Text.RemoveChar | ranking.py:99 | removing a character leaves no occurrence of it and keeps every other character |
| Text.RemoveCharAppend | ranking.py:99 | removing a character commutes with concatenation, so the other characters keep their order |
| Text.RemoveCharIdempotent | ranking.py:99 | removing the spaces a second time changes nothing |
| Content.SortByY | content.py:20 | the blocks come out ordered by their top coordinate and are a permutation of the page's blocks |
| Content.InsertByYSorted | content.py:20 | inserting a block into a top-to-bottom order keeps it ordered |
| Content.RowOf | content.py:23-29 | each block keeps its top; the caption and back-matter tests read its stripped text, which neither starts nor ends with whitespace, and a caption or heading is never empty |
| Content.IsCaption | content.py:29 | a caption starts with `T` and has at least seven characters (word, digit, separator) |
| Content.DigitRunIsLongest | content.py:29 | the `\d+` of the caption pattern consumes the longest run of digits |
| Content.CaptionPatternExact | content.py:29 | a text is a caption exactly when it splits as `Table`/`TABLE`, whitespace, digits and a `:`, `.` or whitespace separator |
| Content.IsBackMatter | content.py:26 | a back-matter text holds, after its leading whitespace, at least a heading's eight characters |
| Content.GreedyHeadingExact | content.py:26 | the greedy heading test accepts exactly the texts where some split of `supplementary\s+material` or a plain heading matches |
| Content.BackMatterPatternExact | content.py:26 | a lowered text is back matter exactly when some leading whitespace run followed by a heading and a word boundary matches it |
| Content.AcknowledgementSpellings | content.py:26 | the back-matter pattern accepts "acknowledgement" and "acknowledgments" and rejects "acknowledgements" and "acknowledgment" |
| Content.Below | content.py:34-42 | the forward scan from `j` lists only indices of the page at or after `j` |
| Content.BelowTakes | content.py:34-42 | the downward scan takes, in increasing order, only unused non-empty blocks closer than `distance` below the caption |
| Content.BelowIsWindow | content.py:34-42 | the downward scan takes every unused block of a contiguous window and stops at a block that is unused but too far or empty |
| Content.Above | content.py:45-53 | the backward scan below `n` lists only indices before `n` |
| Content.AboveTakes | content.py:45-53 | the upward scan takes only unused non-empty blocks closer than `distance` above the caption |
| Content.AboveIsWindow | content.py:45-53 | the upward scan takes every unused block of a contiguous window and stops at a block that is unused but too far or empty |
| Content.GrowRegion | content.py:29-53 | a table contains its caption and only blocks of the page |
| Content.RegionTakes | content.py:29-53 | a table is in page order, uses no block another table took apart from its own caption, and its other blocks join from below or above within `distance` |
| Content.RegionShape | content.py:29-53 | a table is the unused blocks of one window around its caption, and the block on each side of the window stops the growth |
| Content.LoneCaption | content.py:29-55 | a caption whose adjacent blocks are unused and do not join becomes a table of its own text alone |
| Content.ForwardIgnoresBackMatter | content.py:34-42 | the downward scan takes a close block even if it reads like a back-matter heading |
| Content.FirstBackMatter | content.py:26-27 | the cut point is the first back-matter heading from the scan position, or the page's end |
| Content.PageRows | content.py:18-20 | each page gives as many rows as it has blocks, ordered from top to bottom |
| Content.PageRowsPermute | content.py:18-23 | a page's rows are exactly the rows of its own blocks, each block once: the sort only reorders them |
| Content.Tables | content.py:18-55 | the document yields at most one table per caption, and exactly one per caption without `cut` |
| Content.Extract | content.py:15-57 | the extracted text neither starts nor ends with whitespace |
| Content.ScanPage | content.py:22-55 | without `cut`, a page scan never stops the document |
| Content.ScanPageSeeds | content.py:22-31 | a page yields one table per caption before the cut point, in page order, and stops the document exactly when a back-matter heading is reached |
| Content.ScanPageRegion | content.py:29-53 | each table of a page starts at a caption, contains it, and holds no block that was used before it apart from that caption |
| Content.ScanPageExclusive | content.py:31-51 | no block belongs to two tables, except a later table's own caption |
| Content.CutIsPrefix | content.py:26-27 | with `cut` a page's tables are a prefix of those without, and the same when no heading is reached |
| Content.TablesNoCutAppend | content.py:18-55 | without `cut` the tables of two documents laid end to end are the tables of each |
| Content.TablesCutPrefix | content.py:15-57 | cutting at back matter keeps a prefix of the tables found without it |
| Content.TablesStopAt | content.py:26-27 | pages after the page that reaches back matter contribute nothing |
| Content.NoCaptionNoTables | content.py:29 | pages without a caption yield no table |
| Content.NoCaptionEmpty | content.py:15-57 | a document without a caption extracts to the empty string |
| Content.TakeBelowIsBelow | content.py:34-42 | the downward loop adds the taken blocks to the used set and their texts to the table |
| Content.TakeAboveIsAbove | content.py:45-53 | the upward loop adds the taken blocks to the used set and their texts to the front of the table |
| Content.GrowTextIsRegion | content.py:29-55 | growing a table marks its blocks used and lists their texts in page order |
| Content.ScanFromIsScanPage | content.py:22-55 | the page loop appends one text per table and reports whether it reached back matter |
| Content.CollectBelow | content.py:34-42 | the downward loop's used set and table are those of the reference scan |
| Content.CollectAbove | content.py:45-53 | the upward loop's used set and table are those of the reference scan |
| Content.GrowTable | content.py:29-55 | the caption's table is the reference table and marks exactly its blocks used |
| Content.ScanBlocks | content.py:18-55 | one page's table texts and stop flag are those of the reference page scan |
| Content.ExtractTablesAndLegends | content.py:15-57 | the extracted text is the reference extraction of the document for the given `cut` and `distance` |
| Ranking.CacheKey | ranking.py:10 | the cache key has the method's length, no space and no upper-case letter |
| Ranking.CacheKeyCollides | ranking.py:10-11 | two methods share a cache file exactly when they agree character by character after lowering and replacing spaces |
| Ranking.CacheKeyIdempotent | ranking.py:10 | normalising a cache key again changes nothing |
| Ranking.Cache.constructor | ranking.py:9-12 | a method's cache lives at `.cache/<key>.json` in the given directory |
| Ranking.Cache.IsCached | ranking.py:14-15 | a method counts as cached exactly when its file is in the cache directory; `DumpCache` makes it hold and `LoadCache` succeeds exactly when it holds |
| Ranking.Cache.LoadCache | ranking.py:27-30 | loading succeeds exactly when the file exists, returns what was stored, and otherwise raises FileNotFoundError |
| Ranking.DumpLoadRoundTrip | ranking.py:17-30 | a cache entry written and then read back is the entry written |
| Ranking.Cache.DumpCache | ranking.py:17-25 | dumping overwrites this method's file with the benchmarks, cost and mode, leaves other files unchanged, and makes the method cached |
| Ranking.PassRequests | ranking.py:49-56 | the cheap pass sends the document cut at back matter with distance 400, a 0.01 dollar ceiling and 300 output tokens; the wide pass the uncut document with distance 600, 0.02 dollars and 500 tokens |
| Ranking.Extraction | ranking.py:44-61 | a cached entry is returned as it is; a fresh extraction that succeeds always has benchmarks |
| Ranking.CacheHitNoExtraction | ranking.py:44-47 | with a cache file the outcome is the cached entry, whatever the document or gateway |
| Ranking.ExtractionPasses | ranking.py:49-59 | a successful extraction has benchmarks; it is simple exactly when the cheap pass found some, and then the wide pass is not consulted |
| Ranking.GatewayFailurePropagates | ranking.py:50-56 | an exception from the cheap pass is raised without trying the wide pass |
| Ranking.BothPassesEmpty | ranking.py:53-59 | two empty passes raise ValueError naming the method |
| Ranking.PaperRanking.constructor | ranking.py:34-41 | a new paper holds its arguments and its method's cache |
| Ranking.PaperRanking.ExtractBenchmarks | ranking.py:44-61 | the paper's fields and the cache directory end as the extraction outcome says; the cache is written only after a fresh successful extraction |
| Ranking.NewPaperRanking | ranking.py:34-42 | building a paper succeeds exactly when extraction does, and it then carries the extracted benchmarks, cost and mode |
| Ranking.Keep | ranking.py:69 | a competitor named like the paper's method (ignoring case) is never kept, and with an empty method name nothing is |
| Ranking.Survivors | ranking.py:69 | the survivors are no more than the competitors, each one of them and each kept by the filter |
| Ranking.SurvivorsExact | ranking.py:69 | a competitor is kept exactly when its lowered name neither contains the paper's lowered method nor equals "ours" |
| Ranking.SurvivorsAppend | ranking.py:69 | filtering keeps the order of the competitors |
| Ranking.RankedAt | ranking.py:70-71 | the k-th kept competitor gets rank k+2 |
| Ranking.RankingOfAppend | ranking.py:67-71 | the ranking of several benchmarks is the rankings of each, in order |
| Ranking.OneBenchmark | ranking.py:68-71 | within one benchmark the k-th surviving competitor is ranked k+2 |
| Ranking.RankingOf | ranking.py:67-71 | a paper has exactly as many entries as surviving competitors over all its benchmarks |
| Ranking.RankingOfEntries | ranking.py:67-73 | a paper has one entry per surviving competitor, each ranked at least 2 and passing the filter |
| Ranking.PaperRanking.GetRanking | ranking.py:63-73 | without benchmarks it raises ValueError, otherwise it returns the benchmark-by-benchmark ranking |
| Ranking.YearOf | ranking.py:93 | the year column never holds 0, and a paper reads as undated (-1) exactly when it has no year, year 0 or year -1 |
| Score.UndatedFullWeight | score.py:10-12 | a paper without a year, or dated 0, is tagged -1 and weighs as much as a current paper |
| Ranking.TaggedAt | ranking.py:90-96 | each entry becomes a record with the paper's method and year and the entry's method and rank |
| Ranking.RemoveSpaces | ranking.py:99 | the method column loses every space and nothing else changes |
| Ranking.Collected | ranking.py:87-96 | gathering can only fail with the "No benchmarks found for this paper" ValueError |
| Ranking.RankingsOf | ranking.py:87-100 | `get_rankings` fails only with that ValueError or KeyError('method'), and otherwise returns a non-empty table of space-free method names |
| Ranking.CollectedOk | ranking.py:87-96 | gathering raises exactly when some paper has no benchmarks |
| Ranking.CollectedCount | ranking.py:87-96 | gathering yields one record per surviving competitor, each ranked at least 2 |
| Ranking.RankingsOutcome | ranking.py:87-100 | `get_rankings` succeeds exactly when every paper has benchmarks and some record exists, and then every method is space-free and ranked at least 2 |
| Ranking.TagEntries | ranking.py:90-96 | the inner loop tags each of a paper's entries in order |
| Ranking.GetRankings | ranking.py:87-100 | the result is the rankings table of the papers' current state, or the exception raised |
| Score.RankWeight | score.py:6-7 | the rank weight is 1 at rank 2, in [0, 1] from rank 2 on, positive for ranks 2-11 and 0 from rank 12 |
| Score.RankWeightStep | score.py:6-7 | between ranks 2 and 12 each place down costs exactly 0.1 |
| Score.TimeWeight | score.py:10-14 | an undated paper weighs 1, a current one 1, a past one at most 1, and one ten or more years old 0; never negative |
| Score.TimeWeightStep | score.py:14 | within ten years of the current year, each year further back costs exactly 0.1 |
| Score.ScoreWeights | score.py:6-14 | the weights `compute_score` applies are never negative, and the rank weight is at most 1 from rank 2 on |
| Score.Unique | score.py:24 | `unique()` lists each value of a column once, and no other value |
| Score.SelectMembers | score.py:25 | filtering on a column keeps exactly the matching rows |
| Score.GainWithinExposure | score.py:33-43 | a method's weighted numerator is between 0 and its weighted denominator |
| Score.NoGainBelowSecond | score.py:39-41 | with `k < 2` the rank loop is empty and the numerator is 0 |
| Score.WeightedCount | score.py:41 | the weight of the rows at one rank is that rank's weight times their count |
| Score.RankSumByRows | score.py:39-41 | summing over ranks 2..k equals summing each row's rank weight when its rank is in 2..k |
| Score.RankLoopScales | score.py:39-41 | the year weight factors out of the rank loop's sum |
| Score.OneYear | score.py:36-43 | one year's numerator and denominator increments are that year's rows' weighted credit and weighted count |
| Score.YearSplit | score.py:35-43 | summing over every year of the table equals summing over every row of the method |
| Score.Accumulate | score.py:33-43 | the year loop computes the year-by-year numerator and denominator |
| Score.RankLoop | score.py:39-41 | the rank loop adds the year's weighted credit for ranks 2..k |
| Score.InsertByScoreSorted | score.py:47 | inserting a score into a best-first list keeps it best first |
| Score.SortByScore | score.py:47 | the scores come out best first and are a permutation of the input |
| Score.ComputeScore | score.py:17-47 | the result raises exactly when the specification does, with the same error, and otherwise is the specified scores, best first |
| Score.Included | score.py:27-31 | with `min_count >= 1`, an included method has rows from at least two distinct papers |
| Score.ScoresOf | score.py:24-45 | the listed methods yield at most one score each, and the only failure is ZeroDivisionError |
| Score.Scores | score.py:23-45 | the score table fails only with ZeroDivisionError, and only when `eps <= 0` |
| Score.ScoresSkip | score.py:27-31 | a method with too few rows or a single paper adds no score |
| Score.ScoresAppend | score.py:45 | an included method adds the score numerator / (denominator + eps) |
| Score.ScoresRaise | score.py:45 | a zero `denominator + eps`, possible only when `eps <= 0`, ends the whole computation in ZeroDivisionError |
| Score.PickedMembers | score.py:27-31 | the scored methods are exactly the listed methods with enough rows from more than one paper |
| Score.ScoresOfNames | score.py:24-45 | the scores name exactly the included methods, one each, in the order of `unique()` |
| Score.ScoredMethods | score.py:23-47 | each scored method appears once, and a method is scored exactly when it occurs in the table, has at least `min_count` rows and comes from more than one paper |
| Score.RatioBelowOne | score.py:45 | a numerator within its denominator gives a ratio in [0, 1) when `eps > 0` |
| Score.ScoresBounded | score.py:33-45 | with `eps > 0` nothing raises and every score lies in [0, 1) |
| Score.ScoresZeroBelowSecond | score.py:39-45 | with `k < 2` every score is 0 |
| Score.WorkedExample | score.py:17-47 | three rows of method X from two papers score 2 / (2.7 + eps) with `k = 2`, `min_count = 3` in 2023 |

## Left out

- `get_pages` (content.py:7-12) is left out. It downloads the PDF over HTTP and opens it with PyMuPDF. The model takes the document's pages as a parameter: lists of blocks with a top coordinate and text.
- `get_text('blocks')` is left out: layout extraction is PyMuPDF's own code. A block keeps only its top coordinate and text, the two fields the extractor reads.
- `get_benchmarks` is left out: benchmarks.py is not part of this model. It calls a language model over the network, so it becomes the `gateway` parameter, a function from request to reply or exception.
- File I/O, JSON encoding and `os.makedirs` are left out. The cache directory is a map from file name to stored entry; a file written and read back is the same entry.
- `PaperRanking.__str__` and `PaperRanking.get_cost` are left out: formatting only.
- `plot_score` and main.py are left out: plotting and command-line driving.
- The clock (`datetime.now().year`) is left out: it is the `currentYear` parameter.
- Floating point is left out. Weights and scores are exact reals, so `0.1` steps and the division carry no rounding error.
- Unicode case mapping and Unicode `\d`/`\w` are left out. `lower()`, `\d` and `\w` are modelled on ASCII; whitespace is Python's full `isspace` set.
- Default argument values are left out; callers pass every argument.
- Content.SortByY: its contract promises ordered and a permutation but does not state stability (equal tops keeping their order), which Python's sort guarantees.
- Score.SortByScore: pandas' `sort_values` does not promise an order among equal scores, so the model promises none.
- Ranking.GetRankings: pandas column types and the DataFrame index are not modelled; the table is a sequence of records in insertion order.
- Score.ComputeScore: for `eps <= 0` with a zero denominator the model always raises ZeroDivisionError. The program divides numpy or plain Python numbers there, depending on the types of the years and weights, so it may yield `nan` or `inf` instead; exact reals cannot tell these apart.
- Score.ComputeScore: the program's result is a one-column DataFrame indexed by method; the model returns (method, score) pairs in the same order.
