# Contrast-set evaluation for Quoref, modelled in Dafny

The repository evaluates reading-comprehension models on *contrast sets*. A contrast set is an
original question together with the perturbed questions written from it. The repository has
three scripts. This project models and proves the core logic of each.

- `compute_metrics.py` scores predictions against gold answers. It groups the perturbed gold
  file into contrast sets and reports pooled exact-match and F1 means, set statistics, and
  *consistency*: the lowest exact-match score inside each set, averaged over the sets.
- `merge_perturbed_files.py` merges several perturbed data files into one. It keeps only
  records that name an original question, either through `original_id` or through an id of the
  form `<original>_<suffix>`. It recomputes each kept record's id and answer offsets, then
  gathers the paragraphs by article (title, url) and context id, appending records across files.
- `interface.py` names the output of an annotation session. The name is derived from the input
  file name: an earlier 2019 timestamp is removed, `_perturbed` is added once, and the current
  timestamp is appended.

Modules:

| module | file | content |
|---|---|---|
| `Results` | results.dfy | `Option`, `Result`, and the Python exceptions raised (`KeyError`, `IndexError`, `ValueError`) |
| `Seqs` | seqs.dfy | distinctness, and `Dedup` (the key order of a Python dict filled element by element) |
| `OrderedDict` | ordered_dict.dfy | a Python dict as a map plus its insertion order |
| `PyStrings` | strings.dfy | `str.index`, `in`, `split(c)[0]`, `split(c)[-1]`, `strip`, digit filtering |
| `Stats` | stats.dfy | `np.mean` (NaN for an empty list), `np.var`, `max`, `min` |
| `Records` | records.dfy | the JSON layout: articles, paragraphs, question-answer records, answers |
| `ComputeMetrics` | compute_metrics.dfy | grouping, flattening, scoring and aggregation |
| `MergePerturbedFiles` | merge_perturbed_files.dfy | record rewriting and the merge |
| `Interface` | interface.dfy | the output file name |

The Python sources build dicts and lists in nested loops. Each such loop is a Dafny `method`
with a `while` loop. Its invariant ties the dict built so far to a specification function of the
records visited so far (`Grouped`, `Collected`, `Scored`, `Gather(Contributions(...))`). The
properties are then proved about those functions as lemmas. The dicts are local values that
the scripts never share, so they are modelled as values that each step reassigns.
`drop_eval.get_metrics` and SHA-1 are function-typed parameters (`Metric`, `Sha1`). The current
time is a string parameter `now`, standing for `str(datetime.datetime.now())`.

## Model

| member | source | states |
|---|---|---|
| `ComputeMetrics.OriginalIdsMembers` | compute_metrics.py:16-21 | an id is a key of the grouping exactly when some visited record names it as `original_id` |
| `ComputeMetrics.LinkedIdsMembers` | compute_metrics.py:18-22 | the ids added under key `k` are exactly those of the records whose `original_id` is `k` |
| `ComputeMetrics.ContrastSetsCoverRecords` | compute_metrics.py:18-24 | every visited record's original is a key, and both the record's id and its original lie in that key's set |
| `ComputeMetrics.GroupedAreContrastSets` | compute_metrics.py:15-24 | the dict's values are one set per distinct original in first-seen order, each equal to `{k}` plus the ids linked to `k`, and none empty |
| `ComputeMetrics.ContrastSetStep` | compute_metrics.py:21-22 | visiting a record adds its id to the set of its own original and to no other |
| `ComputeMetrics.GroupRecord` | compute_metrics.py:19-22 | one linked record and its original join its original's set, keeping the grouping invariant; a record without `original_id` stops the walk and the file is then not fully linked |
| `ComputeMetrics.GroupRecords` | compute_metrics.py:18-22 | the innermost grouping loop keeps the invariant, or reports a record without `original_id` |
| `ComputeMetrics.GroupParagraphs` | compute_metrics.py:17-22 | the loop over paragraphs keeps the invariant, or reports a record without `original_id` |
| `ComputeMetrics.GetContrastSets` | compute_metrics.py:14-24 | KeyError on a file without `data`, or when some record lacks `original_id`; otherwise the contrast sets of all records, in first-seen order |
| `ComputeMetrics.LastAnswersDefined` | compute_metrics.py:35-38 | an id has answers exactly when some record has that id |
| `ComputeMetrics.LastAnswersOfLastRecord` | compute_metrics.py:36-38 | a repeated id keeps the answer texts of its last record |
| `ComputeMetrics.CollectedStep` | compute_metrics.py:36-38 | one assignment `answers_dict[id] = texts` keeps the flattening invariant |
| `ComputeMetrics.CollectRecords` | compute_metrics.py:35-38 | the innermost flattening loop extends the invariant over a paragraph's records |
| `ComputeMetrics.CollectParagraphs` | compute_metrics.py:34-38 | the middle flattening loop extends the invariant over an article's paragraphs |
| `ComputeMetrics.GetAnswersFromData` | compute_metrics.py:27-39 | the keys are the distinct record ids in first-seen order; each value is the answer texts of the last record with that id |
| `ComputeMetrics.AtLeastZero` | compute_metrics.py:68-69 | `max(0.0, x)` is at least 0 and at least `x`, and is one of the two |
| `ComputeMetrics.ScoreInstance` | compute_metrics.py:61-74 | IndexError exactly for a predicted query with no gold candidate; otherwise (0, 0) for a missing prediction or a blank first candidate, else the metric's scores raised to at least 0 |
| `ComputeMetrics.ScoresOfPut` | compute_metrics.py:74 | recording one more gold query's score keeps every stored score the instance score of its query |
| `ComputeMetrics.ScoredStep` | compute_metrics.py:60-74 | storing the next query's score keeps the scoring invariant |
| `ComputeMetrics.ScoreInstances` | compute_metrics.py:60-76 | the result has the gold ids as keys, in gold order, each scored by the rules above and never negative; IndexError exactly when a predicted query has an empty candidate list |
| `ComputeMetrics.GetInstanceMetrics` | compute_metrics.py:42-76 | a nested gold file is flattened first and a flat one is used as is; IndexError exactly when a predicted query has an empty candidate list; otherwise the gold ids in gold order, each with its instance score and never negative |
| `ComputeMetrics.EmScores` | compute_metrics.py:97 | one exact-match score per query, in the dict's order |
| `ComputeMetrics.F1Scores` | compute_metrics.py:98 | one F1 score per query, in the dict's order |
| `ComputeMetrics.SetSizes` | compute_metrics.py:118 | one size per contrast set, in order |
| `ComputeMetrics.AsReals` | compute_metrics.py:118-120 | the set sizes as reals, one per set and in order, each equal to its integer size |
| `ComputeMetrics.Merged` | compute_metrics.py:121-122 | the merged map holds the queries of both files, and the perturbed score wins for a query in both |
| `ComputeMetrics.Consistency` | compute_metrics.py:125 | the lowest exact-match score of the set: at most every member's and equal to some member's; it fails exactly when the set is empty (ValueError) or has an unscored member (KeyError naming one) |
| `ComputeMetrics.ConsistentIffAllExact` | compute_metrics.py:125 | with exact match at most 1, a set scores 1 exactly when every member scores 1 |
| `ComputeMetrics.ConsistencyScores` | compute_metrics.py:123-126 | one minimum per set, in order; it fails exactly when some set cannot be scored, and then with the exception of the first such set in list order: ValueError if it is empty, else KeyError naming an unscored member of it |
| `ComputeMetrics.Summarize` | compute_metrics.py:97-132 | the six means over the original, perturbed and concatenated score lists; count, maximum, mean and variance of the set sizes; per-set consistency and its mean; it fails exactly when there is no set or some set cannot be scored: with no set, ValueError from `max([])`; otherwise the exception of the first set that cannot be scored |
| `ComputeMetrics.LinkedIdsAreIds` | compute_metrics.py:18-22 | the ids put in a set are ids of records of the same file |
| `ComputeMetrics.ScorableIffOriginalsKnown` | compute_metrics.py:121-126 | the sets can all be scored exactly when every original id they name is a query of one of the two files |
| `ComputeMetrics.FirstUnscorableIsUnknown` | compute_metrics.py:121-125 | every perturbed record is scored, so the first contrast set that cannot be scored fails on its own original id, the first original id that neither file has |
| `ComputeMetrics.EvaluateContrastSets` | compute_metrics.py:94-132 | the first failing stage decides the exception: IndexError for the original file, then for the perturbed file; KeyError `data` for a flat perturbed file; KeyError `original_id`; ValueError for no contrast set; KeyError naming the first original id neither file has. It succeeds exactly when none of these happens, and then reports, over the two scored dicts and the contrast sets it returns as ghost results, everything `Summarize` states |
| `Stats.SumConcat` | compute_metrics.py:105-106 | the sum of a concatenated score list is the sum of the sums |
| `Stats.MeanOf` | compute_metrics.py:99-106 | `np.mean` is NaN exactly for the empty list |
| `Stats.Mean` | compute_metrics.py:99-106 | `np.mean` of a non-empty list, the sum over the length; its contract is in `MeanOf`, `PooledMean` and `MeanBounds` |
| `Stats.PooledMean` | compute_metrics.py:105-106 | the combined mean is (sum1 + sum2) / (n1 + n2), whenever one of the lists is non-empty |
| `Stats.PooledMeanWeighted` | compute_metrics.py:105-106 | the combined mean is the size-weighted average of the two means |
| `Stats.PooledMeanOf` | compute_metrics.py:105-106 | the same, for the NaN-aware mean |
| `Stats.MeanBounds` | compute_metrics.py:128 | a mean lies within the bounds of its elements |
| `Stats.Variance` | compute_metrics.py:120 | `np.var` is NaN exactly for the empty list |
| `Stats.VarianceNonNegative` | compute_metrics.py:120 | the spread of the set sizes is never negative |
| `Stats.Max` | compute_metrics.py:132 | `max` returns an element that is at least every element |
| `Stats.Min` | compute_metrics.py:125 | `min` returns an element that is at most every element |
| `OrderedDict.Put` | compute_metrics.py:38 | `d[k] = v`: a new key goes to the end, an existing key keeps its place, and the value is replaced |
| `OrderedDict.Values` | compute_metrics.py:24 | `list(d.values())`: one value per key, in insertion order |
| `OrderedDict.Items` | compute_metrics.py:121-122 | `list(d.items())`: one (key, value) pair per key, in insertion order |
| `OrderedDict.FromItems` | compute_metrics.py:121-122 | the dict comprehension builds a well-formed dict; its content is stated by the two lemmas below |
| `OrderedDict.FromItemsConcat` | compute_metrics.py:121-122 | a dict built from two item lists is the union in which the second list wins |
| `OrderedDict.FromItemsOfItems` | compute_metrics.py:121-122 | rebuilding a dict from its own items gives back its map |
| `Seqs.Dedup` | compute_metrics.py:21 | the key order of a dict filled element by element lists each element once, and exactly the elements given |
| `Seqs.DedupStep` | compute_metrics.py:21 | a new element goes to the end of the key order; a known one changes nothing |
| `Records.InQasOfArticles` | compute_metrics.py:16-18 | the nested walk visits every record of the data |
| `Records.Texts` | compute_metrics.py:37 | `[answer["text"] for answer in qa_pair["answers"]]`: one text per answer, in order, each that answer's `text` |
| `MergePerturbedFiles.Lineage` | merge_perturbed_files.py:19-26 | a record's own `original_id` is kept; otherwise an id with `_` gives the part before the first `_`; otherwise the record is skipped |
| `MergePerturbedFiles.LineageOfDerivedId` | merge_perturbed_files.py:21-23 | an id `<original>_<suffix>` gives back `<original>` |
| `MergePerturbedFiles.FirstStarts` | merge_perturbed_files.py:30-37 | each answer start is the least index at which its text occurs in the context; ValueError exactly when some text does not occur |
| `MergePerturbedFiles.RecomputeStarts` | merge_perturbed_files.py:30-37 | the loop over answers computes `FirstStarts` |
| `MergePerturbedFiles.ValueErrorPersists` | merge_perturbed_files.py:31-37 | one answer missing from the context fails the whole list |
| `PyStrings.IndexFrom` | merge_perturbed_files.py:32 | the search from a position returns the least position at or after it where the text occurs, or none when it occurs nowhere there |
| `PyStrings.IndexOf` | merge_perturbed_files.py:32 | `str.index` as the search from position 0; its contract is `IndexOfSpec` |
| `PyStrings.IndexOfSpec` | merge_perturbed_files.py:32 | `context.index(text)` returns the first occurrence, and fails exactly when there is none |
| `PyStrings.Contains` | interface.py:77 | Python's `s in t`, decided by the `str.index` search; its contract is `ContainsIffOccurs` |
| `PyStrings.ContainsIffOccurs` | interface.py:77 | `s in t` holds exactly when `s` occurs at some position of `t` |
| `MergePerturbedFiles.RewriteRecord` | merge_perturbed_files.py:28-38 | a kept record gets the id `sha1(context_id + " " + question)`, its recomputed answers and its lineage, and keeps its question |
| `MergePerturbedFiles.Kept` | merge_perturbed_files.py:19-26 | the records that have a lineage, in order; never more than the paragraph has |
| `MergePerturbedFiles.KeptMembers` | merge_perturbed_files.py:19-26 | a record is kept exactly when it has a lineage; the others never reach the output |
| `MergePerturbedFiles.Rewritten` | merge_perturbed_files.py:18-39 | the paragraph's rewritten kept records, or ValueError; its contract is `RewrittenSpec` |
| `MergePerturbedFiles.RewrittenSpec` | merge_perturbed_files.py:18-39 | a paragraph's rewrite succeeds exactly when every kept record can be rewritten, fails only with ValueError, and yields the kept records rewritten in order |
| `MergePerturbedFiles.RewrittenLinked` | merge_perturbed_files.py:19-24 | every rewritten record has an `original_id` |
| `MergePerturbedFiles.RewriteOne` | merge_perturbed_files.py:18-38 | one record is kept exactly when it has a lineage, and is then rewritten |
| `MergePerturbedFiles.RewriteRecords` | merge_perturbed_files.py:16-39 | the loop over a paragraph's records computes its rewrite; the paragraph has perturbations exactly when some record is kept |
| `MergePerturbedFiles.RewriteFailurePersists` | merge_perturbed_files.py:30-37 | one kept record whose answer cannot be placed fails the whole paragraph |
| `MergePerturbedFiles.MergeParagraph` | merge_perturbed_files.py:14-46 | one paragraph is added to the merged data when it has kept records; it fails exactly when its rewrite fails |
| `MergePerturbedFiles.MergeArticle` | merge_perturbed_files.py:13-46 | the loop over an article's paragraphs extends the merged data by their contributions |
| `MergePerturbedFiles.MergeNextArticle` | merge_perturbed_files.py:10-46 | one pass of the loop over a file's articles |
| `MergePerturbedFiles.MergeFile` | merge_perturbed_files.py:10-46 | the loop over a file's articles extends the merged data by their paragraphs' contributions, or fails when some paragraph fails |
| `MergePerturbedFiles.UnfoundInFiles` | merge_perturbed_files.py:31-37 | a failing paragraph in any file fails the whole merge |
| `MergePerturbedFiles.GatherFiles` | merge_perturbed_files.py:8-46 | `all_data` is the merged data of every file's paragraphs, in command-line order |
| `MergePerturbedFiles.AddParagraph` | merge_perturbed_files.py:42-46 | adding a contribution keeps the merged data well nested |
| `MergePerturbedFiles.AddParagraphSpec` | merge_perturbed_files.py:42-46 | the contribution's article and paragraph are created at the end when new; the paragraph takes the new context and context id and has the records appended; every other article and paragraph is unchanged |
| `MergePerturbedFiles.Output` | merge_perturbed_files.py:48-53 | one article per (title, url) in first-seen order, holding the values of its paragraph dict in order |
| `MergePerturbedFiles.LayOut` | merge_perturbed_files.py:48-53 | the loop over `all_data` builds the output list |
| `MergePerturbedFiles.Merge` | merge_perturbed_files.py:7-53 | the script computes the merged dataset of its files, or ValueError |
| `MergePerturbedFiles.MergeSpec` | merge_perturbed_files.py:7-53 | the reference definition of the whole script: ValueError when some kept answer cannot be placed, otherwise the layout of the gathered contributions; `Merge` ensures it equals this, and `MergedLayout` states what the layout holds |
| `MergePerturbedFiles.ContributionStep` | merge_perturbed_files.py:41-46 | one more contribution adds its key, its context id and its records to its own article and paragraph, and replaces that paragraph's context |
| `MergePerturbedFiles.DescribesStep` | merge_perturbed_files.py:41-46 | adding a contribution keeps the description of the merged data |
| `MergePerturbedFiles.GatherDescribes` | merge_perturbed_files.py:7-46 | the merged data holds one article per contributed (title, url) and one paragraph per contributed context id, both in first-seen order, with all the records contributed to it |
| `MergePerturbedFiles.MergedLayout` | merge_perturbed_files.py:41-53 | the output has one article per distinct (title, url) in first-seen order; each paragraph has the last context and all the records contributed to its context id |
| `MergePerturbedFiles.ArticleLayout` | merge_perturbed_files.py:49-52 | the paragraphs of one merged article, in first-seen order of their context ids |
| `MergePerturbedFiles.ContributionsConcat` | merge_perturbed_files.py:8-46 | the contributions of consecutive site lists follow one another |
| `MergePerturbedFiles.SitesOfFilesConcat` | merge_perturbed_files.py:8-13 | the paragraphs of consecutive file lists follow one another |
| `MergePerturbedFiles.QasForConcat` | merge_perturbed_files.py:45-46 | the records of a paragraph from consecutive contributions follow one another |
| `MergePerturbedFiles.MergeAppendsInFileOrder` | merge_perturbed_files.py:8-46 | merging `f1 + f2` gives each paragraph the records from `f1`, then those from `f2` |
| `MergePerturbedFiles.LastContextWins` | merge_perturbed_files.py:43 | a paragraph's context is the one from the last file that contributes to it |
| `MergePerturbedFiles.ContributionsLinked` | merge_perturbed_files.py:19-41 | every contribution carries at least one record, and all its records are linked to an original |
| `MergePerturbedFiles.QasForLinked` | merge_perturbed_files.py:45-46 | a gathered paragraph's records are all linked, and there is at least one |
| `MergePerturbedFiles.MergedRecordsLinked` | merge_perturbed_files.py:7-53 | every record of the merged dataset names its original, and no paragraph is empty |
| `PyStrings.AfterLast` | interface.py:73 | `s.split(c)[-1]` is the suffix of `s` after its last `c`, all of `s` when there is none |
| `PyStrings.BeforeFirst` | merge_perturbed_files.py:23 | `s.split(c)[0]` is the prefix of `s` before its first `c`, all of `s` when there is none |
| `PyStrings.AfterLastOfJoin` | interface.py:73 | what follows a separator does not depend on what precedes it |
| `PyStrings.BeforeFirstOfJoin` | interface.py:73 | splitting at the first separator returns exactly what precedes it |
| `PyStrings.LeftStrip` | compute_metrics.py:67 | `lstrip` removes exactly the leading white space |
| `PyStrings.RightStrip` | compute_metrics.py:67 | `rstrip` removes exactly the trailing white space |
| `PyStrings.Strip` | compute_metrics.py:67 | `strip` is `rstrip` after `lstrip`; its contract is `StripEmptyIffBlank` |
| `PyStrings.StripEmptyIffBlank` | compute_metrics.py:67 | a first candidate strips to `""` exactly when it is all white space |
| `Interface.FilenamePrefix` | interface.py:73 | the prefix contains neither `/` nor `.` |
| `Interface.PrefixIgnoresDirectory` | interface.py:73 | the directory part of the path does not matter |
| `Interface.PrefixOfPlainName` | interface.py:73 | `base.ext` gives `base` |
| `Interface.FirstStamp` | interface.py:75 | the leftmost match of `_2019[0-9]*$`, or none |
| `Interface.StripTimestamp` | interface.py:75 | a name with no match is unchanged |
| `Interface.StampShape` | interface.py:75 | a match starts with `_2019`, and no `_` follows it |
| `Interface.StampIsUnique` | interface.py:75 | the pattern matches at most one position |
| `Interface.StripStamped` | interface.py:74-75 | a name ending in `_2019` plus digits loses exactly that ending |
| `Interface.NoStampAfterOtherDigits` | interface.py:74-75 | a name ending in `_` plus digits that do not start with `2019` is unchanged |
| `Interface.StripKeepsCharacters` | interface.py:75 | removing the timestamp only removes characters |
| `Interface.NameIsMarked` | interface.py:76-78 | the name is always marked `_perturbed` |
| `Interface.MarkedNameKept` | interface.py:76-78 | a name that already contains `_perturbed` gets no second one |
| `Interface.NameSuffix` | interface.py:76-78 | `_perturbed` unless the name already contains it; its contract is `NameIsMarked` and `MarkedNameKept` |
| `Interface.NameHasNoSeparators` | interface.py:76-78 | the suffix adds neither `/` nor `.` |
| `Interface.Timestamp` | interface.py:79 | the timestamp contains only digits |
| `PyStrings.DigitsOnly` | interface.py:79 | `re.sub('[^0-9]', '', s)` keeps only digits, and leaves an all-digit string unchanged |
| `PyStrings.DigitsOnlyConcat` | interface.py:79 | the substitution works piece by piece: the digits of `a + b` are those of `a`, then those of `b` |
| `PyStrings.DigitsOnlyOfChar` | interface.py:79 | a single character is kept exactly when it is a digit |
| `Interface.TimestampOfClock` | interface.py:79 | for the text `YYYY-MM-DD HH:MM:SS.ffffff` of the current time, the timestamp is its date and time digits, without the fraction of a second |
| `Interface.TimestampOn14October2026` | interface.py:79 | `2026-10-14 09:30:00.123456` gives `20261014093000` |
| `Interface.Stem` | interface.py:73-78 | prefix without a 2019 timestamp, then the suffix; its contract is the lemmas below |
| `Interface.StemIsPerturbed` | interface.py:73-78 | every stem contains `_perturbed` |
| `Interface.StemHasNoSeparators` | interface.py:73-78 | the stem contains neither `/` nor `.` |
| `Interface.PrefixOfName` | interface.py:73-81 | a name of the output's shape reads back as everything before `.json` |
| `Interface.OutputFilename` | interface.py:73-81 | stem, `_`, timestamp, `.json`; its contract is the lemmas around it |
| `Interface.PrefixOfOutput` | interface.py:73-81 | the output name reads back as stem, `_`, timestamp |
| `Interface.Strip2019Stamp` | interface.py:75-81 | a 2019 timestamp after a name is removed |
| `Interface.StemOf2019Name` | interface.py:73-81 | a marked stem followed by a 2019 timestamp reads back as that stem |
| `Interface.StemOfOtherName` | interface.py:73-81 | a marked stem followed by any other timestamp reads back with the timestamp still attached |
| `Interface.MarkedWithStamp` | interface.py:76-78 | a marked stem stays marked with a timestamp behind it |
| `Interface.ReFeedKeepsStemIn2019` | interface.py:73-87 | a 2019 session fed its own output keeps the same stem, so nothing piles up |
| `Interface.ReFeedGrowsStemAfter2019` | interface.py:73-87 | a session after 2019 fed its own output keeps the old timestamp in the stem |
| `Interface.ReFeedIn2026` | interface.py:75 | `data_perturbed_20261014093000.json` re-fed keeps `_20261014093000` in its stem |
| `Interface.StemOfDataJson` | interface.py:73-78 | the stem of `data.json` is `data_perturbed` |
| `Interface.SessionOn14October2026` | interface.py:73-81 | a session on `data.json` at 09:30:00.123456 on 14 October 2026 writes `data_perturbed_20261014093000.json`, whose stem read back is `data_perturbed_20261014093000` |
| `Interface.StripSessionStamp` | interface.py:75 | the corrected rule removes a trailing `_` plus 14 digits, whatever the year, and nothing else |
| `Interface.SessionStem` | interface.py:73-78 | the corrected stem: the prefix with any trailing session timestamp of any year removed, then marked; its contract is in `SessionStemHasNoSeparators` and `SessionStemOfName` |
| `Interface.SessionOutputFilename` | interface.py:79-81 | the corrected output name, `SessionStem` plus `_`, the timestamp and `.json`; its contract is `ReFeedKeepsSessionStem` |
| `Interface.StripSessionStampOfName` | interface.py:75 | with the corrected rule, a session timestamp behind a name is removed |
| `Interface.SessionStemHasNoSeparators` | interface.py:73-78 | with the corrected rule, the stem still contains neither `/` nor `.` |
| `Interface.SessionStemOfName` | interface.py:73-81 | with the corrected rule, a marked stem followed by a session timestamp reads back as that stem |
| `Interface.ReFeedKeepsSessionStem` | interface.py:73-87 | with the corrected rule, feeding an output back in keeps the stem in every year |

## Left out

- Reading and writing JSON, `argparse`, `sys.argv` and every `print`, including the `{:.2f}`
  formatting of the report, the usage text and the "Missing prediction" and "Could not find
  answer" messages. These are I/O. Gold and prediction files arrive as values, merge inputs as
  a list of files, and the report as a `Report` value.
- `drop_eval.get_metrics` and SHA-1 are foreign code. They are parameters and are never
  interpreted. `ConsistentIffAllExact` alone assumes exact match is at most 1.
- `datetime.datetime.now()` is a clock. Its string form is the parameter `now`.
- The interactive session of `interface.py` (`get_answers`, `add_perturbations`, lines 8-65)
  reads from `input()` and uses `random.shuffle`. It is not part of this model.
- Floating point. Scores are reals with exact arithmetic. `np.mean([])` is `NaN` of type `Stat`.
- `ComputeMetrics.Summarize`: reports the variance of the set sizes rather than `np.std`, its
  square root, because the square root is not exact over the reals.
- `ComputeMetrics.Consistency`: leaves open in which order a set's members are read. Python reads
  them in hash order, so with several unscored members the KeyError names one of them, not the
  first in Python's order.
- `ComputeMetrics.GetInstanceMetrics`: gold answers are lists of strings. In a flat gold file a
  value that is a single string would be split into its characters by `tuple(...)`; that case
  is not modelled. A flat gold file is also told apart from a nested one by its type, not by
  the test `"data" in annotations` (compute_metrics.py:55): a flat file whose query ids include
  the literal id `data` would be read as nested by the script, which `Annotations` cannot
  express.
- `ComputeMetrics.GetContrastSets`: the JSON fields `paragraphs`, `qas` and `id` always exist in
  the records. Only the missing `data` and `original_id` keys raise KeyError.
- `ComputeMetrics.GetAnswersFromData`: the typed records always have their JSON fields, so the
  KeyErrors of missing fields are not modelled: `paragraphs` (compute_metrics.py:34), `qas`
  (:35), `id` (:36), and `answers` or `text` (:37). `ComputeMetrics.GetInstanceMetrics`, which
  flattens a nested gold file with it, drops the same error paths.
- Contrast sets are not proved disjoint, because the code does not make them so. An id that is
  also another record's `original_id` lies in two sets.
- Empty input is not an error of its own. As in the code, `np.mean([])` gives NaN and only
  `max([])` raises ValueError.
- `MergePerturbedFiles.Merge`: the script mutates the loaded records in place before a ValueError
  stops it. Nothing is written then, so the model returns only the error.
- `MergePerturbedFiles.Merge`: the typed records always have their JSON fields, so the KeyErrors
  of missing fields are not modelled: `data` (merge_perturbed_files.py:9), `title`, `url` and
  `paragraphs` (:11-13), `context_id` and `context` (:14-15), `id` (:21), `question` (:28),
  `answers` (:30) and `text` (:32). Only the ValueError of :32 ends a modelled merge.
- Dicts and lists are values that each step reassigns. The scripts never share them, so no
  aliasing is lost.

## Findings

| source | as written | input that shows it | evidently intended | confidence | as-written member | corrected member |
|---|---|---|---|---|---|---|
| interface.py:75 | `re.sub('_2019[0-9]*$', '', prefix)` removes only a timestamp whose year is 2019 | a session on 14 October 2026 at 09:30 on `data.json` writes `data_perturbed_20261014093000.json`; fed back in, its stem stays `data_perturbed_20261014093000`, so the next output is `data_perturbed_20261014093000_<new timestamp>.json` | the usage text promises that an earlier session's output can be fed back in; the earlier timestamp should be removed whatever its year | not executed | `Interface.ReFeedGrowsStemAfter2019`, `Interface.SessionOn14October2026` | `Interface.ReFeedKeepsSessionStem` (with `Interface.StripSessionStamp`) |
