# RAFT few-shot data pipeline — a Dafny model

This project models the data side of a few-shot text-classification pipeline over
the RAFT benchmark, and proves properties of that model:

- **Gold-label recovery** (`label_recovery.dfy`, module `LabelRecovery`).
  RAFT's test sets carry no labels. Seven `download_*` routines recover them by
  looking each test sentence up in a public labelled corpus. The lookup is by exact
  string equality. A hit's numeric label is turned into the dataset's label name, and
  a miss gives the sentinel `null`. The routine writes an `ID,Label` header and then
  one `id,label` line per test row.
  - The seven routines share one row loop, `Download`. They differ in how the corpus
    is searched (`Source`) and how a label becomes a name (`Verbalizer`).
  - The search is one of three kinds. `Lookup` is `list.index` on a single corpus.
    `Probe` tries the splits in turn with an early `break`, as the method
    `ProbeSplits` does. `Unique` is pandas' exactly-one-row rule.
- **Text layout** (`csv.dfy`, module `Csv`). This covers:
  - how `str(id)` renders an ID;
  - how a line splits on commas;
  - which cell strings pandas' `read_csv` reads as missing values by default.
- **Prompt assembly** (`processors.dfy`, module `Processors`). The ade_corpus_v2
  processor is a class. Its configuration is set at construction. Its tokenized label
  words are cached on first use. It lays out the sentence, the pattern words and the
  mask tokens of a cloze prompt.
- **Task registry and few-shot split** (`tasks.dfy`, module `Tasks`).
  - `GetTask` is the registry lookup.
  - `SplitDatasets` updates a dataset dictionary in place. It replaces `train` and
    `validation` with rows 0–24 and rows 25–49 of the shuffled training pool.
- **Scoring** (`evaluation.dfy`, module `Evaluation`).
  - `Eval` scores one dataset. It drops gold rows with a missing cell and joins them
    with the predictions by row position. The score is the fraction of kept rows
    whose prediction equals the gold label.
  - `EvaluateAll` averages the score over the eleven listed datasets.
  - `DownloadedFileReadsBack` ties the two halves together. When a downloaded gold
    file is read back, a row is kept exactly when its label was recovered, and it
    keeps that label.

Facts the model keeps from the code:

- `eval` answers 0 when a file is missing.
- `eval` raises a `KeyError` when not one kept row is predicted correctly. The model
  keeps that behaviour as `Failure(KeyError)`.
- The join uses the original row positions of the gold file, so a dropped row does
  not renumber the rows after it.
- `"null"`, the sentinel the downloader writes, is one of pandas' default missing-value
  strings. This is why unrecovered rows drop out of evaluation.

Two behaviours of the code are easy to misread, and the model follows the code:

- The few-shot split is not idempotent. It overwrites `train` with a 25-row subset,
  so a second application draws from those 25 rows and raises.
- For an unknown name, the registries mean to raise a ValueError that lists the known
  names. The message's `format` call has three placeholders and one argument, so the
  exception that escapes is not that ValueError. The model records only that no task
  or processor is produced.

## Model

| member | source | states |
|---|---|---|
| Csv.NatToString | src/data/download_test_set.py:32 | the decimal rendering of a natural number is non-empty and all digits |
| Csv.NatToStringRoundTrip | src/data/download_test_set.py:32 | reading the decimal rendering back gives the number again |
| Csv.IntToString | src/data/download_test_set.py:32 | `str(id)` is non-empty, uses digits and a minus sign only, and holds no comma; for a non-negative id it is all digits whose decimal value is the id, for a negative one a minus sign followed by the digits of its magnitude |
| Csv.RowLine | src/data/download_test_set.py:32 | definition: `str(id) + "," + label` |
| Csv.CommaIndex | src/data/eval_results.py:12 | the position of the first comma: a comma, with none before it |
| Csv.Cells | src/data/eval_results.py:12 | splitting a line on commas gives at least one cell, and a line without a comma is a single cell |
| Csv.CellsAfterField | src/data/eval_results.py:12 | a comma-free field followed by a comma is the first cell, and the rest of the line gives the remaining cells |
| Csv.RowLineCells | src/data/download_test_set.py:32 | a written `id,label` line with a comma-free label reads back as exactly the two cells `str(id)` and the label |
| Csv.ReadCell | src/data/eval_results.py:12-13 | a cell is missing exactly when it is one of pandas' default NA strings; otherwise it is read as itself |
| Csv.IdCellNeverMissing | src/data/eval_results.py:15 | no rendered ID is read as missing, so `dropna` never drops a row for its ID |
| LabelRecovery.IndexOf | src/data/download_test_set.py:26 | `list.index`: nothing exactly when no row has the text, otherwise the first row that has it |
| LabelRecovery.MatchIndices | src/data/download_test_set.py:262 | the `.loc` selection: every position whose text equals the sentence and only those, in increasing order |
| LabelRecovery.PyIndex | src/data/download_test_set.py:170 | Python list indexing: succeeds exactly for -len <= i < len, a non-negative position gives that element, a negative one the element at len + i, every result is in the list |
| LabelRecovery.Verbalize | src/data/download_test_set.py:27-28 | the name of a label is one of the verbalizer's names; the binary rule never fails |
| LabelRecovery.LookupToken | src/data/download_test_set.py:25-30 | `list.index` then the label name: `null` when no row has the text, otherwise the name of the first matching row's label |
| LabelRecovery.ProbeToken | src/data/download_test_set.py:133-142 | definition: the first split holding the sentence gives its lookup's label, `null` when none holds it |
| LabelRecovery.UniqueToken | src/data/download_test_set.py:262-266 | definition: the exactly-one rule, the only matching row's label name, otherwise `null` |
| LabelRecovery.RowToken | src/data/download_test_set.py:25-30 | definition: a dataset's label for one sentence, by its search kind (first match, probe or exactly-one) |
| LabelRecovery.AdeCorpusV2 | src/data/download_test_set.py:7-34 | definition: one corpus searched by first match, label 1 "ADE-related", any other "not ADE-related" |
| LabelRecovery.Banking77 | src/data/download_test_set.py:37-146 | definition: `train` then `test` probed, label k naming intent k |
| LabelRecovery.OneStopEnglish | src/data/download_test_set.py:149-176 | definition: one corpus searched by first match, label k naming reading level k |
| LabelRecovery.TwitterComplaints | src/data/download_test_set.py:179-211 | definition: `train`, `validation`, `test` probed, label 1 "complaint", any other "no complaint" |
| LabelRecovery.TweetEvalHate | src/data/download_test_set.py:214-243 | definition: `train`, `validation`, `test` probed, label 1 "hate speech", any other "not hate speech" |
| LabelRecovery.Overruling | src/data/download_test_set.py:246-270 | definition: one table under the exactly-one rule, label 1 "overruling", any other "not overruling" |
| LabelRecovery.TermsOfService | src/data/download_test_set.py:273-297 | definition: one table under the exactly-one rule, label 1 "potentially unfair", any other "not potentially unfair" |
| LabelRecovery.ProbeSplits | src/data/download_test_set.py:133-142 | the split loop with its `break` returns exactly the probing rule `ProbeToken` |
| LabelRecovery.RowLabel | src/data/download_test_set.py:25-30 | the label the loop body computes for one row (first match, probe or exactly-one rule) is the source's rule `RowToken`, including its exception |
| LabelRecovery.Download | src/data/download_test_set.py:18-34 | header first, then one `str(id),label` line per test row in order, with the label the source's rule gives; stops and reports when a lookup raises, and only then; binary datasets never raise; with comma-free names, every data line has two cells and its second cell is a name or `null` |
| LabelRecovery.ProbeTokenLabels | src/data/download_test_set.py:198-207 | a probe yields `null`, one of the names, or the exception, and a binary verbalizer never raises |
| LabelRecovery.RowTokenLabels | src/data/download_test_set.py:25-30 | every label a row can receive is one of the dataset's names or exactly `null` |
| LabelRecovery.ProbeFirstHit | src/data/download_test_set.py:133-142 | the first split that contains the sentence decides, unless its lookup gives `null` |
| LabelRecovery.ProbeIgnoresLaterSplits | src/data/download_test_set.py:134-136 | once earlier splits have decided the label, appending more splits does not change it |
| LabelRecovery.ProbeAbsentIsNull | src/data/download_test_set.py:133-142 | a sentence found in no split is labelled `null` |
| LabelRecovery.OnlyMatchSelected | src/data/download_test_set.py:262 | when exactly one row has the text, the selection is that row alone |
| LabelRecovery.NoMatchSelectsNothing | src/data/download_test_set.py:262 | when no row has the text, the selection is empty |
| LabelRecovery.OnlyMatchNamed | src/data/download_test_set.py:262-264 | the exactly-one rule names the label of the only matching row |
| LabelRecovery.AmbiguousMatchIsNull | src/data/download_test_set.py:262-266 | two rows with the text give `null` |
| LabelRecovery.AbsentUniqueIsNull | src/data/download_test_set.py:262-266 | no row with the text gives `null` |
| LabelRecovery.UniqueRule | src/data/download_test_set.py:289-295 | the three cases of the exactly-one rule for any verbalizer: one match names its label, two or more give `null`, none gives `null` |
| LabelRecovery.NameTables | src/data/download_test_set.py:46-124 | there are 77 intents and 3 reading levels, and none of them is the sentinel `null` |
| LabelRecovery.AdeCorpusV2Label | src/data/download_test_set.py:25-30 | ade_corpus_v2: a miss is `null`; otherwise the first matching row decides, and label 1 is "ADE-related" while any other label is "not ADE-related" |
| LabelRecovery.Banking77Label | src/data/download_test_set.py:133-142 | banking_77: a hit in `train` names `intent[label]` without consulting `test`; only a sentence absent from `train` is looked up in `test`; a sentence in neither is `null` |
| LabelRecovery.OneStopEnglishLabel | src/data/download_test_set.py:167-172 | one_stop_english: a miss is `null`; otherwise `categories[label]` of the first matching row, including its IndexError |
| LabelRecovery.ThreeSplitLabel | src/data/download_test_set.py:198-207 | probing `train`, `validation`, `test` in that order: the first split holding the sentence decides, and absence from all three gives `null` |
| LabelRecovery.TwitterComplaintsLabel | src/data/download_test_set.py:198-207 | twitter_complaints: a `feeling` of 1 is "complaint"; probing order as above |
| LabelRecovery.TweetEvalHateLabel | src/data/download_test_set.py:230-239 | tweet_eval_hate: label 1 is "hate speech"; probing order as above |
| LabelRecovery.OverrulingLabel | src/data/download_test_set.py:262-266 | overruling: exactly one row with the sentence names "overruling" or "not overruling"; ambiguity or absence gives `null` |
| LabelRecovery.TermsOfServiceLabel | src/data/download_test_set.py:289-295 | terms_of_service: exactly one row with the text names "potentially unfair" or "not potentially unfair"; ambiguity or absence gives `null` |
| LabelRecovery.MatchIsExact | src/data/download_test_set.py:26 | matching is exact string equality: a change of case, a trailing space or a doubled space is a miss |
| Processors.Repeat | src/data/processors.py:79-80 | `n * [x]` is n copies of x, and empty for non-positive n |
| Processors.AdeCorpusV2.constructor | src/data/processors.py:12-19 | the configuration is stored, the pad token id is the mask token id, and no tokenized verbalizers are cached yet |
| Processors.AdeCorpusV2.Target | src/data/processors.py:30-31 | definition: `example["Label"]` |
| Processors.AdeCorpusV2.Verbalizers | src/data/processors.py:89-90 | the two label words are the gold-file names for ade_corpus_v2, positive first |
| Processors.AdeCorpusV2.TokenizeAll | src/data/processors.py:45-48 | one singleton list of token ids per word, aligned with the words |
| Processors.AdeCorpusV2.TokenizedVerbalizers | src/data/processors.py:33-49 | the first call computes and caches the tokenization of the label words; a later call returns the cached value unchanged; the cache never disagrees with the words |
| Processors.AdeCorpusV2.ClassificationParts | src/data/processors.py:74-75 | the sentence with no second text, the same text the prompt opens with |
| Processors.AdeCorpusV2.PartsWithSettingMasks | src/data/processors.py:59-68 | a result exactly for the codes "0" to "3"; the result is a rearrangement of part 0, part 1 and the masks, nothing lost or added, and it starts with part 0 |
| Processors.MaskLayout | src/data/processors.py:59-68 | the four codes in order: "0" and "3" put the masks last and "1" and "2" between the parts; "0" and "1" leave the second list empty and "2" and "3" make the first list part 0 alone |
| Processors.AdeCorpusV2.PromptParts | src/data/processors.py:84-87 | the sentence (shortenable), "It's", `mask_length` masks, then "."; no second text |
| Processors.AdeCorpusV2.SentenceParts | src/data/processors.py:77-82 | without a pattern, the sentence followed by `mask_length` masks; with one, the patterned prompt |
| Processors.PromptExtendsPlain | src/data/processors.py:77-87 | the patterned prompt is the plain one with "It's" inserted after the sentence and "." appended |
| Processors.GetProcessor | src/data/processors.py:110-125 | a fresh, configured processor exactly for the registered name ade_corpus_v2, none otherwise; its pad token id is the tokenizer's mask token id and its mask token the tokenizer's mask token |
| Tasks.Find | src/data/tasks.py:117-118 | nothing exactly when the name is not a key; otherwise the class registered under it |
| Tasks.RegistryTable | src/data/tasks.py:97-111 | eleven distinct names, each class's `task` equal to its key, 77 labels for banking_77, 3 for one_stop_english and 2 for the others |
| Tasks.GetTask | src/data/tasks.py:114-128 | a descriptor exactly for a registered name, carrying that name, its label count, the accuracy metric and the caller's seed and directories |
| Tasks.Permuting | src/data/tasks.py:29 | definition: the shuffle returns a reordering of every pool, as the library's seeded shuffle does |
| Tasks.Shuffled | src/data/tasks.py:29 | definition: the library's shuffle, which returns an empty dataset as it is |
| Tasks.Select | src/data/tasks.py:30-31 | the library's `select` of a range: it raises exactly when a non-empty dataset is shorter than the range; an empty dataset is returned as it is; otherwise the rows in the range |
| Tasks.SplitDatasets | src/data/tasks.py:28-32 | for a shuffle that permutes the pool, it raises exactly when `train` is missing or holds 1 to 49 rows; without `train` it raises with nothing changed; an empty pool makes `train` and `validation` empty without raising; with 1 to 24 shuffled rows it raises with nothing changed; with 25 to 49 it raises after `train` became rows 0–24; otherwise `train` is rows 0–24, `validation` rows 25–49; every other split is untouched |
| Tasks.GetDatasets | src/data/tasks.py:34-39 | for a shuffle that permutes the pool, as the library's does: it raises exactly when `train` is missing or holds 1 to 49 rows, and otherwise `train` and `validation` are as after the split |
| Tasks.SplitShape | src/data/tasks.py:30-31 | after a split both new splits hold 25 rows, together they are the first 50 shuffled rows, and other splits are as loaded |
| Tasks.FewShotSplitDisjoint | src/data/tasks.py:29-31 | when the pool has no repeated row and the shuffle permutes it, the training and validation rows share no row and all come from the pool |
| Evaluation.ReadGoldRow | src/data/eval_results.py:12 | the ID of a gold row is the first cell of its line, read with the missing-value rule |
| Evaluation.NonBlank | src/data/eval_results.py:12 | the lines that are read are non-empty, and a file without empty lines is read whole |
| Evaluation.NonBlankAppend | src/data/eval_results.py:12 | skipping empty lines works line by line: a file cut in two reads as its two halves |
| Evaluation.ReadRows | src/data/eval_results.py:12 | the first read line is the header, and every later line gives one gold row, in order |
| Evaluation.ReadGoldFile | src/data/eval_results.py:12 | after the empty lines are skipped, one gold row per line after the header, in order |
| Evaluation.BlankLineSkipped | src/data/eval_results.py:12 | an empty line anywhere in a gold file changes nothing that is read |
| Evaluation.BinaryReadable | src/data/download_test_set.py:28 | two comma-free names that are not missing-value strings make a readable binary verbalizer |
| Evaluation.ReadableNames | src/data/download_test_set.py:28 | the label names of ade_corpus_v2, twitter_complaints, tweet_eval_hate, overruling and terms_of_service contain no comma and are not read as missing |
| Evaluation.CategoriesReadable | src/data/download_test_set.py:158 | the one_stop_english reading levels contain no comma and are not read as missing |
| Evaluation.RecoveredRowReadsBack | src/data/eval_results.py:12-15 | a written line reads back with its ID; its label is missing exactly when it is `null`, and otherwise is the written name |
| Evaluation.DownloadedFileReadsBack | src/data/eval_results.py:12-15 | a complete download of a readable dataset reads back row for row; a row survives `dropna` exactly when its label was recovered, and it keeps that label |
| Evaluation.Kept | src/data/eval_results.py:15 | definition: `dropna` keeps a row when neither cell is missing |
| Evaluation.MatchAt | src/data/eval_results.py:15-16 | definition: a kept gold row whose label equals the prediction at its row position |
| Evaluation.KeptCount | src/data/eval_results.py:15-16 | the number of rows `dropna` keeps never exceeds the number of rows |
| Evaluation.KeptCountIsSetSize | src/data/eval_results.py:16 | the kept count equals the number of positions whose row has both cells |
| Evaluation.MatchCount | src/data/eval_results.py:15-16 | the correctly predicted rows never outnumber the kept rows |
| Evaluation.MatchCountIsSetSize | src/data/eval_results.py:16 | the running count equals the number of positions whose kept gold label equals the prediction in the same position |
| Evaluation.MatchesWithinKept | src/data/eval_results.py:15-16 | over a whole file the correct rows never outnumber the kept rows |
| Evaluation.IsFraction | src/data/eval_results.py:16 | definition: `q × k = m` |
| Evaluation.Ratio | src/data/eval_results.py:16 | m out of k, for 0 < m <= k: times k it gives m, and it lies in (0, 1] |
| Evaluation.Accuracy | src/data/eval_results.py:16 | `value_counts()[True] / shape[0]`: KeyError exactly when there is no correct row, otherwise the fraction of correct rows, in (0, 1] |
| Evaluation.Score | src/data/eval_results.py:15-16 | KeyError exactly when no kept row is predicted correctly; otherwise score × kept rows = correct rows, with the score in (0, 1] |
| Evaluation.Eval | src/data/eval_results.py:6-18 | 0 when either file is missing; otherwise the score of the two files, and any score lies in [0, 1] |
| Evaluation.DroppedRowIgnored | src/data/eval_results.py:15 | the prediction for a row that `dropna` removed never changes the score |
| Evaluation.WorkedExample | src/data/eval_results.py:15-16 | gold labels overruling, not overruling and a missing one, against predictions overruling, overruling, not overruling, score 1/2 |
| Evaluation.AlignmentExample | src/data/eval_results.py:15 | after a dropped first row, gold row 2 meets prediction 2, and a submission listing only the kept rows is misaligned |
| Evaluation.Total | src/data/eval_results.py:44 | definition: `sum(accuracy_list.values())` |
| Evaluation.TotalBounds | src/data/eval_results.py:44 | the sum of scores in [0, 1] lies between 0 and their number |
| Evaluation.EvaluateAll | src/data/eval_results.py:21-44 | the datasets are scored in the listed order, and the run fails exactly when some dataset raises; otherwise every dataset has its own score, and the overall score is their mean, in [0, 1] |

## Left out

- Dataset downloads, `pd.read_csv` of reference tables, file creation and writing, `os.makedirs`, and the progress bar are not modelled. Corpora, test sets and file contents are parameters; a gold file is its list of lines.
- The downloader's `main` is not modelled as a separate member. It only calls six of the seven routines in turn, with the twitter_complaints call commented out; each routine is `Download` with its configuration.
- `LabelRecovery.Download`: when a lookup raises, the model returns the lines written so far. The source leaves a partly written, unclosed file and stops the whole script.
- `Evaluation.ReadableNames`: the 77 banking_77 intent names are not proved free of commas and missing-value strings. Only their number and the absence of `null` are proved (`NameTables`), because the literal table is too large for the solver.
- `Evaluation.ReadGoldRow`: a line with more than two cells is read by its first two. pandas would shift or reject it; no downloaded line with a readable name has more than two cells.
- `Evaluation.ReadGoldFile`: a quoted cell such as `"a,b"` is one cell for pandas but two here. No downloaded line holds a quote, because its label is a name or `null` and its ID a number.
- `Evaluation.ReadGoldFile`: an empty file makes pandas raise `EmptyDataError`; here it reads as no rows. Gold files are written with a header, so they are never empty.
- `Evaluation.ReadGoldFile`: only empty lines are skipped. pandas also skips lines of whitespace alone; no downloaded line is one.
- Column types: `read_csv` may convert numeric-looking label columns to numbers. The model compares labels as text.
- Scores are exact rationals (`real`), not floating-point numbers. A missing file scores the integer 0 in the source and 0.0 here.
- `Evaluation.Eval`: a predictions file without a `Label` column, and extra prediction columns colliding with `ID`, are not modelled. Predictions are the `Label` column by row position.
- `eval_results.py` `main` reads its path from the command line or a prompt, and prints each score. Both are left out. The path is replaced by the two file maps.
- `Processors.AdeCorpusV2.TokenizedVerbalizers`: the tokenizer and `get_verbalization_ids` are external. They are an opaque function in the model.
- The processor's `get_extra_fields` always returns an empty dictionary, and the abstract base class's empty members have no behaviour to model.
- `Text`'s `shortenable` flag is taken to default to false for segments built without it; src/data/utils.py, which defines `Text`, is not part of this model.
- `Tasks.SplitDatasets`: the shuffle is a parameter, since it belongs to the dataset library; it is only required to reorder the pool, so which order a seed gives is not modelled. The library's `select` past the end of a non-empty dataset is modelled as the raise, and its early return for an empty dataset as returning it unchanged.
- `load_datasets` (a network download) and the label-distribution counters of `get_datasets`, which are computed and discarded, are not modelled.
- The exact exception types and messages of the error paths are not modelled, including the misformatted ValueError message. The model only distinguishes success from failure.
