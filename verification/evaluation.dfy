/**
 * The scoring script: for each dataset, read the gold test file and the submitted
 * predictions, drop the gold rows that have a missing cell, pair every remaining row
 * with the prediction at the same row position, and score the fraction of rows whose
 * predicted label equals the gold label. The overall score is the mean over the fixed
 * list of eleven datasets.
 *
 * The file system is modelled by two maps from dataset name to an already-parsed
 * file: the gold rows of `data/test/<name>.csv` and the `Label` column of
 * `<results>/<name>/predictions.csv`. A name absent from a map is a missing file.
 */
module Evaluation {
  import opened Wrappers
  import Csv
  import LabelRecovery

  /** A gold row as pandas reads it: each cell, or None when it is a missing value. */
  datatype GoldRow = GoldRow(id: Option<string>, goldLabel: Option<string>)

  /** `value_counts()[True]` on a frame without a single correct prediction. */
  datatype EvalError = KeyError

  const DatasetList: seq<string> := [
    "ade_corpus_v2", "banking_77", "neurips_impact_statement_risks", "one_stop_english",
    "overruling", "semiconductor_org_types", "systematic_review_inclusion",
    "tai_safety_research", "terms_of_service", "tweet_eval_hate", "twitter_complaints"
  ]

  // ---------------------------------------------------------------------------
  // Reading a downloaded test file

  /** One data line of a gold file: its first cell is the ID, its second the label;
      a line with a single cell has a missing label. */
  function ReadGoldRow(line: string): (r: GoldRow)
    ensures r.id == Csv.ReadCell(Csv.Cells(line)[0])
  {
    var cells := Csv.Cells(line);
    GoldRow(Csv.ReadCell(cells[0]), if |cells| >= 2 then Csv.ReadCell(cells[1]) else None)
  }

  /** The lines `read_csv` reads at all: empty lines are skipped, the others keep
      their order. */
  function NonBlank(lines: seq<string>): (r: seq<string>)
    ensures |r| <= |lines|
    ensures forall k :: 0 <= k < |r| ==> r[k] != ""
    ensures (forall k :: 0 <= k < |lines| ==> lines[k] != "") ==> r == lines
  {
    if lines == [] then []
    else (if lines[0] == "" then [] else [lines[0]]) + NonBlank(lines[1..])
  }

  /** The lines that are read: the first is the header naming the columns, every
      later line is a row. */
  function ReadRows(read: seq<string>): (r: seq<GoldRow>)
    ensures |r| == (if |read| == 0 then 0 else |read| - 1)
    ensures forall i :: 0 <= i < |r| ==> r[i] == ReadGoldRow(read[i + 1])
  {
    if |read| <= 1 then [] else seq(|read| - 1, i requires 0 <= i < |read| - 1 => ReadGoldRow(read[i + 1]))
  }

  /** A whole gold file: the empty lines are skipped, then the header and the rows
      are read. */
  function ReadGoldFile(lines: seq<string>): (r: seq<GoldRow>)
    ensures var read := NonBlank(lines);
      && |r| == (if |read| == 0 then 0 else |read| - 1)
      && forall i :: 0 <= i < |r| ==> r[i] == ReadGoldRow(read[i + 1])
  {
    ReadRows(NonBlank(lines))
  }

  /** An empty line between two rows changes nothing that is read. */
  lemma BlankLineSkipped(before: seq<string>, after: seq<string>)
    ensures ReadGoldFile(before + [""] + after) == ReadGoldFile(before + after)
  {
    var blank: seq<string> := [""];
    assert NonBlank(blank + after) == NonBlank(after) by {
      assert blank[1..] == [];
      assert NonBlank(blank) == [];
      NonBlankAppend(blank, after);
    }
    assert NonBlank(before + blank + after) == NonBlank(before + after) by {
      assert before + blank + after == before + (blank + after);
      NonBlankAppend(before, blank + after);
      NonBlankAppend(before, after);
    }
  }

  lemma {:induction false} NonBlankAppend(a: seq<string>, b: seq<string>)
    ensures NonBlank(a + b) == NonBlank(a) + NonBlank(b)
  {
    if a != [] {
      assert (a + b)[1..] == a[1..] + b;
      NonBlankAppend(a[1..], b);
    } else {
      assert a + b == b;
    }
  }

  /** A verbalizer whose names survive the file format: no name holds the cell
      separator, and none is one of the strings read as a missing value. */
  predicate Readable(v: LabelRecovery.Verbalizer)
  {
    && LabelRecovery.CommaFree(v)
    && forall t :: t in LabelRecovery.Names(v) ==> t !in Csv.NaValues
  }

  /** Two names that are readable make a readable binary verbalizer. */
  lemma BinaryReadable(positive: string, negative: string)
    requires ',' !in positive && ',' !in negative
    requires positive !in Csv.NaValues && negative !in Csv.NaValues
    ensures Readable(LabelRecovery.BinaryNames(positive, negative))
  {
  }

  /** The literal facts the readability of the binary verbalizers rests on. */
  lemma BinaryNamesCommaFree()
    ensures ',' !in "ADE-related" && ',' !in "not ADE-related"
    ensures ',' !in "complaint" && ',' !in "no complaint"
    ensures ',' !in "hate speech" && ',' !in "not hate speech"
    ensures ',' !in "overruling" && ',' !in "not overruling"
    ensures ',' !in "potentially unfair" && ',' !in "not potentially unfair"
  {
  }

  lemma BinaryNamesPresent()
    ensures "ADE-related" !in Csv.NaValues && "not ADE-related" !in Csv.NaValues
    ensures "complaint" !in Csv.NaValues && "no complaint" !in Csv.NaValues
    ensures "hate speech" !in Csv.NaValues && "not hate speech" !in Csv.NaValues
    ensures "overruling" !in Csv.NaValues && "not overruling" !in Csv.NaValues
    ensures "potentially unfair" !in Csv.NaValues && "not potentially unfair" !in Csv.NaValues
  {
  }

  /** The label names of the five datasets with a binary verbalizer are readable. */
  lemma ReadableNames()
    ensures Readable(LabelRecovery.AdeNames)
    ensures Readable(LabelRecovery.ComplaintNames)
    ensures Readable(LabelRecovery.HateNames)
    ensures Readable(LabelRecovery.OverrulingNames)
    ensures Readable(LabelRecovery.UnfairNames)
  {
    BinaryNamesCommaFree();
    BinaryNamesPresent();
    BinaryReadable("ADE-related", "not ADE-related");
    BinaryReadable("complaint", "no complaint");
    BinaryReadable("hate speech", "not hate speech");
    BinaryReadable("overruling", "not overruling");
    BinaryReadable("potentially unfair", "not potentially unfair");
  }

  /** The reading-level names of one_stop_english are readable. */
  lemma CategoriesReadable()
    ensures Readable(LabelRecovery.CategoryNames)
  {
    var categories := {"elementary", "intermediate", "advanced"};
    assert LabelRecovery.Names(LabelRecovery.CategoryNames) == categories;
    assert forall t :: t in categories ==> ',' !in t && t !in Csv.NaValues;
  }

  /** A written line reads back as its ID and its label, the sentinel "null" as a
      missing label, and a name of a readable verbalizer as itself. */
  lemma RecoveredRowReadsBack(v: LabelRecovery.Verbalizer, id: int, token: string)
    requires Readable(v) && token in LabelRecovery.Labels(v)
    ensures var row := ReadGoldRow(Csv.RowLine(id, token));
      && row.id == Some(Csv.IntToString(id))
      && (row.goldLabel.None? <==> token == LabelRecovery.Null)
      && (row.goldLabel.Some? ==> row.goldLabel.value == token)
  {
    assert ',' !in token;
    Csv.RowLineCells(id, token);
    Csv.IdCellNeverMissing(id);
  }

  /** A complete download of a readable dataset reads back row by row: every row keeps
      its ID, and the rows evaluation keeps are exactly those whose label was recovered,
      each with that label. */
  lemma DownloadedFileReadsBack(rec: LabelRecovery.Recovery, testSet: seq<LabelRecovery.TestRow>, lines: seq<string>)
    requires Readable(rec.verbalizer)
    requires |lines| == |testSet| + 1 && lines[0] == LabelRecovery.Header
    requires forall i :: 0 <= i < |testSet| ==>
      && LabelRecovery.RowToken(rec, testSet[i].sentence).Success?
      && lines[i + 1] == Csv.RowLine(testSet[i].id, LabelRecovery.RowToken(rec, testSet[i].sentence).value)
    ensures var gold := ReadGoldFile(lines);
      && |gold| == |testSet|
      && forall i :: 0 <= i < |testSet| ==>
        var token := LabelRecovery.RowToken(rec, testSet[i].sentence).value;
        && gold[i].id == Some(Csv.IntToString(testSet[i].id))
        && (Kept(gold[i]) <==> token != LabelRecovery.Null)
        && (Kept(gold[i]) ==> gold[i].goldLabel == Some(token))
  {
    forall k | 0 <= k < |lines|
      ensures lines[k] != ""
    {
      if k > 0 {
        assert |Csv.RowLine(testSet[k - 1].id, LabelRecovery.RowToken(rec, testSet[k - 1].sentence).value)| > 0;
      }
    }
    assert NonBlank(lines) == lines;
    var gold := ReadGoldFile(lines);
    forall i | 0 <= i < |testSet|
      ensures var token := LabelRecovery.RowToken(rec, testSet[i].sentence).value;
        && gold[i].id == Some(Csv.IntToString(testSet[i].id))
        && (Kept(gold[i]) <==> token != LabelRecovery.Null)
        && (Kept(gold[i]) ==> gold[i].goldLabel == Some(token))
    {
      LabelRecovery.RowTokenLabels(rec, testSet[i].sentence);
      RecoveredRowReadsBack(rec.verbalizer, testSet[i].id, LabelRecovery.RowToken(rec, testSet[i].sentence).value);
    }
  }

  // ---------------------------------------------------------------------------
  // Scoring one dataset

  /** `dropna()` keeps a row only when neither of its cells is missing. */
  predicate Kept(row: GoldRow)
  {
    row.id.Some? && row.goldLabel.Some?
  }

  /** After the index join, gold row `i` meets the prediction at row position `i`
      (missing when the predictions are shorter or the cell holds one of the
      missing-value strings); the row scores
      when it was kept and the two labels are equal. */
  predicate MatchAt(gold: seq<GoldRow>, preds: seq<Option<string>>, i: nat)
    requires i < |gold|
  {
    Kept(gold[i]) && i < |preds| && preds[i] == gold[i].goldLabel
  }

  /** The number of rows `dropna()` keeps: the frame's `shape[0]`. */
  function KeptCount(gold: seq<GoldRow>): (n: nat)
    ensures n <= |gold|
  {
    if gold == [] then 0
    else KeptCount(gold[..|gold| - 1]) + (if Kept(gold[|gold| - 1]) then 1 else 0)
  }

  /** The positions of the kept rows, the reference definition of `shape[0]`. */
  ghost function KeptSet(gold: seq<GoldRow>): set<nat>
  {
    set i: nat | i < |gold| && Kept(gold[i])
  }

  /** The kept count is the number of kept positions. */
  lemma {:induction false} KeptCountIsSetSize(gold: seq<GoldRow>)
    ensures KeptCount(gold) == |KeptSet(gold)|
  {
    if gold != [] {
      var front := gold[..|gold| - 1];
      KeptCountIsSetSize(front);
      var before := KeptSet(front);
      assert |gold| - 1 !in before;
      assert forall i: nat :: i < |front| ==> front[i] == gold[i];
      if Kept(gold[|gold| - 1]) {
        assert KeptSet(gold) == before + {|gold| - 1};
      } else {
        assert KeptSet(gold) == before;
      }
    }
  }

  /** The number of scoring rows among the first `n` gold rows; a scoring row is kept,
      so there are never more of them than kept rows. */
  function MatchCount(gold: seq<GoldRow>, preds: seq<Option<string>>, n: nat): (m: nat)
    requires n <= |gold|
    ensures m <= KeptCount(gold[..n])
  {
    if n == 0 then 0
    else
      assert gold[..n][..n - 1] == gold[..n - 1];
      MatchCount(gold, preds, n - 1) + (if MatchAt(gold, preds, n - 1) then 1 else 0)
  }

  /** The positions of the scoring rows, the reference definition of the count. */
  ghost function MatchSet(gold: seq<GoldRow>, preds: seq<Option<string>>, n: nat): set<nat>
    requires n <= |gold|
  {
    set i: nat | i < n && MatchAt(gold, preds, i)
  }

  /** The running count is the number of scoring positions. */
  lemma {:induction false} MatchCountIsSetSize(gold: seq<GoldRow>, preds: seq<Option<string>>, n: nat)
    requires n <= |gold|
    ensures MatchCount(gold, preds, n) == |MatchSet(gold, preds, n)|
  {
    if n > 0 {
      MatchCountIsSetSize(gold, preds, n - 1);
      var before := MatchSet(gold, preds, n - 1);
      assert n - 1 !in before;
      if MatchAt(gold, preds, n - 1) {
        assert MatchSet(gold, preds, n) == before + {n - 1};
      } else {
        assert MatchSet(gold, preds, n) == before;
      }
    }
  }

  /** `q` is the fraction `m` out of `k`: `q * k == m`. */
  predicate IsFraction(q: real, m: nat, k: nat)
  {
    q * (k as real) == m as real
  }

  /** The score of one pair of present files: the fraction of kept rows that score, a
      value in (0, 1]; the KeyError when no kept row scores. */
  function Score(gold: seq<GoldRow>, preds: seq<Option<string>>): (r: Result<real, EvalError>)
    ensures var m := MatchCount(gold, preds, |gold|);
      && (r.Failure? <==> m == 0)
      && (r.Success? ==> IsFraction(r.value, m, KeptCount(gold)) && 0.0 < r.value <= 1.0)
  {
    MatchesWithinKept(gold, preds);
    Accuracy(MatchCount(gold, preds, |gold|), KeptCount(gold))
  }

  /** `value_counts()[True] / shape[0]` for `matches` correct rows out of `kept`. */
  function Accuracy(matches: nat, kept: nat): (r: Result<real, EvalError>)
    requires matches <= kept
    ensures r.Failure? <==> matches == 0
    ensures r.Success? ==> IsFraction(r.value, matches, kept) && 0.0 < r.value <= 1.0
  {
    if matches == 0 then Failure(KeyError) else Success(Ratio(matches, kept))
  }

  /** Over the whole file there are never more scoring rows than kept rows. */
  lemma MatchesWithinKept(gold: seq<GoldRow>, preds: seq<Option<string>>)
    ensures MatchCount(gold, preds, |gold|) <= KeptCount(gold)
  {
    assert gold[..|gold|] == gold;
  }

  /** `eval`: 0 when either file is missing, otherwise the score of the two files. */
  function Eval(name: string, goldFiles: map<string, seq<GoldRow>>, predictionFiles: map<string, seq<Option<string>>>)
    : (r: Result<real, EvalError>)
    ensures name !in goldFiles || name !in predictionFiles ==> r == Success(0.0)
    ensures name in goldFiles && name in predictionFiles ==> r == Score(goldFiles[name], predictionFiles[name])
    ensures r.Success? ==> 0.0 <= r.value <= 1.0
  {
    if name !in goldFiles || name !in predictionFiles then Success(0.0)
    else Score(goldFiles[name], predictionFiles[name])
  }

  /** The accuracy of `m` correct rows out of `k` kept ones. */
  function Ratio(m: nat, k: nat): (q: real)
    requires 0 < m <= k
    ensures q * (k as real) == m as real
    ensures 0.0 < q <= 1.0
  {
    var q := m as real / k as real;
    assert q * (k as real) == m as real;
    q
  }

  /** A row that `dropna()` removes does not influence the score, whatever its
      prediction says. */
  lemma {:induction false} DroppedRowIgnored(gold: seq<GoldRow>, preds: seq<Option<string>>, i: nat, p: Option<string>, n: nat)
    requires i < |gold| && i < |preds| && !Kept(gold[i]) && n <= |gold|
    ensures MatchCount(gold, preds[i := p], n) == MatchCount(gold, preds, n)
  {
    if n > 0 {
      DroppedRowIgnored(gold, preds, i, p, n - 1);
      assert MatchAt(gold, preds[i := p], n - 1) == MatchAt(gold, preds, n - 1);
    }
  }

  /** The gold file `1,overruling`, `2,not overruling`, `3,null` (its third label reads
      as missing) against the predictions overruling, overruling, not overruling: the
      third row is dropped and the first of the two kept rows is right, so the score is
      one half. */
  lemma WorkedExample()
    ensures Eval("overruling",
      map["overruling" := [GoldRow(Some("1"), Some("overruling")), GoldRow(Some("2"), Some("not overruling")),
                           GoldRow(Some("3"), None)]],
      map["overruling" := [Some("overruling"), Some("overruling"), Some("not overruling")]]) == Success(0.5)
  {
    var gold := [GoldRow(Some("1"), Some("overruling")), GoldRow(Some("2"), Some("not overruling")), GoldRow(Some("3"), None)];
    var preds: seq<Option<string>> := [Some("overruling"), Some("overruling"), Some("not overruling")];
    assert gold[..2][..1] == gold[..1];
    assert gold[..2] == gold[..1] + [gold[1]];
    assert KeptCount(gold) == 2;
    assert MatchCount(gold, preds, 3) == 1;
  }

  /** The join pairs rows by their original position, not by their rank among the
      kept rows: after a dropped first row, the second gold row meets the second
      prediction, and a submission that lists only kept rows is misaligned. */
  lemma AlignmentExample()
    ensures Eval("tweet_eval_hate",
      map["tweet_eval_hate" := [GoldRow(Some("0"), None), GoldRow(Some("1"), Some("hate speech"))]],
      map["tweet_eval_hate" := [Some("not hate speech"), Some("hate speech")]]) == Success(1.0)
    ensures Eval("tweet_eval_hate",
      map["tweet_eval_hate" := [GoldRow(Some("0"), None), GoldRow(Some("1"), Some("hate speech"))]],
      map["tweet_eval_hate" := [Some("hate speech")]]) == Failure(KeyError)
  {
    var gold := [GoldRow(Some("0"), None), GoldRow(Some("1"), Some("hate speech"))];
    assert gold[..1] == [gold[0]];
    assert KeptCount(gold) == 1;
  }

  // ---------------------------------------------------------------------------
  // The overall score

  /** The scores printed per dataset and their mean. */
  datatype Report = Report(scores: seq<(string, real)>, overall: real)

  function Total(scores: seq<(string, real)>): real
  {
    if scores == [] then 0.0 else Total(scores[..|scores| - 1]) + scores[|scores| - 1].1
  }

  /** The sum of scores in [0, 1] lies between 0 and their number. */
  lemma {:induction false} TotalBounds(scores: seq<(string, real)>)
    requires forall i :: 0 <= i < |scores| ==> 0.0 <= scores[i].1 <= 1.0
    ensures 0.0 <= Total(scores) <= |scores| as real
  {
    if scores != [] {
      TotalBounds(scores[..|scores| - 1]);
    }
  }

  /** `main`: score every listed dataset in order; the first KeyError ends the run.
      Otherwise every dataset has its score, and the overall score is their mean,
      itself in [0, 1]. */
  method EvaluateAll(goldFiles: map<string, seq<GoldRow>>, predictionFiles: map<string, seq<Option<string>>>)
    returns (r: Result<Report, EvalError>)
    ensures r.Failure? <==> exists k :: 0 <= k < |DatasetList| && Eval(DatasetList[k], goldFiles, predictionFiles).Failure?
    ensures r.Success? ==>
      && |r.value.scores| == |DatasetList|
      && (forall k :: 0 <= k < |DatasetList| ==>
            r.value.scores[k] == (DatasetList[k], Eval(DatasetList[k], goldFiles, predictionFiles).value))
      && r.value.overall == Total(r.value.scores) / (|DatasetList| as real)
      && 0.0 <= r.value.overall <= 1.0
  {
    var scores: seq<(string, real)> := [];
    var k := 0;
    while k < |DatasetList|
      invariant 0 <= k <= |DatasetList| && |scores| == k
      invariant forall j :: 0 <= j < k ==>
        && Eval(DatasetList[j], goldFiles, predictionFiles).Success?
        && scores[j] == (DatasetList[j], Eval(DatasetList[j], goldFiles, predictionFiles).value)
      invariant forall j :: 0 <= j < k ==> 0.0 <= scores[j].1 <= 1.0
    {
      var name := DatasetList[k];
      var score := Eval(name, goldFiles, predictionFiles);
      if score.Failure? {
        return Failure(score.error);
      }
      scores := scores + [(name, score.value)];
      k := k + 1;
    }
    TotalBounds(scores);
    r := Success(Report(scores, Total(scores) / (|DatasetList| as real)));
  }
}
