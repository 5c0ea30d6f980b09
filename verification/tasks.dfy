/**
 * The RAFT task registry and its few-shot split (src/data/tasks.py).
 *
 * Every task is a descriptor with a name, a label count, a metric list and the
 * caller's seed and directories; `SplitDatasets` replaces the `train` and
 * `validation` splits of a loaded dataset dictionary with the first 25 and the
 * next 25 rows of the shuffled training pool. Dataset loading and shuffling
 * belong to the dataset library: the shuffle is a parameter.
 */
module Tasks {
  import opened Wrappers

  datatype Metric = Accuracy

  /** The metric list every task inherits from the RAFT base class. */
  const DefaultMetric: seq<Metric> := [Accuracy]

  /** A registered task class: its `task` name and its `num_labels`. */
  datatype TaskClass = TaskClass(task: string, numLabels: nat)

  /** TASK_MAPPING, in registration order. */
  const TaskMapping: seq<(string, TaskClass)> := [
    ("ade_corpus_v2", TaskClass("ade_corpus_v2", 2)),
    ("banking_77", TaskClass("banking_77", 77)),
    ("neurips_impact_statement_risks", TaskClass("neurips_impact_statement_risks", 2)),
    ("one_stop_english", TaskClass("one_stop_english", 3)),
    ("overruling", TaskClass("overruling", 2)),
    ("semiconductor_org_types", TaskClass("semiconductor_org_types", 2)),
    ("systematic_review_inclusion", TaskClass("systematic_review_inclusion", 2)),
    ("tai_safety_research", TaskClass("tai_safety_research", 2)),
    ("terms_of_service", TaskClass("terms_of_service", 2)),
    ("tweet_eval_hate", TaskClass("tweet_eval_hate", 2)),
    ("twitter_complaints", TaskClass("twitter_complaints", 2))
  ]

  /** A task descriptor as AutoTask.get builds it. */
  datatype Raft = Raft(
    task: string,
    numLabels: nat,
    metric: seq<Metric>,
    dataSeed: int,
    cacheDir: string,
    dataDir: Option<string>)

  predicate Registered(name: string)
  {
    exists i :: 0 <= i < |TaskMapping| && TaskMapping[i].0 == name
  }

  /** The label count the registry promises for a task name. */
  function ExpectedNumLabels(name: string): nat
  {
    if name == "banking_77" then 77 else if name == "one_stop_english" then 3 else 2
  }

  /** Dictionary lookup in an insertion-ordered mapping. */
  function Find(mapping: seq<(string, TaskClass)>, name: string): (r: Option<TaskClass>)
    ensures r.None? <==> forall i :: 0 <= i < |mapping| ==> mapping[i].0 != name
    ensures r.Some? ==> exists i :: 0 <= i < |mapping| && mapping[i] == (name, r.value)
  {
    if mapping == [] then None
    else if mapping[0].0 == name then Some(mapping[0].1)
    else Find(mapping[1..], name)
  }

  /** The registry holds eleven distinct names, each class's `task` equals its key,
      and the label counts are 77 for banking_77, 3 for one_stop_english, 2 otherwise. */
  lemma RegistryTable()
    ensures |TaskMapping| == 11
    ensures forall i, j :: 0 <= i < j < |TaskMapping| ==> TaskMapping[i].0 != TaskMapping[j].0
    ensures forall i :: 0 <= i < |TaskMapping| ==> TaskMapping[i].1.task == TaskMapping[i].0
    ensures forall i :: 0 <= i < |TaskMapping| ==>
      TaskMapping[i].1.numLabels == ExpectedNumLabels(TaskMapping[i].0)
  {
  }

  /** AutoTask.get: the descriptor of a registered task, carrying the caller's seed and
      directories and the registry's name and label count; nothing for any other name. */
  function GetTask(name: string, dataSeed: int, cacheDir: string, dataDir: Option<string>): (r: Option<Raft>)
    ensures r.Some? <==> Registered(name)
    ensures r.Some? ==> r.value == Raft(name, ExpectedNumLabels(name), DefaultMetric, dataSeed, cacheDir, dataDir)
  {
    RegistryTable();
    match Find(TaskMapping, name)
    case None => None
    case Some(cls) => Some(Raft(cls.task, cls.numLabels, DefaultMetric, dataSeed, cacheDir, dataDir))
  }

  /** A dataset dictionary from split names to their rows, updated in place. */
  class DatasetDict<T> {
    var splits: map<string, seq<T>>

    constructor (splits: map<string, seq<T>>)
      ensures this.splits == splits
    {
      this.splits := splits;
    }
  }

  /** A seeded shuffle that reorders the rows of every pool, as the library's does. */
  ghost predicate Permuting<T(!new)>(shuffle: (seq<T>, int) -> seq<T>)
  {
    forall pool: seq<T>, seed: int :: multiset(shuffle(pool, seed)) == multiset(pool)
  }

  /** The library's seeded `shuffle`: an empty dataset is returned as it is, any other
      is reordered by the shuffle given as a parameter. */
  function Shuffled<T>(pool: seq<T>, seed: int, shuffle: (seq<T>, int) -> seq<T>): seq<T>
  {
    if |pool| == 0 then pool else shuffle(pool, seed)
  }

  /** The library's `select` of the positions lo..hi-1: an empty dataset is returned as
      it is, and a position past the end of any other raises. */
  function Select<T>(rows: seq<T>, lo: nat, hi: nat): (r: Option<seq<T>>)
    requires lo <= hi
    ensures r.None? <==> 0 < |rows| < hi
    ensures r.Some? && |rows| == 0 ==> r.value == []
    ensures r.Some? && |rows| > 0 ==> |r.value| == hi - lo && r.value == rows[lo..hi]
  {
    if |rows| == 0 then Some(rows)
    else if hi <= |rows| then Some(rows[lo..hi])
    else None
  }

  /** split_datasets: shuffle the training pool with the task's seed, then overwrite
      `train` with its rows 0..24 and `validation` with its rows 25..49. A missing
      `train` split raises before anything changes; selecting past the end of a
      non-empty shuffled pool raises, after `train` was overwritten when only the
      second selection fails; an empty pool makes both splits empty. Every other split
      is left as it was. */
  method SplitDatasets<T(!new)>(task: Raft, datasets: DatasetDict<T>, shuffle: (seq<T>, int) -> seq<T>)
    returns (raised: bool)
    requires Permuting(shuffle)
    modifies datasets
    ensures raised <==> "train" !in old(datasets.splits) || 0 < |old(datasets.splits)["train"]| < 50
    ensures "train" !in old(datasets.splits) ==> raised && datasets.splits == old(datasets.splits)
    ensures "train" in old(datasets.splits) ==>
      var shuffled := Shuffled(old(datasets.splits)["train"], task.dataSeed, shuffle);
      && (raised <==> 0 < |shuffled| < 50)
      && datasets.splits == (
        if |shuffled| == 0 then old(datasets.splits)["train" := []]["validation" := []]
        else if |shuffled| < 25 then old(datasets.splits)
        else if |shuffled| < 50 then old(datasets.splits)["train" := shuffled[..25]]
        else old(datasets.splits)["train" := shuffled[..25]]["validation" := shuffled[25..50]])
  {
    if "train" !in datasets.splits {
      return true;
    }
    var shuffled := Shuffled(datasets.splits["train"], task.dataSeed, shuffle);
    assert |shuffled| == |datasets.splits["train"]| by {
      assert multiset(shuffled) == multiset(datasets.splits["train"]);
      assert |multiset(shuffled)| == |multiset(datasets.splits["train"])|;
    }
    var train := Select(shuffled, 0, 25);
    if train.None? {
      return true;
    }
    datasets.splits := datasets.splits["train" := train.value];
    var validation := Select(shuffled, 25, 50);
    if validation.None? {
      return true;
    }
    datasets.splits := datasets.splits["validation" := validation.value];
    return false;
  }

  /** get_datasets: wrap the loaded splits in a dictionary and split it; the label
      distributions it tallies afterwards are discarded and not modelled. */
  method GetDatasets<T(!new)>(task: Raft, loaded: map<string, seq<T>>, shuffle: (seq<T>, int) -> seq<T>)
    returns (datasets: DatasetDict<T>, raised: bool)
    requires Permuting(shuffle)
    ensures fresh(datasets)
    ensures raised <==> "train" !in loaded || 0 < |Shuffled(loaded["train"], task.dataSeed, shuffle)| < 50
    ensures raised <==> "train" !in loaded || 0 < |loaded["train"]| < 50
    ensures !raised ==>
      var shuffled := Shuffled(loaded["train"], task.dataSeed, shuffle);
      datasets.splits == (
        if |shuffled| == 0 then loaded["train" := []]["validation" := []]
        else loaded["train" := shuffled[..25]]["validation" := shuffled[25..50]])
  {
    datasets := new DatasetDict(loaded);
    raised := SplitDatasets(task, datasets, shuffle);
  }

  /** After a successful split, `train` and `validation` hold 25 rows each and every
      other split is the one that was loaded. */
  lemma SplitShape<T>(before: map<string, seq<T>>, shuffled: seq<T>, key: string)
    requires |shuffled| >= 50
    ensures var after := before["train" := shuffled[..25]]["validation" := shuffled[25..50]];
      && |after["train"]| == 25 && |after["validation"]| == 25
      && after["train"] + after["validation"] == shuffled[..50]
      && (key != "train" && key != "validation" ==>
            (key in after <==> key in before) && (key in before ==> after[key] == before[key]))
  {
    var after := before["train" := shuffled[..25]]["validation" := shuffled[25..50]];
    assert after["train"] + after["validation"] == shuffled[..50];
  }

  predicate Distinct<T(==)>(s: seq<T>)
  {
    forall i, j :: 0 <= i < j < |s| ==> s[i] != s[j]
  }

  /** In a sequence without repetitions every value occurs at most once. */
  lemma {:induction false} DistinctOccursOnce<T>(s: seq<T>, x: T)
    requires Distinct(s)
    ensures multiset(s)[x] <= 1
  {
    if s != [] {
      assert s == [s[0]] + s[1..];
      assert Distinct(s[1..]) by {
        forall i, j | 0 <= i < j < |s[1..]| ensures s[1..][i] != s[1..][j] {
          assert s[1..][i] == s[i + 1] && s[1..][j] == s[j + 1];
        }
      }
      DistinctOccursOnce(s[1..], x);
      if s[0] == x {
        assert x !in s[1..] by {
          forall k | 0 <= k < |s[1..]| ensures s[1..][k] != x {
            assert s[1..][k] == s[k + 1];
          }
        }
      }
    }
  }

  /** When the pool has no repeated row and the shuffle is a permutation of it, the
      25 training and 25 validation rows share no row and all come from the pool. */
  lemma FewShotSplitDisjoint<T>(pool: seq<T>, shuffled: seq<T>)
    requires |pool| >= 50 && Distinct(pool)
    requires multiset(shuffled) == multiset(pool)
    ensures |shuffled| >= 50
    ensures forall x :: x in shuffled[..25] ==> x !in shuffled[25..50]
    ensures multiset(shuffled[..25]) + multiset(shuffled[25..50]) <= multiset(pool)
  {
    assert |shuffled| == |multiset(shuffled)| == |pool|;
    var train, validation, rest := shuffled[..25], shuffled[25..50], shuffled[50..];
    assert shuffled == train + validation + rest;
    assert multiset(shuffled) == multiset(train) + multiset(validation) + multiset(rest);
    forall x | x in train
      ensures x !in validation
    {
      DistinctOccursOnce(pool, x);
      assert multiset(train)[x] >= 1;
    }
  }
}
