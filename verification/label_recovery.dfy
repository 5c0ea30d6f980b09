/**
 * Gold-label recovery for the RAFT test sets (src/data/download_test_set.py).
 *
 * Each `download_*` routine walks the benchmark's test rows in order, looks the
 * row's text up in a labelled reference corpus by exact string equality, turns
 * the numeric label it finds into the dataset's label name (or the sentinel
 * "null"), and writes one `id,label` line per row after an `ID,Label` header.
 * The seven routines differ only in two choices, which `Recovery` records:
 * how the corpus is searched (`Source`) and how a label becomes a name
 * (`Verbalizer`). `Download` is the shared row loop; `ProbeSplits` is the
 * split-probing loop with its early `break`.
 */
module LabelRecovery {
  import opened Wrappers
  import Csv

  /** The label written when a test sentence cannot be matched. */
  const Null := "null"

  /** The first line of every gold-label file. */
  const Header := "ID,Label"

  /** One labelled row of a reference corpus: its text field and its numeric label. */
  datatype Row = Row(text: string, labelId: int)

  /** One benchmark test row: its `ID` and the text field that is looked up. */
  datatype TestRow = TestRow(id: int, sentence: string)

  /** The exception that escapes a download loop: a label outside a name list. */
  datatype Error = IndexError

  /** How a numeric label becomes a label name. */
  datatype Verbalizer =
    | BinaryNames(positive: string, negative: string)  // label 1 gives `positive`, any other label `negative`
    | IndexedNames(names: seq<string>)                 // label k gives `names[k]`, with Python indexing

  /** How the reference data is searched for a test sentence. */
  datatype Source =
    | Lookup(corpus: seq<Row>)       // `list.index` on one corpus, a miss gives "null"
    | Probe(splits: seq<seq<Row>>)   // `list.index` on each split in turn until a name is found
    | Unique(table: seq<Row>)        // a name only when exactly one row has the text

  datatype Recovery = Recovery(source: Source, verbalizer: Verbalizer)

  predicate Absent(corpus: seq<Row>, sentence: string)
  {
    forall j :: 0 <= j < |corpus| ==> corpus[j].text != sentence
  }

  /** `k` is the position of the first row whose text equals `sentence`. */
  predicate IsFirstMatch(corpus: seq<Row>, sentence: string, k: int)
  {
    && 0 <= k < |corpus|
    && corpus[k].text == sentence
    && forall j :: 0 <= j < k ==> corpus[j].text != sentence
  }

  /** `k` is the only row whose text equals `sentence`. */
  predicate IsOnlyMatch(table: seq<Row>, sentence: string, k: int)
  {
    && 0 <= k < |table|
    && table[k].text == sentence
    && forall j :: 0 <= j < |table| && j != k ==> table[j].text != sentence
  }

  /** Python's `texts.index(sentence)`: the first equal position, or the ValueError case. */
  function IndexOf(corpus: seq<Row>, sentence: string): (r: Option<nat>)
    ensures r.None? <==> Absent(corpus, sentence)
    ensures r.Some? ==> IsFirstMatch(corpus, sentence, r.value)
  {
    if corpus == [] then None
    else if corpus[0].text == sentence then Some(0)
    else
      match IndexOf(corpus[1..], sentence)
      case None => None
      case Some(k) => Some(k + 1)
  }

  /** The positions of every row whose text equals `sentence`, in increasing order
      (the rows pandas' `table.loc[table.text == sentence]` selects). */
  function MatchIndices(table: seq<Row>, sentence: string): (r: seq<nat>)
    ensures forall a :: 0 <= a < |r| ==> r[a] < |table| && table[r[a]].text == sentence
    ensures forall j :: 0 <= j < |table| && table[j].text == sentence ==> j in r
    ensures forall a, b :: 0 <= a < b < |r| ==> r[a] < r[b]
    decreases |table|
  {
    if table == [] then []
    else
      var n := |table| - 1;
      MatchIndices(table[..n], sentence) + (if table[n].text == sentence then [n] else [])
  }

  /** Python's `names[i]`: negative positions count from the end, others raise IndexError. */
  function PyIndex(names: seq<string>, i: int): (r: Result<string, Error>)
    ensures r.Success? <==> -|names| <= i < |names|
    ensures 0 <= i < |names| ==> r == Success(names[i])
    ensures -|names| <= i < 0 ==> r == Success(names[|names| + i])
    ensures r.Success? ==> r.value in names
  {
    if 0 <= i < |names| then Success(names[i])
    else if -|names| <= i < 0 then Success(names[|names| + i])
    else Failure(IndexError)
  }

  /** The label names a verbalizer can produce. */
  function Names(v: Verbalizer): set<string>
  {
    match v
    case BinaryNames(positive, negative) => {positive, negative}
    case IndexedNames(names) => set t | t in names
  }

  /** Everything that may appear in the label column: a name or the sentinel. */
  function Labels(v: Verbalizer): set<string>
  {
    Names(v) + {Null}
  }

  function Verbalize(v: Verbalizer, labelId: int): (r: Result<string, Error>)
    ensures r.Success? ==> r.value in Names(v)
    ensures v.BinaryNames? ==> r.Success?
  {
    match v
    case BinaryNames(positive, negative) => Success(if labelId == 1 then positive else negative)
    case IndexedNames(names) => PyIndex(names, labelId)
  }

  /** The `try: index ... except ValueError: "null"` lookup in one corpus. */
  function LookupToken(corpus: seq<Row>, sentence: string, v: Verbalizer): (r: Result<string, Error>)
    ensures Absent(corpus, sentence) ==> r == Success(Null)
    ensures forall k :: IsFirstMatch(corpus, sentence, k) ==> r == Verbalize(v, corpus[k].labelId)
  {
    match IndexOf(corpus, sentence)
    case None => Success(Null)
    case Some(k) => Verbalize(v, corpus[k].labelId)
  }

  /** The split-probing loop: the first split that yields a name other than "null" decides. */
  function ProbeToken(splits: seq<seq<Row>>, sentence: string, v: Verbalizer): Result<string, Error>
    decreases |splits|
  {
    if splits == [] then Success(Null)
    else
      match LookupToken(splits[0], sentence, v)
      case Failure(e) => Failure(e)
      case Success(t) => if t != Null then Success(t) else ProbeToken(splits[1..], sentence, v)
  }

  /** The exactly-one rule: a name only when a single row of the table has the text. */
  function UniqueToken(table: seq<Row>, sentence: string, v: Verbalizer): Result<string, Error>
  {
    var matches := MatchIndices(table, sentence);
    if |matches| == 1 then Verbalize(v, table[matches[0]].labelId) else Success(Null)
  }

  /** The label a test row receives, or the exception its lookup raises. */
  function RowToken(rec: Recovery, sentence: string): Result<string, Error>
  {
    match rec.source
    case Lookup(corpus) => LookupToken(corpus, sentence, rec.verbalizer)
    case Probe(splits) => ProbeToken(splits, sentence, rec.verbalizer)
    case Unique(table) => UniqueToken(table, sentence, rec.verbalizer)
  }

  predicate CommaFree(v: Verbalizer)
  {
    forall t :: t in Names(v) ==> ',' !in t
  }

  // ---------------------------------------------------------------------------
  // The seven datasets

  /** The 77 banking_77 intents, indexed by label. The table is written in groups of
      eight so that the solver handles each literal on its own. */
  const Intent: seq<string> :=
    Intent0
    + Intent1
    + Intent2
    + Intent3
    + Intent4
    + Intent5
    + Intent6
    + Intent7
    + Intent8
    + Intent9

  const Intent0: seq<string> := [
    "activate_my_card", "age_limit",
    "apple_pay_or_google_pay", "atm_support",
    "automatic_top_up", "balance_not_updated_after_bank_transfer",
    "balance_not_updated_after_cheque_or_cash_deposit", "beneficiary_not_allowed"
  ]
  const Intent1: seq<string> := [
    "cancel_transfer", "card_about_to_expire",
    "card_acceptance", "card_arrival",
    "card_delivery_estimate", "card_linking",
    "card_not_working", "card_payment_fee_charged"
  ]
  const Intent2: seq<string> := [
    "card_payment_not_recognised", "card_payment_wrong_exchange_rate",
    "card_swallowed", "cash_withdrawal_charge",
    "cash_withdrawal_not_recognised", "change_pin",
    "compromised_card", "contactless_not_working"
  ]
  const Intent3: seq<string> := [
    "country_support", "declined_card_payment",
    "declined_cash_withdrawal", "declined_transfer",
    "direct_debit_payment_not_recognised", "disposable_card_limits",
    "edit_personal_details", "exchange_charge"
  ]
  const Intent4: seq<string> := [
    "exchange_rate", "exchange_via_app",
    "extra_charge_on_statement", "failed_transfer",
    "fiat_currency_support", "get_disposable_virtual_card",
    "get_physical_card", "getting_spare_card"
  ]
  const Intent5: seq<string> := [
    "getting_virtual_card", "lost_or_stolen_card",
    "lost_or_stolen_phone", "order_physical_card",
    "passcode_forgotten", "pending_card_payment",
    "pending_cash_withdrawal", "pending_top_up"
  ]
  const Intent6: seq<string> := [
    "pending_transfer", "pin_blocked",
    "receiving_money", "Refund_not_showing_up",
    "request_refund", "reverted_card_payment",
    "supported_cards_and_currencies", "terminate_account"
  ]
  const Intent7: seq<string> := [
    "top_up_by_bank_transfer_charge", "top_up_by_card_charge",
    "top_up_by_cash_or_cheque", "top_up_failed",
    "top_up_limits", "top_up_reverted",
    "topping_up_by_card", "transaction_charged_twice"
  ]
  const Intent8: seq<string> := [
    "transfer_fee_charged", "transfer_into_account",
    "transfer_not_received_by_recipient", "transfer_timing",
    "unable_to_verify_identity", "verify_my_identity",
    "verify_source_of_funds", "verify_top_up"
  ]
  const Intent9: seq<string> := [
    "virtual_card_not_working", "visa_or_mastercard",
    "why_verify_identity", "wrong_amount_of_cash_received",
    "wrong_exchange_rate_for_cash_withdrawal"
  ]

  const Categories: seq<string> := ["elementary", "intermediate", "advanced"]

  const AdeNames := BinaryNames("ADE-related", "not ADE-related")
  const IntentNames := IndexedNames(Intent)
  const CategoryNames := IndexedNames(Categories)
  const ComplaintNames := BinaryNames("complaint", "no complaint")
  const HateNames := BinaryNames("hate speech", "not hate speech")
  const OverrulingNames := BinaryNames("overruling", "not overruling")
  const UnfairNames := BinaryNames("potentially unfair", "not potentially unfair")

  /** download_ade_corpus_v2: the `train` split of ade_corpus_v2, searched with `index`. */
  function AdeCorpusV2(corpus: seq<Row>): Recovery
  {
    Recovery(Lookup(corpus), AdeNames)
  }

  /** download_banking_77: the `train` split, then the `test` split. */
  function Banking77(train: seq<Row>, test: seq<Row>): Recovery
  {
    Recovery(Probe([train, test]), IntentNames)
  }

  /** download_one_stop_english: the `train` split of onestop_english. */
  function OneStopEnglish(corpus: seq<Row>): Recovery
  {
    Recovery(Lookup(corpus), CategoryNames)
  }

  /** download_twitter_complaints: `train`, `validation`, `test`, labels from the `feeling` column. */
  function TwitterComplaints(train: seq<Row>, validation: seq<Row>, test: seq<Row>): Recovery
  {
    Recovery(Probe([train, validation, test]), ComplaintNames)
  }

  /** download_tweet_eval_hate: `train`, `validation`, `test` of tweet_eval/hate. */
  function TweetEvalHate(train: seq<Row>, validation: seq<Row>, test: seq<Row>): Recovery
  {
    Recovery(Probe([train, validation, test]), HateNames)
  }

  /** download_overruling: the `sentence1` column of data/overruling.csv. */
  function Overruling(table: seq<Row>): Recovery
  {
    Recovery(Unique(table), OverrulingNames)
  }

  /** download_terms_of_service: the `text` column of data/terms_of_service.csv. */
  function TermsOfService(table: seq<Row>): Recovery
  {
    Recovery(Unique(table), UnfairNames)
  }

  // ---------------------------------------------------------------------------
  // The loops

  /** The split-probing loop of banking_77, twitter_complaints and tweet_eval_hate. */
  method ProbeSplits(splits: seq<seq<Row>>, sentence: string, v: Verbalizer) returns (r: Result<string, Error>)
    ensures r == ProbeToken(splits, sentence, v)
  {
    var token := Null;
    var i := 0;
    while i < |splits|
      invariant 0 <= i <= |splits|
      invariant token == Null ==> ProbeToken(splits, sentence, v) == ProbeToken(splits[i..], sentence, v)
      invariant token != Null ==> ProbeToken(splits, sentence, v) == Success(token)
    {
      if token != Null {
        break;
      }
      assert splits[i..][0] == splits[i] && splits[i..][1..] == splits[i + 1..];
      match IndexOf(splits[i], sentence) {
        case None =>
        case Some(k) =>
          var named := Verbalize(v, splits[i][k].labelId);
          if named.Failure? {
            return Failure(named.error);
          }
          token := named.value;
      }
      i := i + 1;
    }
    return Success(token);
  }

  /** The label of one test row: the probing datasets run the split loop, the others
      apply their single lookup. */
  method RowLabel(rec: Recovery, sentence: string) returns (token: Result<string, Error>)
    ensures token == RowToken(rec, sentence)
  {
    if rec.source.Probe? {
      token := ProbeSplits(rec.source.splits, sentence, rec.verbalizer);
    } else {
      token := RowToken(rec, sentence);
    }
  }

  /** Every line after the header is the line of the test row at the same position,
      written with that row's recovered label. */
  predicate WrittenInOrder(rec: Recovery, testSet: seq<TestRow>, lines: seq<string>)
  {
    && 1 <= |lines| <= |testSet| + 1
    && forall i :: 0 <= i < |lines| - 1 ==>
      && RowToken(rec, testSet[i].sentence).Success?
      && lines[i + 1] == Csv.RowLine(testSet[i].id, RowToken(rec, testSet[i].sentence).value)
  }

  /** Every line after the header has two cells, the second one of the labels. */
  predicate TwoCells(v: Verbalizer, lines: seq<string>)
  {
    forall i :: 1 <= i < |lines| ==>
      && |Csv.Cells(lines[i])| == 2
      && Csv.Cells(lines[i])[1] in Labels(v)
  }

  /** Appending the line of the next test row keeps the file in order. */
  lemma WriteNext(rec: Recovery, testSet: seq<TestRow>, lines: seq<string>, token: string)
    requires WrittenInOrder(rec, testSet, lines) && |lines| <= |testSet|
    requires RowToken(rec, testSet[|lines| - 1].sentence) == Success(token)
    ensures WrittenInOrder(rec, testSet, lines + [Csv.RowLine(testSet[|lines| - 1].id, token)])
  {
    var next := lines + [Csv.RowLine(testSet[|lines| - 1].id, token)];
    forall i | 0 <= i < |next| - 1
      ensures RowToken(rec, testSet[i].sentence).Success?
      ensures next[i + 1] == Csv.RowLine(testSet[i].id, RowToken(rec, testSet[i].sentence).value)
    {
      if i + 1 < |lines| {
        assert next[i + 1] == lines[i + 1];
      }
    }
  }

  /** Appending a line whose label is one of the names keeps every line two cells. */
  lemma WriteCells(v: Verbalizer, lines: seq<string>, id: int, token: string)
    requires TwoCells(v, lines) && CommaFree(v) && token in Labels(v)
    ensures TwoCells(v, lines + [Csv.RowLine(id, token)])
  {
    var next := lines + [Csv.RowLine(id, token)];
    assert forall i :: 0 <= i < |lines| ==> next[i] == lines[i];
    assert ',' !in token;
    Csv.RowLineCells(id, token);
  }

  /** One `download_*` routine: the header, then one line per test row in order.
      When a row's lookup raises, the lines written so far are returned with `raised`. */
  method Download(rec: Recovery, testSet: seq<TestRow>) returns (lines: seq<string>, raised: bool)
    ensures 1 <= |lines| <= |testSet| + 1 && lines[0] == Header
    ensures raised <==> |lines| <= |testSet|
    ensures forall i :: 0 <= i < |lines| - 1 ==>
      && RowToken(rec, testSet[i].sentence).Success?
      && lines[i + 1] == Csv.RowLine(testSet[i].id, RowToken(rec, testSet[i].sentence).value)
    ensures raised ==> RowToken(rec, testSet[|lines| - 1].sentence).Failure?
    ensures rec.verbalizer.BinaryNames? ==> !raised
    ensures CommaFree(rec.verbalizer) ==> forall i :: 1 <= i < |lines| ==>
      && |Csv.Cells(lines[i])| == 2
      && Csv.Cells(lines[i])[1] in Labels(rec.verbalizer)
  {
    lines := [Header];
    var i := 0;
    while i < |testSet|
      invariant 0 <= i <= |testSet|
      invariant |lines| == i + 1 && lines[0] == Header
      invariant WrittenInOrder(rec, testSet, lines)
      invariant CommaFree(rec.verbalizer) ==> TwoCells(rec.verbalizer, lines)
    {
      var row := testSet[i];
      var token := RowLabel(rec, row.sentence);
      RowTokenLabels(rec, row.sentence);
      if token.Failure? {
        return lines, true;
      }
      WriteNext(rec, testSet, lines, token.value);
      if CommaFree(rec.verbalizer) {
        WriteCells(rec.verbalizer, lines, row.id, token.value);
      }
      lines := lines + [Csv.RowLine(row.id, token.value)];
      i := i + 1;
    }
    return lines, false;
  }

  // ---------------------------------------------------------------------------
  // Properties of the lookups

  /** A probe yields "null", one of the verbalizer's names, or the exception;
      a binary verbalizer never raises. */
  lemma {:induction false} ProbeTokenLabels(splits: seq<seq<Row>>, sentence: string, v: Verbalizer)
    ensures ProbeToken(splits, sentence, v).Success? ==> ProbeToken(splits, sentence, v).value in Labels(v)
    ensures v.BinaryNames? ==> ProbeToken(splits, sentence, v).Success?
    decreases |splits|
  {
    if splits != [] {
      ProbeTokenLabels(splits[1..], sentence, v);
    }
  }

  /** Every label a row can receive is one of the dataset's names or exactly "null". */
  lemma RowTokenLabels(rec: Recovery, sentence: string)
    ensures RowToken(rec, sentence).Success? ==> RowToken(rec, sentence).value in Labels(rec.verbalizer)
    ensures rec.verbalizer.BinaryNames? ==> RowToken(rec, sentence).Success?
  {
    if rec.source.Probe? {
      ProbeTokenLabels(rec.source.splits, sentence, rec.verbalizer);
    }
  }

  /** The first split that contains the sentence decides the label, provided that
      split's lookup gives something other than "null". */
  lemma {:induction false} ProbeFirstHit(splits: seq<seq<Row>>, sentence: string, v: Verbalizer, j: nat)
    requires j < |splits|
    requires forall a :: 0 <= a < j ==> Absent(splits[a], sentence)
    requires LookupToken(splits[j], sentence, v) != Success(Null)
    ensures ProbeToken(splits, sentence, v) == LookupToken(splits[j], sentence, v)
    decreases j
  {
    if j > 0 {
      assert Absent(splits[0], sentence);
      ProbeFirstHit(splits[1..], sentence, v, j - 1);
    }
  }

  /** Once a prefix of the splits decides the label, later splits are never consulted. */
  lemma {:induction false} ProbeIgnoresLaterSplits(front: seq<seq<Row>>, rest: seq<seq<Row>>, sentence: string, v: Verbalizer)
    requires ProbeToken(front, sentence, v) != Success(Null)
    ensures ProbeToken(front + rest, sentence, v) == ProbeToken(front, sentence, v)
    decreases |front|
  {
    assert front != [];
    assert (front + rest)[0] == front[0];
    assert (front + rest)[1..] == front[1..] + rest;
    if LookupToken(front[0], sentence, v) == Success(Null) {
      ProbeIgnoresLaterSplits(front[1..], rest, sentence, v);
    }
  }

  /** A sentence found in no split gets "null". */
  lemma {:induction false} ProbeAbsentIsNull(splits: seq<seq<Row>>, sentence: string, v: Verbalizer)
    requires forall a :: 0 <= a < |splits| ==> Absent(splits[a], sentence)
    ensures ProbeToken(splits, sentence, v) == Success(Null)
    decreases |splits|
  {
    if splits != [] {
      ProbeAbsentIsNull(splits[1..], sentence, v);
    }
  }

  /** With a single matching row, the selection is exactly that row. */
  lemma {:induction false} OnlyMatchSelected(table: seq<Row>, sentence: string, k: nat)
    requires IsOnlyMatch(table, sentence, k)
    ensures MatchIndices(table, sentence) == [k]
    decreases |table|
  {
    var n := |table| - 1;
    var front := table[..n];
    assert MatchIndices(table, sentence)
      == MatchIndices(front, sentence) + (if table[n].text == sentence then [n] else []);
    if k == n {
      assert Absent(front, sentence) by {
        forall j | 0 <= j < |front|
          ensures front[j].text != sentence
        {
          assert front[j] == table[j];
        }
      }
      NoMatchSelectsNothing(front, sentence);
    } else {
      assert table[n].text != sentence;
      assert IsOnlyMatch(front, sentence, k) by {
        forall j | 0 <= j < |front| && j != k
          ensures front[j].text != sentence
        {
          assert front[j] == table[j];
        }
      }
      OnlyMatchSelected(front, sentence, k);
    }
  }

  /** With no matching row, the selection is empty. */
  lemma {:induction false} NoMatchSelectsNothing(table: seq<Row>, sentence: string)
    requires Absent(table, sentence)
    ensures MatchIndices(table, sentence) == []
    decreases |table|
  {
    if table != [] {
      NoMatchSelectsNothing(table[..|table| - 1], sentence);
    }
  }

  /** The exactly-one rule names the label of the only matching row. */
  lemma OnlyMatchNamed(table: seq<Row>, sentence: string, v: Verbalizer, k: nat)
    requires IsOnlyMatch(table, sentence, k)
    ensures UniqueToken(table, sentence, v) == Verbalize(v, table[k].labelId)
  {
    OnlyMatchSelected(table, sentence, k);
  }

  /** Two rows with the text make the exactly-one rule give "null". */
  lemma AmbiguousMatchIsNull(table: seq<Row>, sentence: string, v: Verbalizer, i: nat, j: nat)
    requires i < j < |table|
    requires table[i].text == sentence && table[j].text == sentence
    ensures UniqueToken(table, sentence, v) == Success(Null)
  {
    var m := MatchIndices(table, sentence);
    assert i in m && j in m;
    var a :| 0 <= a < |m| && m[a] == i;
    var b :| 0 <= b < |m| && m[b] == j;
    assert a != b;
  }

  /** No row with the text makes the exactly-one rule give "null". */
  lemma AbsentUniqueIsNull(table: seq<Row>, sentence: string, v: Verbalizer)
    requires Absent(table, sentence)
    ensures UniqueToken(table, sentence, v) == Success(Null)
  {
    NoMatchSelectsNothing(table, sentence);
  }

  // ---------------------------------------------------------------------------
  // The datasets' rules

  /** The intent table has the 77 banking_77 classes and none of them is the sentinel;
      likewise for the three reading levels. */
  lemma NameTables()
    ensures |Intent| == 77 && Null !in Intent
    ensures |Categories| == 3 && Null !in Categories
  {
    IntentHeadNotNull();
    IntentTailNotNull();
  }

  /** The literal facts the intent table rests on, five chunks at a time. */
  lemma IntentHeadNotNull()
    ensures Null !in Intent0 && Null !in Intent1 && Null !in Intent2
    ensures Null !in Intent3 && Null !in Intent4
  {
    assert Null !in Intent0 && Null !in Intent1;
    assert Null !in Intent2 && Null !in Intent3;
  }

  lemma IntentTailNotNull()
    ensures Null !in Intent5 && Null !in Intent6 && Null !in Intent7
    ensures Null !in Intent8 && Null !in Intent9
  {
    assert Null !in Intent5 && Null !in Intent6;
    assert Null !in Intent7 && Null !in Intent8;
  }

  /** ade_corpus_v2: the first corpus row with the text decides; label 1 is "ADE-related". */
  lemma AdeCorpusV2Label(corpus: seq<Row>, sentence: string)
    ensures Absent(corpus, sentence) ==> RowToken(AdeCorpusV2(corpus), sentence) == Success(Null)
    ensures forall k :: IsFirstMatch(corpus, sentence, k) ==>
      RowToken(AdeCorpusV2(corpus), sentence)
        == Success(if corpus[k].labelId == 1 then "ADE-related" else "not ADE-related")
  {
  }

  /** one_stop_english: label k of the first matching row names `Categories[k]`. */
  lemma OneStopEnglishLabel(corpus: seq<Row>, sentence: string)
    ensures Absent(corpus, sentence) ==> RowToken(OneStopEnglish(corpus), sentence) == Success(Null)
    ensures forall k :: IsFirstMatch(corpus, sentence, k) ==>
      RowToken(OneStopEnglish(corpus), sentence) == PyIndex(Categories, corpus[k].labelId)
  {
  }

  /** banking_77: a hit in `train` decides without consulting `test`; only a sentence
      absent from `train` is looked up in `test`. */
  lemma Banking77Label(train: seq<Row>, test: seq<Row>, sentence: string)
    ensures forall k :: IsFirstMatch(train, sentence, k) ==>
      RowToken(Banking77(train, test), sentence) == PyIndex(Intent, train[k].labelId)
    ensures forall k :: Absent(train, sentence) && IsFirstMatch(test, sentence, k) ==>
      RowToken(Banking77(train, test), sentence) == PyIndex(Intent, test[k].labelId)
    ensures Absent(train, sentence) && Absent(test, sentence) ==>
      RowToken(Banking77(train, test), sentence) == Success(Null)
  {
    NameTables();
    var splits := [train, test];
    forall k | IsFirstMatch(train, sentence, k)
      ensures RowToken(Banking77(train, test), sentence) == PyIndex(Intent, train[k].labelId)
    {
      ProbeFirstHit(splits, sentence, IntentNames, 0);
    }
    forall k | Absent(train, sentence) && IsFirstMatch(test, sentence, k)
      ensures RowToken(Banking77(train, test), sentence) == PyIndex(Intent, test[k].labelId)
    {
      ProbeFirstHit(splits, sentence, IntentNames, 1);
    }
    if Absent(train, sentence) && Absent(test, sentence) {
      ProbeAbsentIsNull(splits, sentence, IntentNames);
    }
  }

  /** The `train`, `validation`, `test` probing order shared by the two tweet datasets:
      the first split holding the sentence decides, with label 1 naming `positive`. */
  lemma ThreeSplitLabel(train: seq<Row>, validation: seq<Row>, test: seq<Row>, sentence: string, positive: string, negative: string)
    requires positive != Null && negative != Null
    ensures var token := ProbeToken([train, validation, test], sentence, BinaryNames(positive, negative));
      && (forall k :: IsFirstMatch(train, sentence, k) ==>
            token == Success(if train[k].labelId == 1 then positive else negative))
      && (forall k :: Absent(train, sentence) && IsFirstMatch(validation, sentence, k) ==>
            token == Success(if validation[k].labelId == 1 then positive else negative))
      && (forall k :: Absent(train, sentence) && Absent(validation, sentence) && IsFirstMatch(test, sentence, k) ==>
            token == Success(if test[k].labelId == 1 then positive else negative))
      && (Absent(train, sentence) && Absent(validation, sentence) && Absent(test, sentence) ==>
            token == Success(Null))
  {
    var splits, v := [train, validation, test], BinaryNames(positive, negative);
    forall k | IsFirstMatch(train, sentence, k)
      ensures ProbeToken(splits, sentence, v) == Success(if train[k].labelId == 1 then positive else negative)
    {
      ProbeFirstHit(splits, sentence, v, 0);
    }
    forall k | Absent(train, sentence) && IsFirstMatch(validation, sentence, k)
      ensures ProbeToken(splits, sentence, v) == Success(if validation[k].labelId == 1 then positive else negative)
    {
      ProbeFirstHit(splits, sentence, v, 1);
    }
    forall k | Absent(train, sentence) && Absent(validation, sentence) && IsFirstMatch(test, sentence, k)
      ensures ProbeToken(splits, sentence, v) == Success(if test[k].labelId == 1 then positive else negative)
    {
      ProbeFirstHit(splits, sentence, v, 2);
    }
    if Absent(train, sentence) && Absent(validation, sentence) && Absent(test, sentence) {
      ProbeAbsentIsNull(splits, sentence, v);
    }
  }

  /** tweet_eval_hate probes `train`, `validation`, `test`; label 1 is "hate speech". */
  lemma TweetEvalHateLabel(train: seq<Row>, validation: seq<Row>, test: seq<Row>, sentence: string)
    ensures RowToken(TweetEvalHate(train, validation, test), sentence)
      == ProbeToken([train, validation, test], sentence, BinaryNames("hate speech", "not hate speech"))
    ensures forall k :: IsFirstMatch(train, sentence, k) ==>
      RowToken(TweetEvalHate(train, validation, test), sentence)
        == Success(if train[k].labelId == 1 then "hate speech" else "not hate speech")
    ensures Absent(train, sentence) && Absent(validation, sentence) && Absent(test, sentence) ==>
      RowToken(TweetEvalHate(train, validation, test), sentence) == Success(Null)
  {
    ThreeSplitLabel(train, validation, test, sentence, "hate speech", "not hate speech");
  }

  /** twitter_complaints probes `train`, `validation`, `test`; `feeling` 1 is "complaint". */
  lemma TwitterComplaintsLabel(train: seq<Row>, validation: seq<Row>, test: seq<Row>, sentence: string)
    ensures RowToken(TwitterComplaints(train, validation, test), sentence)
      == ProbeToken([train, validation, test], sentence, BinaryNames("complaint", "no complaint"))
    ensures forall k :: IsFirstMatch(train, sentence, k) ==>
      RowToken(TwitterComplaints(train, validation, test), sentence)
        == Success(if train[k].labelId == 1 then "complaint" else "no complaint")
    ensures Absent(train, sentence) && Absent(validation, sentence) && Absent(test, sentence) ==>
      RowToken(TwitterComplaints(train, validation, test), sentence) == Success(Null)
  {
    ThreeSplitLabel(train, validation, test, sentence, "complaint", "no complaint");
  }

  /** overruling: a name only when exactly one row of the table has the sentence. */
  lemma OverrulingLabel(table: seq<Row>, sentence: string)
    ensures forall k :: IsOnlyMatch(table, sentence, k) ==>
      RowToken(Overruling(table), sentence)
        == Success(if table[k].labelId == 1 then "overruling" else "not overruling")
    ensures forall i, j :: 0 <= i < j < |table| && table[i].text == sentence && table[j].text == sentence ==>
      RowToken(Overruling(table), sentence) == Success(Null)
    ensures Absent(table, sentence) ==> RowToken(Overruling(table), sentence) == Success(Null)
  {
    UniqueRule(table, sentence, OverrulingNames);
  }

  /** terms_of_service: a name only when exactly one row of the table has the sentence. */
  lemma TermsOfServiceLabel(table: seq<Row>, sentence: string)
    ensures forall k :: IsOnlyMatch(table, sentence, k) ==>
      RowToken(TermsOfService(table), sentence)
        == Success(if table[k].labelId == 1 then "potentially unfair" else "not potentially unfair")
    ensures forall i, j :: 0 <= i < j < |table| && table[i].text == sentence && table[j].text == sentence ==>
      RowToken(TermsOfService(table), sentence) == Success(Null)
    ensures Absent(table, sentence) ==> RowToken(TermsOfService(table), sentence) == Success(Null)
  {
    UniqueRule(table, sentence, UnfairNames);
  }

  /** The three cases of the exactly-one rule, for any verbalizer. */
  lemma UniqueRule(table: seq<Row>, sentence: string, v: Verbalizer)
    ensures forall k :: IsOnlyMatch(table, sentence, k) ==>
      UniqueToken(table, sentence, v) == Verbalize(v, table[k].labelId)
    ensures forall i, j :: 0 <= i < j < |table| && table[i].text == sentence && table[j].text == sentence ==>
      UniqueToken(table, sentence, v) == Success(Null)
    ensures Absent(table, sentence) ==> UniqueToken(table, sentence, v) == Success(Null)
  {
    forall k | IsOnlyMatch(table, sentence, k)
      ensures UniqueToken(table, sentence, v) == Verbalize(v, table[k].labelId)
    {
      OnlyMatchNamed(table, sentence, v, k);
    }
    forall i, j | 0 <= i < j < |table| && table[i].text == sentence && table[j].text == sentence
      ensures UniqueToken(table, sentence, v) == Success(Null)
    {
      AmbiguousMatchIsNull(table, sentence, v, i, j);
    }
    if Absent(table, sentence) {
      AbsentUniqueIsNull(table, sentence, v);
    }
  }

  /** Matching is exact: a change of case or a trailing space is a miss. */
  lemma MatchIsExact()
    ensures RowToken(AdeCorpusV2([Row("Rash after aspirin.", 1)]), "Rash after aspirin.") == Success("ADE-related")
    ensures RowToken(AdeCorpusV2([Row("Rash after aspirin.", 1)]), "rash after aspirin.") == Success(Null)
    ensures RowToken(AdeCorpusV2([Row("Rash after aspirin.", 1)]), "Rash after aspirin. ") == Success(Null)
    ensures RowToken(Overruling([Row("We overrule it.", 1)]), "We  overrule it.") == Success(Null)
  {
    var text := "Rash after aspirin.";
    assert text != "rash after aspirin." by { assert text[0] != "rash after aspirin."[0]; }
    assert "We overrule it." != "We  overrule it." by { assert |"We overrule it."| != |"We  overrule it."|; }
    AbsentUniqueIsNull([Row("We overrule it.", 1)], "We  overrule it.", OverrulingNames);
  }
}
