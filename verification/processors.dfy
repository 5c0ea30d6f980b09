/**
 * Prompt assembly for cloze-style classification (src/data/processors.py).
 *
 * A processor turns a RAFT example into two lists of prompt segments (the
 * second one empty for single-sentence tasks) with mask tokens placed where
 * the model must predict, and lists the task's label words (verbalizers).
 * The only registered processor is the one for ade_corpus_v2; the members of
 * the abstract base class that it inherits are modelled on it directly.
 */
module Processors {
  import opened Wrappers
  import LabelRecovery

  /** A prompt segment: its text, and whether it may be shortened to fit the input length. */
  datatype Text = Text(text: string, shortenable: bool)

  /** The parts of a tokenizer a processor uses: the mask token, its id, and the
      (opaque) lookup from a label word to its token ids. */
  datatype Tokenizer = Tokenizer(maskToken: string, maskTokenId: int, verbalizationIds: string -> seq<int>)

  /** An ade_corpus_v2 example: its `ID`, `Sentence` and `Label` fields. */
  datatype Example = Example(id: int, sentence: string, labelId: int)

  /** Python's `n * [x]`: n copies of x, and none when n is not positive. */
  function Repeat<T>(n: int, x: T): (r: seq<T>)
    ensures |r| == if n < 0 then 0 else n
    ensures forall i :: 0 <= i < |r| ==> r[i] == x
    decreases if n < 0 then 0 else n
  {
    if n <= 0 then [] else [x] + Repeat(n - 1, x)
  }

  /** The mask-position codes `get_parts_with_setting_masks` recognises. */
  const MaskPositions: set<Option<string>> := {Some("0"), Some("1"), Some("2"), Some("3")}

  /** The names registered in PROCESSOR_MAPPING. */
  const ProcessorNames: seq<string> := ["ade_corpus_v2"]

  /** The ade_corpus_v2 processor. Its configuration is fixed at construction;
      the tokenized verbalizers are computed on first use and then kept. */
  class AdeCorpusV2 {
    const tokenizer: Tokenizer
    const padTokenId: int
    const maskToken: string
    const withPattern: bool
    const patternId: Option<int>
    const maskPosition: Option<string>
    var tokenizedVerbalizers: Option<seq<seq<seq<int>>>>

    /** A cached value is always the tokenization of the current verbalizers. */
    ghost predicate Valid()
      reads this
    {
      tokenizedVerbalizers.Some? ==> tokenizedVerbalizers.value == TokenizeAll(Verbalizers())
    }

    constructor (tokenizer: Tokenizer, withPattern: bool, patternId: Option<int>, maskPosition: Option<string>)
      ensures this.tokenizer == tokenizer
      ensures padTokenId == tokenizer.maskTokenId && maskToken == tokenizer.maskToken
      ensures this.withPattern == withPattern && this.patternId == patternId
      ensures this.maskPosition == maskPosition
      ensures tokenizedVerbalizers.None? && Valid()
    {
      this.tokenizer := tokenizer;
      this.padTokenId := tokenizer.maskTokenId;
      this.maskToken := tokenizer.maskToken;
      this.withPattern := withPattern;
      this.patternId := patternId;
      this.tokenizedVerbalizers := None;
      this.maskPosition := maskPosition;
    }

    /** The label words, index-aligned with the model's classes: the two names the
        gold-label files use for ade_corpus_v2, positive first. */
    function Verbalizers(): (r: seq<string>)
      ensures |r| == 2
      ensures r[0] == LabelRecovery.AdeNames.positive && r[1] == LabelRecovery.AdeNames.negative
      ensures (set t | t in r) == LabelRecovery.Names(LabelRecovery.AdeNames)
    {
      ["ADE-related", "not ADE-related"]
    }

    /** The gold class of an example is its `Label` field. */
    function Target(example: Example): int
    {
      example.labelId
    }

    /** One singleton list of token ids per word, in word order. */
    function TokenizeAll(words: seq<string>): (r: seq<seq<seq<int>>>)
      ensures |r| == |words|
      ensures forall i :: 0 <= i < |words| ==> r[i] == [tokenizer.verbalizationIds(words[i])]
    {
      seq(|words|, i requires 0 <= i < |words| => [tokenizer.verbalizationIds(words[i])])
    }

    /** The static tokenized verbalizers: computed and stored by the first call,
        returned unchanged by every later one. */
    method TokenizedVerbalizers() returns (r: seq<seq<seq<int>>>)
      requires Valid()
      modifies this`tokenizedVerbalizers
      ensures Valid() && tokenizedVerbalizers == Some(r)
      ensures r == TokenizeAll(Verbalizers())
      ensures old(tokenizedVerbalizers).Some? ==> r == old(tokenizedVerbalizers).value
    {
      if tokenizedVerbalizers.Some? {
        return tokenizedVerbalizers.value;
      }
      var verbalizers := Verbalizers();
      assert |verbalizers| != 0;
      r := TokenizeAll(verbalizers);
      tokenizedVerbalizers := Some(r);
    }

    /** The inputs of a classifier that uses no prompt: the sentence alone, with no
        second text; it is the text the prompt opens with. */
    function ClassificationParts(example: Example): (r: (string, Option<string>))
      ensures r.1.None?
      ensures forall maskLength: int :: Text(r.0, true) == SentenceParts(example, maskLength).0[0]
    {
      (example.sentence, None)
    }

    /** A mask-token segment. */
    function MaskText(): Text
    {
      Text(maskToken, false)
    }

    /** Places the masks around two text parts according to the mask-position code.
        An unrecognised code gives no result. */
    function PartsWithSettingMasks<T>(part0: seq<T>, part1: seq<T>, masks: seq<T>): (r: Option<(seq<T>, seq<T>)>)
      ensures r.Some? <==> maskPosition in MaskPositions
      ensures r.Some? ==> multiset(r.value.0 + r.value.1) == multiset(part0 + part1 + masks)
      ensures r.Some? ==> |r.value.0| + |r.value.1| == |part0| + |part1| + |masks|
      ensures r.Some? ==> part0 <= r.value.0
    {
      if maskPosition == Some("0") then Some((part0 + part1 + masks, []))
      else if maskPosition == Some("1") then Some((part0 + masks + part1, []))
      else if maskPosition == Some("2") then Some((part0, masks + part1))
      else if maskPosition == Some("3") then Some((part0, part1 + masks))
      else None
    }

    /** The patterned prompt: the sentence, "It's", the masks, then ".". */
    function PromptParts(example: Example, maskLength: int): (r: (seq<Text>, seq<Text>))
      ensures r.1 == []
      ensures |r.0| == |Repeat(maskLength, MaskText())| + 3
      ensures r.0[0] == Text(example.sentence, true)
      ensures r.0[1] == Text("It's", false) && r.0[|r.0| - 1] == Text(".", false)
      ensures forall i :: 2 <= i < |r.0| - 1 ==> r.0[i] == MaskText()
    {
      var sentence := Text(example.sentence, true);
      var masks := Repeat(maskLength, MaskText());
      ([sentence, Text("It's", false)] + masks + [Text(".", false)], [])
    }

    /** The prompt for one example: without a pattern, the sentence followed by the masks. */
    function SentenceParts(example: Example, maskLength: int): (r: (seq<Text>, seq<Text>))
      ensures r.1 == []
      ensures |r.0| >= 1 && r.0[0] == Text(example.sentence, true)
      ensures !withPattern ==> |r.0| == 1 + |Repeat(maskLength, MaskText())|
      ensures !withPattern ==> forall i :: 1 <= i < |r.0| ==> r.0[i] == MaskText()
      ensures withPattern ==> r == PromptParts(example, maskLength)
    {
      if !withPattern then
        ([Text(example.sentence, true)] + Repeat(maskLength, MaskText()), [])
      else
        PromptParts(example, maskLength)
    }
  }

  /** The four layouts factor into two independent choices: codes "0" and "3" put the
      masks after both parts while "1" and "2" put them between; codes "0" and "1"
      keep a single bucket while "2" and "3" start the second bucket after part_0. */
  lemma MaskLayout<T>(p: AdeCorpusV2, part0: seq<T>, part1: seq<T>, masks: seq<T>)
    requires p.maskPosition in MaskPositions
    ensures var r := p.PartsWithSettingMasks(part0, part1, masks).value;
      && (p.maskPosition in {Some("0"), Some("3")} ==> r.0 + r.1 == part0 + part1 + masks)
      && (p.maskPosition in {Some("1"), Some("2")} ==> r.0 + r.1 == part0 + masks + part1)
      && (p.maskPosition in {Some("0"), Some("1")} ==> r.1 == [])
      && (p.maskPosition in {Some("2"), Some("3")} ==> r.0 == part0)
  {
  }

  /** The patterned prompt is the plain one with "It's" inserted after the sentence
      and "." appended. */
  lemma PromptExtendsPlain(p: AdeCorpusV2, example: Example, maskLength: int)
    requires !p.withPattern
    ensures var plain := p.SentenceParts(example, maskLength).0;
      p.PromptParts(example, maskLength).0 == [plain[0], Text("It's", false)] + plain[1..] + [Text(".", false)]
  {
    var plain := p.SentenceParts(example, maskLength).0;
    assert plain[1..] == Repeat(maskLength, p.MaskText());
  }

  /** AutoProcessor.get: a fresh processor with the given configuration for a
      registered name, no processor for any other name. */
  method GetProcessor(task: string, tokenizer: Tokenizer, withPattern: bool, patternId: Option<int>, maskPosition: Option<string>)
    returns (p: Option<AdeCorpusV2>)
    ensures p.Some? <==> task in ProcessorNames
    ensures p.Some? ==> fresh(p.value) && p.value.Valid() && p.value.tokenizedVerbalizers.None?
    ensures p.Some? ==> p.value.tokenizer == tokenizer && p.value.withPattern == withPattern
    ensures p.Some? ==> p.value.patternId == patternId && p.value.maskPosition == maskPosition
    ensures p.Some? ==> p.value.padTokenId == tokenizer.maskTokenId && p.value.maskToken == tokenizer.maskToken
  {
    if task == "ade_corpus_v2" {
      var processor := new AdeCorpusV2(tokenizer, withPattern, patternId, maskPosition);
      return Some(processor);
    }
    return None;
  }
}
