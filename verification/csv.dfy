/**
 * The comma-separated files written by the label-recovery downloader and
 * read back by the evaluator: Python's `str` of an integer identifier, the
 * `id,label` row format, splitting a row into its cells, and the strings
 * that pandas' `read_csv` turns into a missing value by default.
 */
module Csv {
  import opened Wrappers

  predicate IsDigit(c: char) { '0' <= c <= '9' }

  /** Characters that can occur in Python's `str` of an int. */
  predicate IsNumeral(c: char) { IsDigit(c) || c == '-' }

  function DigitChar(d: nat): (c: char)
    requires d < 10
    ensures IsDigit(c)
  {
    ('0' as int + d) as char
  }

  function DigitValue(c: char): nat
    requires IsDigit(c)
  {
    c as int - '0' as int
  }

  /** Python's `str(n)` for a non-negative integer. */
  function NatToString(n: nat): (s: string)
    ensures |s| > 0
    ensures forall i :: 0 <= i < |s| ==> IsDigit(s[i])
    decreases n
  {
    if n < 10 then [DigitChar(n)] else NatToString(n / 10) + [DigitChar(n % 10)]
  }

  /** The value of a string of decimal digits, most significant first. */
  function DecimalValue(s: string): nat
    requires forall i :: 0 <= i < |s| ==> IsDigit(s[i])
  {
    if s == [] then 0 else 10 * DecimalValue(s[..|s| - 1]) + DigitValue(s[|s| - 1])
  }

  /** Reading a rendered natural number back gives the number. */
  lemma {:induction false} NatToStringRoundTrip(n: nat)
    ensures DecimalValue(NatToString(n)) == n
    decreases n
  {
    var s := NatToString(n);
    if n >= 10 {
      NatToStringRoundTrip(n / 10);
      assert s[..|s| - 1] == NatToString(n / 10);
    }
  }

  /** Python's `str(i)` for any integer: the decimal digits of its magnitude, after a
      minus sign when it is negative. */
  function IntToString(i: int): (s: string)
    ensures |s| > 0
    ensures forall k :: 0 <= k < |s| ==> IsNumeral(s[k])
    ensures ',' !in s
    ensures i >= 0 ==> (forall k :: 0 <= k < |s| ==> IsDigit(s[k])) && DecimalValue(s) == i
    ensures i < 0 ==> s[0] == '-' && (forall k :: 1 <= k < |s| ==> IsDigit(s[k])) && DecimalValue(s[1..]) == -i
  {
    if i < 0 then
      NatToStringRoundTrip(-i);
      var s := "-" + NatToString(-i);
      assert s[1..] == NatToString(-i);
      s
    else
      NatToStringRoundTrip(i);
      NatToString(i)
  }

  /** One data row of a gold-label file: `str(id) + "," + label`. */
  function RowLine(id: int, token: string): string
  {
    IntToString(id) + "," + token
  }

  /** The position of the first comma of a line. */
  function CommaIndex(line: string): (i: nat)
    requires ',' in line
    ensures i < |line| && line[i] == ','
    ensures ',' !in line[..i]
  {
    if line[0] == ',' then 0
    else
      assert line == [line[0]] + line[1..];
      var i := CommaIndex(line[1..]) + 1;
      assert line[..i] == [line[0]] + line[1..][..i - 1];
      i
  }

  /** The cells of one line, split at every comma (no quoting in these files). */
  function Cells(line: string): (r: seq<string>)
    ensures |r| >= 1
    ensures ',' !in line ==> r == [line]
    decreases |line|
  {
    if ',' in line then
      var i := CommaIndex(line);
      [line[..i]] + Cells(line[i + 1..])
    else [line]
  }

  /** The first comma of `a + "," + b` with a comma-free `a` is the one after `a`,
      so the line splits into `a` and the cells of `b`. */
  lemma CellsAfterField(a: string, b: string)
    requires ',' !in a
    ensures Cells(a + "," + b) == [a] + Cells(b)
  {
    var line := a + "," + b;
    assert line[|a|] == ',';
    assert line[..|a|] == a;
    var i := CommaIndex(line);
    assert line[..i] == a;
    assert line[i + 1..] == b;
  }

  /** A row line reads back as exactly two cells: the identifier and the label. */
  lemma RowLineCells(id: int, token: string)
    requires ',' !in token
    ensures Cells(RowLine(id, token)) == [IntToString(id), token]
  {
    CellsAfterField(IntToString(id), token);
  }

  /** The strings pandas' `read_csv` reads as a missing value by default (pandas 2). */
  const NaValues: set<string> := {
    "", "#N/A", "#N/A N/A", "#NA", "-1.#IND", "-1.#QNAN", "-NaN", "-nan",
    "1.#IND", "1.#QNAN", "<NA>", "N/A", "NA", "NULL", "NaN", "None",
    "n/a", "nan", "null"
  }

  /** One cell as pandas reads it: missing when it is one of the default NA strings. */
  function ReadCell(cell: string): (r: Option<string>)
    ensures r.None? <==> cell in NaValues
    ensures r.Some? ==> r.value == cell
  {
    if cell in NaValues then None else Some(cell)
  }

  /** No rendered integer is mistaken for a missing value. */
  lemma IdCellNeverMissing(id: int)
    ensures ReadCell(IntToString(id)) == Some(IntToString(id))
  {
    var s := IntToString(id);
    assert IsNumeral(s[0]);
    assert |s| > 1 ==> IsNumeral(s[1]);
    assert |s| > 2 ==> IsNumeral(s[2]);
  }
}
