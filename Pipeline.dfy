/** The module-level script of svm.py and svm_subject_discount.py up to the
    fused feature table: the `emails` DataFrame is rewritten column by column
    (the `text` column twice, then one new column per scalar feature), the
    seven feature columns are read back in a fixed order, and the lexical
    table is fused with them.

    The lexical (TF-IDF) table is produced by a parameter: a function from the
    column of documents to one row of `vocabularySize` reals per document. */
module Pipeline {
  import opened Text
  import opened Normalizer
  import opened Features
  import opened Fusion

  /** A cell of the fused table: a number, or the NaN that column-wise
      concatenation writes where a table has no row. */
  datatype Cell = Num(value: real) | Missing

  /** The scalar columns the script adds to the frame. */
  datatype Column =
    | ExclamationMarkCount | HasInvoiceKeyword | NumericCount | PercentageSignCount
    | DollarSymbolCount | RupeeSymbolCount | EmojiCount

  /** The DataFrame label of a column, never empty. */
  function Label(c: Column): (name: string)
    ensures |name| > 0
  {
    match c
    case ExclamationMarkCount => "exclamation_mark_count"
    case HasInvoiceKeyword => "has_invoice_keyword"
    case NumericCount => "numeric_count"
    case PercentageSignCount => "percentage_sign_count"
    case DollarSymbolCount => "dollar_symbol_count"
    case RupeeSymbolCount => "rupee_symbol_count"
    case EmojiCount => "emoji_count"
  }

  /** The seven columns have seven different labels, so each assignment
      creates a column of its own. */
  lemma LabelInjective(a: Column, b: Column)
    ensures Label(a) == Label(b) ==> a == b
  {
    if a != b {
      assert Label(a)[..3] != Label(b)[..3] || Label(a)[3..] != Label(b)[3..];
    }
  }

  /** `cols` holds the seven feature columns, each with `n` entries. */
  predicate HasFeatureColumns(cols: map<Column, seq<int>>, n: nat) {
    ExclamationMarkCount in cols && |cols[ExclamationMarkCount]| == n &&
    HasInvoiceKeyword in cols && |cols[HasInvoiceKeyword]| == n &&
    NumericCount in cols && |cols[NumericCount]| == n &&
    PercentageSignCount in cols && |cols[PercentageSignCount]| == n &&
    DollarSymbolCount in cols && |cols[DollarSymbolCount]| == n &&
    RupeeSymbolCount in cols && |cols[RupeeSymbolCount]| == n &&
    EmojiCount in cols && |cols[EmojiCount]| == n
  }

  /** The newline pre-pass, applied to every entry of a column. */
  function PrePassColumn(texts: seq<string>): (r: seq<string>)
    ensures |r| == |texts|
    ensures forall i :: 0 <= i < |r| ==> '\n' !in r[i] && '\r' !in r[i]
  {
    seq(|texts|, i requires 0 <= i < |texts| => ReplaceNewlines(texts[i]))
  }

  /** `emails['text'].apply(preprocess)`. */
  function PreprocessColumn(texts: seq<string>, stopWords: set<string>, lemmatize: string -> string): (r: seq<string>)
    ensures |r| == |texts|
    ensures forall i :: 0 <= i < |r| ==> r[i] == Preprocess(texts[i], stopWords, lemmatize)
  {
    seq(|texts|, i requires 0 <= i < |texts| => Preprocess(texts[i], stopWords, lemmatize))
  }

  /** The rows of `X_extra` for a column of documents. */
  function ScalarRows(docs: seq<string>, keywords: seq<string>, emojiCount: string -> nat): (rows: seq<seq<int>>)
    ensures |rows| == |docs| && IsMatrix(rows, 7)
  {
    seq(|docs|, i requires 0 <= i < |docs| => FeatureRow(Extract(docs[i], keywords, emojiCount)))
  }

  /** A row of reals as cells. */
  function RealRow(row: seq<real>): (r: seq<Cell>)
    ensures |r| == |row| && Missing !in r
    ensures forall j :: 0 <= j < |row| ==> r[j] == Num(row[j])
  {
    seq(|row|, j requires 0 <= j < |row| => Num(row[j]))
  }

  /** A row of integers as cells. */
  function IntRow(row: seq<int>): (r: seq<Cell>)
    ensures |r| == |row| && Missing !in r
    ensures forall j :: 0 <= j < |row| ==> r[j] == Num(row[j] as real)
  {
    seq(|row|, j requires 0 <= j < |row| => Num(row[j] as real))
  }

  function RealCells(m: seq<seq<real>>): (r: seq<seq<Cell>>)
    ensures |r| == |m|
    ensures forall i :: 0 <= i < |m| ==> r[i] == RealRow(m[i])
  {
    seq(|m|, i requires 0 <= i < |m| => RealRow(m[i]))
  }

  function IntCells(m: seq<seq<int>>): (r: seq<seq<Cell>>)
    ensures |r| == |m|
    ensures forall i :: 0 <= i < |m| ==> r[i] == IntRow(m[i])
  {
    seq(|m|, i requires 0 <= i < |m| => IntRow(m[i]))
  }

  /** Fusing a lexical table with the feature rows of as many documents
      gives one row per document, its lexical row followed by its seven
      features, with no missing cell. */
  lemma FusedRows(lexical: seq<seq<real>>, vocabularySize: nat, docs: seq<string>, keywords: seq<string>, emojiCount: string -> nat)
    requires |lexical| == |docs| && IsMatrix(lexical, vocabularySize)
    ensures var r := ConcatColumns(RealCells(lexical), vocabularySize, IntCells(ScalarRows(docs, keywords, emojiCount)), 7, Missing);
      |r| == |docs| && IsMatrix(r, vocabularySize + 7) &&
      forall i :: 0 <= i < |r| ==>
        r[i] == RealRow(lexical[i]) + IntRow(FeatureRow(Extract(docs[i], keywords, emojiCount))) && Missing !in r[i]
  {
    var left := RealCells(lexical);
    var right := IntCells(ScalarRows(docs, keywords, emojiCount));
    ConcatAligned(left, vocabularySize, right, 7, Missing);
  }

  /** `X_extra` (svm.py:59-62): the seven feature columns of `cols`, read
      back row by row in this fixed order. */
  function ExtraOf(cols: map<Column, seq<int>>, n: nat): (rows: seq<seq<int>>)
    requires HasFeatureColumns(cols, n)
    ensures |rows| == n && IsMatrix(rows, 7)
  {
    seq(n, i requires 0 <= i < n =>
      [cols[ExclamationMarkCount][i], cols[HasInvoiceKeyword][i], cols[NumericCount][i],
       cols[PercentageSignCount][i], cols[DollarSymbolCount][i], cols[RupeeSymbolCount][i],
       cols[EmojiCount][i]])
  }

  /** `text.count(c)` for every document. */
  function CountColumn(docs: seq<string>, c: char): (col: seq<int>)
    ensures |col| == |docs|
    ensures forall i :: 0 <= i < |docs| ==> col[i] == CountChar(docs[i], c)
  {
    seq(|docs|, i requires 0 <= i < |docs| => CountChar(docs[i], c) as int)
  }

  /** The keyword flag of every document, as 0 or 1. */
  function FlagColumn(docs: seq<string>, keywords: seq<string>): (col: seq<int>)
    ensures |col| == |docs|
    ensures forall i :: 0 <= i < |docs| ==> (col[i] == 1 <==> HasKeyword(keywords, docs[i]))
    ensures forall i :: 0 <= i < |docs| ==> (col[i] == 0 <==> !HasKeyword(keywords, docs[i]))
  {
    seq(|docs|, i requires 0 <= i < |docs| => if HasKeyword(keywords, docs[i]) then 1 else 0)
  }

  /** The digit count of every document. */
  function DigitColumn(docs: seq<string>): (col: seq<int>)
    ensures |col| == |docs|
    ensures forall i :: 0 <= i < |docs| ==> col[i] == DigitCount(docs[i])
  {
    seq(|docs|, i requires 0 <= i < |docs| => DigitCount(docs[i]) as int)
  }

  /** The emoji count of every document. */
  function EmojiColumn(docs: seq<string>, emojiCount: string -> nat): (col: seq<int>)
    ensures |col| == |docs|
    ensures forall i :: 0 <= i < |docs| ==> col[i] == emojiCount(docs[i])
  {
    seq(|docs|, i requires 0 <= i < |docs| => emojiCount(docs[i]) as int)
  }

  /** `cols` after the seven column assignments of svm.py:48-54. */
  function WithScalarColumns(cols: map<Column, seq<int>>, docs: seq<string>, keywords: seq<string>, emojiCount: string -> nat): (r: map<Column, seq<int>>)
    ensures HasFeatureColumns(r, |docs|)
  {
    var r := cols[ExclamationMarkCount := CountColumn(docs, '!')]
                 [HasInvoiceKeyword := FlagColumn(docs, keywords)]
                 [NumericCount := DigitColumn(docs)]
                 [PercentageSignCount := CountColumn(docs, '%')]
                 [DollarSymbolCount := CountColumn(docs, '$')]
                 [RupeeSymbolCount := CountColumn(docs, '₹')]
                 [EmojiCount := EmojiColumn(docs, emojiCount)];
    r
  }

  /** The feature columns read back row by row are the feature rows of the
      documents, whatever columns the frame held before. */
  lemma ScalarColumnsGiveRows(cols: map<Column, seq<int>>, docs: seq<string>, keywords: seq<string>, emojiCount: string -> nat)
    ensures ExtraOf(WithScalarColumns(cols, docs, keywords, emojiCount), |docs|) == ScalarRows(docs, keywords, emojiCount)
  {
    var extra := ExtraOf(WithScalarColumns(cols, docs, keywords, emojiCount), |docs|);
    var expected := ScalarRows(docs, keywords, emojiCount);
    forall i | 0 <= i < |docs| ensures extra[i] == expected[i] {
      assert extra[i][1] == FlagColumn(docs, keywords)[i];
    }
  }

  /** The pre-pass over the column never changes the preprocessed column. */
  lemma PrePassColumnRedundant(texts: seq<string>, stopWords: set<string>, lemmatize: string -> string)
    ensures PreprocessColumn(PrePassColumn(texts), stopWords, lemmatize) == PreprocessColumn(texts, stopWords, lemmatize)
  {
    forall i | 0 <= i < |texts|
      ensures Preprocess(ReplaceNewlines(texts[i]), stopWords, lemmatize) == Preprocess(texts[i], stopWords, lemmatize)
    {
      PrePassRedundant(texts[i], stopWords, lemmatize);
    }
  }

  /** The `emails` DataFrame: the `text` and `label` columns (here `labels`) and the integer
      columns added to it, all of one length. */
  class EmailFrame {
    var text: seq<string>
    var labels: seq<string>
    var columns: map<Column, seq<int>>

    ghost predicate Valid()
      reads this
    {
      |labels| == |text| && forall c :: c in columns ==> |columns[c]| == |text|
    }

    constructor (text: seq<string>, labels: seq<string>)
      requires |text| == |labels|
      ensures Valid()
      ensures this.text == text && this.labels == labels && columns == map[]
    {
      this.text := text;
      this.labels := labels;
      columns := map[];
    }

    /** The `text` column after the newline pre-pass (svm.py:26). */
    method ReplaceNewlinesInText()
      requires Valid()
      modifies this
      ensures Valid()
      ensures text == PrePassColumn(old(text))
      ensures labels == old(labels) && columns == old(columns)
    {
      text := PrePassColumn(text);
    }

    /** The `text` column after `apply(preprocess)` (svm.py:27). */
    method ApplyPreprocess(stopWords: set<string>, lemmatize: string -> string)
      requires Valid()
      modifies this
      ensures Valid()
      ensures text == PreprocessColumn(old(text), stopWords, lemmatize)
      ensures labels == old(labels) && columns == old(columns)
    {
      text := PreprocessColumn(text, stopWords, lemmatize);
    }

    /** `emails[Label(c)] = values`: adds the column, or replaces it. */
    method SetColumn(c: Column, values: seq<int>)
      requires Valid() && |values| == |text|
      modifies this
      ensures Valid()
      ensures text == old(text) && labels == old(labels)
      ensures columns == old(columns)[c := values]
    {
      columns := columns[c := values];
    }

    /** `emails[[...]].values` for the seven feature columns. */
    function Extra(): (rows: seq<seq<int>>)
      reads this
      requires Valid() && HasFeatureColumns(columns, |text|)
      ensures |rows| == |text| && IsMatrix(rows, 7)
    {
      ExtraOf(columns, |text|)
    }

    /** The seven `emails[...] = emails['text'].apply(...)` assignments
        (svm.py:48-54), one column at a time; the keyword flag is stored as
        0 or 1. */
    method AddScalarFeatures(keywords: seq<string>, emojiCount: string -> nat)
      requires Valid()
      modifies this
      ensures Valid()
      ensures text == old(text) && labels == old(labels)
      ensures columns == WithScalarColumns(old(columns), text, keywords, emojiCount)
      ensures HasFeatureColumns(columns, |text|)
      ensures Extra() == ScalarRows(text, keywords, emojiCount)
    {
      var docs := text;
      SetColumn(ExclamationMarkCount, CountColumn(docs, '!'));
      SetColumn(HasInvoiceKeyword, FlagColumn(docs, keywords));
      SetColumn(NumericCount, DigitColumn(docs));
      SetColumn(PercentageSignCount, CountColumn(docs, '%'));
      SetColumn(DollarSymbolCount, CountColumn(docs, '$'));
      SetColumn(RupeeSymbolCount, CountColumn(docs, '₹'));
      SetColumn(EmojiCount, EmojiColumn(docs, emojiCount));
      ScalarColumnsGiveRows(old(columns), docs, keywords, emojiCount);
    }
  }

  /** svm.py:26-65 from the raw columns to `X_combined` and `y`: the lexical
      table of the preprocessed documents, fused with their seven scalar
      features. Both tables come from the same frame, so no row is padded. */
  method EngineerFeatures(
    raw: seq<string>, labels: seq<string>,
    keywords: seq<string>, stopWords: set<string>, lemmatize: string -> string,
    emojiCount: string -> nat, lexical: seq<string> -> seq<seq<real>>, vocabularySize: nat)
    returns (combined: seq<seq<Cell>>, y: seq<string>)
    requires |raw| == |labels|
    requires forall docs: seq<string> :: |lexical(docs)| == |docs| && IsMatrix(lexical(docs), vocabularySize)
    ensures y == labels
    ensures |combined| == |raw| && IsMatrix(combined, vocabularySize + 7)
    ensures var docs := PreprocessColumn(raw, stopWords, lemmatize);
      forall i :: 0 <= i < |combined| ==>
        combined[i] == RealRow(lexical(docs)[i]) + IntRow(FeatureRow(Extract(docs[i], keywords, emojiCount))) &&
        Missing !in combined[i]
  {
    var emails := new EmailFrame(raw, labels);
    emails.ReplaceNewlinesInText();
    emails.ApplyPreprocess(stopWords, lemmatize);
    PrePassColumnRedundant(raw, stopWords, lemmatize);
    emails.AddScalarFeatures(keywords, emojiCount);
    var tfidf := lexical(emails.text);
    var extra := emails.Extra();
    combined := ConcatColumns(RealCells(tfidf), vocabularySize, IntCells(extra), 7, Missing);
    FusedRows(tfidf, vocabularySize, emails.text, keywords, emojiCount);
    y := emails.labels;
  }
}
