# Email classifier feature pipeline, in Dafny

Two training scripts, `svm.py` and `svm_subject_discount.py`, classify emails
as invoice, spam, promotion or discount. Before any machine-learning library
takes over, both run the same per-document text pipeline:

- `preprocess` lowercases the text and turns `\r\n`, `\n` and `\r` into spaces.
  It then splits on whitespace, drops stopwords, lemmatises the remaining
  words and joins them with single spaces.
- Before that, a newline pre-pass rewrites the `text` column the same way.
- Seven scalar signals are computed per document: the counts of `!`, `%`,
  `$`, `₹` and digits, a keyword-presence flag, and an emoji count.
- The TF-IDF table is fused column-wise with the seven signals by
  `pd.concat(axis=1)`.

The two scripts differ only in their keyword list: `svm_subject_discount.py`
appends `"order"`. The keyword list is a parameter, so one model covers both.
The table below cites `svm.py`; the matching lines of
`svm_subject_discount.py` are `preprocess` at 19-24, the pre-pass at 28-29,
the feature columns at 45-51 and the fusion at 56-58.

The modules:

- `Text`: the `str` operations used (`lower`, `replace`, `count`, `isdigit`,
  `isspace`, the `in` substring test).
- `Tokens`: `str.split()` and `' '.join`, with their round-trip lemmas.
- `Normalizer`: `preprocess` and the newline pre-pass.
- `Features`: the two keyword lists, the seven signals and the fixed column
  order.
- `Fusion`: column-wise concatenation of two tables.
- `Pipeline`: the `emails` DataFrame as a class, updated column by column.
  It also holds the script's path from the raw columns to the fused table
  and the labels.

The stopword list is a parameter, a `set<string>`. So are the lemmatiser
(`string -> string`), the emoji counter (`string -> nat`) and the TF-IDF
transform (a function from the document column to a table of reals).

`pd.concat([A, B], axis=1)` on two frames with default row labels does not
fail when their row counts differ: it aligns the rows by label (an outer
join) and fills the missing cells with NaN. `Fusion.ConcatColumns` models that, and
`Fusion.ConcatMismatchPads` states it. In the scripts both tables come from
the same frame, so `Pipeline.EngineerFeatures` proves that no cell is padded.

Both scripts read the CSV as ISO-8859-1 (svm.py:24), so no character of a
text is above U+00FF. The rupee sign '₹' is U+20B9, so unless the
lemmatiser produces it the `rupee_symbol_count` column is always 0;
`Features.RupeeAbsentFromLatin1` states this for any such text.

## Model

| member | source | states |
|---|---|---|
| Text.LowerStr | svm.py:16 | `str.lower()` keeps the length, leaves no upper-case letter and keeps exactly the whitespace positions |
| Text.Lower | svm.py:16 | `c.lower()` on ASCII: an upper-case letter becomes the lower-case letter at the same place in the alphabet, every other character is unchanged, and whitespace stays whitespace |
| Text.SpaceClasses | svm.py:19 | the separators of `str.split()` (the `str.isspace` set): among ASCII they are exactly tab through carriage return, the four information separators and the space; no visible ASCII character, letter or digit is one |
| Text.IsDigit | svm.py:50 | `c.isdigit()` holds exactly for the ten characters "0" to "9" |
| Text.ReplaceAll | svm.py:16 | `str.replace` only produces characters of the input or of the replacement; it is the identity when the pattern's first character is absent; replacing a single character by a string without it removes that character |
| Text.Contains | svm.py:49 | the `in` substring test holds exactly when the pattern occurs at some position |
| Text.CountChar | svm.py:48 | `str.count(c)` is the multiplicity of `c` in the text, at most its length, and zero exactly when `c` is absent |
| Text.DigitCount | svm.py:50 | the digit count is at most the length; it is zero exactly when no character is a digit and equals the length exactly when all are |
| Text.ContainsTransitive | svm.py:49 | a substring of a substring of the text is a substring of the text |
| Text.NoUpperExcludesCapitalized | svm.py:16 | a text with no upper-case letter contains no pattern that has one |
| Tokens.TokenLen | svm.py:19 | the first word of the text ends at the first whitespace character or at the end |
| Tokens.Split | svm.py:19 | `str.split()` yields at least one word when the text starts with a non-space character |
| Tokens.SplitTokens | svm.py:19 | every word of `str.split()` is non-empty and space-free; the split is empty exactly when the text is all whitespace |
| Tokens.SplitChars | svm.py:19 | every character of every word comes from the text |
| Tokens.Join | svm.py:19 | `' '.join` starts with the first word, and each of its characters is a space or comes from a word |
| Tokens.SplitJoin | svm.py:19 | splitting the single-space join of words gives back exactly those words |
| Tokens.JoinSingleSpaced | svm.py:19 | the single-space join of words has no leading, trailing or doubled space and no other whitespace |
| Tokens.JoinSplitOfSingleSpaced | svm.py:19 | a single-spaced text is the join of its own split |
| Tokens.SingleSpacedIffJoinOfSplit | svm.py:19 | a text is single-spaced exactly when it equals the join of its split |
| Tokens.SplitReplaceSpace | svm.py:16 | replacing a whitespace pattern by whitespace changes neither the split nor whether the text starts with a word |
| Tokens.SplitSkipsSpace | svm.py:19 | leading whitespace does not change the split |
| Tokens.SplitAcrossSpace | svm.py:19 | a whitespace run between two parts splits as the split of the first part followed by that of the second |
| Tokens.SplitLower | svm.py:16 | lowercasing before splitting gives the lowercased words of the split |
| Tokens.LowerAll | svm.py:16-19 | lowercasing each word keeps the word count and every word's length, leaves no upper-case letter and keeps words words |
| Normalizer.ReplaceNewlines | svm.py:26 | after the pre-pass the text has no `\n` or `\r`, and every other character is an input character or a space |
| Normalizer.Normalize | svm.py:16 | the first statement of `preprocess` leaves no upper-case letter, `\n` or `\r` |
| Normalizer.Survivors | svm.py:19 | the stopword filter keeps exactly the non-stopword words, never more words than it is given |
| Normalizer.LemmatizeAll | svm.py:19 | the comprehension applies the lemmatiser to each kept word, position by position |
| Normalizer.LemmatizerCalls | svm.py:19 | the words handed to the lemmatiser are exactly the non-stopword words of the normalised text, never more of them than its words |
| Normalizer.Preprocess | svm.py:15-20 | whatever the lemmatiser does, every output character is a separating space or comes from the lemma of a word handed to it, and no such word gives the empty string |
| Normalizer.SurvivorsConcat | svm.py:19 | the stopword filter distributes over concatenation, so kept words stay in their original order |
| Normalizer.ReplaceNewlinesKeepsTokens | svm.py:16 | the newline replacement does not change the whitespace split |
| Normalizer.NormalizeKeepsTokens | svm.py:16-19 | the words `preprocess` filters are the lowercased whitespace-split words of the input |
| Normalizer.PrePassRedundant | svm.py:26-27 | `preprocess` of the pre-passed text equals `preprocess` of the raw text |
| Normalizer.LemmatizerCallsAreLowercaseNonStopTokens | svm.py:19 | every word handed to the lemmatiser is a lowercase, non-empty, space-free non-stopword |
| Normalizer.StopwordsNeverLemmatized | svm.py:19 | two lemmatisers that agree off the stopword set give the same output |
| Normalizer.PreprocessTokens | svm.py:15-20 | the output's words are the lemmas of the lowercased non-stopword input words, in input order, and are no more than the input words |
| Normalizer.PreprocessSingleSpaced | svm.py:19 | the output has no `\n` or `\r`, no leading, trailing or doubled space, and equals the join of its split |
| Normalizer.PreprocessLowercase | svm.py:16-19 | with a lemmatiser that keeps lowercase words lowercase, the output has no upper-case letter |
| Normalizer.PreprocessEmptyIff | svm.py:19 | the output is empty exactly when every word of the normalised input is a stopword |
| Features.HasKeyword | svm.py:49 | the flag holds exactly when some listed keyword is a substring of the text |
| Features.KeywordLists | svm_subject_discount.py:35-43 | the two keyword lists: `svm.py`'s 41 non-empty entries (svm.py:35-46), and the same 41 in the same order followed by "order" |
| Features.Extract | svm.py:48-54 | each of the five character counts is at most the text length, the four symbol counts together are too, and the flag holds exactly when some keyword occurs |
| Features.CountsOfDistinctCharsBounded | svm.py:48-53 | the counts of four distinct characters add up to at most the length |
| Features.RupeeAbsentFromLatin1 | svm.py:24 | a text decoded as ISO-8859-1 has no character above U+00FF, so its `rupee_symbol_count` (svm.py:53) is always 0 |
| Features.FeatureRow | svm.py:59-62 | the feature row has seven non-negative entries, and the second is 1 exactly when the keyword flag is set |
| Features.HasKeywordConcat | svm.py:49 | a concatenated list flags a text exactly when one of its parts does |
| Features.KeywordsMonotone | svm.py:49 | a list that holds every keyword of another flags every text the other flags |
| Features.SubjectDiscountFlagsMore | svm_subject_discount.py:35-43 | every text `svm.py`'s list flags is flagged by the second list, and the text "order" is flagged only by the second |
| Features.SvmMissesOrder | svm.py:35-46 | no entry of `svm.py`'s list occurs in the text "order" |
| Features.InvoiceFlagged | svm.py:35-46 | any text containing "invoice" is flagged by both lists |
| Features.OrderFlagged | svm_subject_discount.py:42 | any text containing "order" is flagged by the second list |
| Features.WithoutSubsumed | svm_subject_discount.py:35-43 | dropping the entries that contain a key keeps exactly the entries without it |
| Features.SubsumedKeywordsRedundant | svm_subject_discount.py:35-43 | entries containing a listed keyword can be dropped without changing which texts are flagged |
| Features.RedundantEntries | svm_subject_discount.py:35-43 | in the second list the entries containing "order" add nothing to "order"; in both lists the entries containing "invoice" add nothing to "invoice" |
| Features.CapitalizedNeverMatch | svm.py:49 | keywords with an upper-case letter never match a text without one |
| Features.CapitalizedKeywordsNeverMatch | svm.py:45 | on lowercase text both lists flag exactly what they flag without "Delivered", "Total paid" and "Items ordered" |
| Fusion.RowOrMissing | svm.py:63 | a row past the end of a table is a row of missing cells of the table's width |
| Fusion.ConcatColumns | svm.py:63 | the fused table has as many rows as the longer input and the summed width; each side's rows sit in its own columns, and the rows a side lacks are missing there |
| Fusion.Columns | svm.py:63 | selecting a column range keeps the row count and gives the range's width |
| Fusion.ConcatAligned | svm.py:63 | fusing tables of equal length gives that many rows, each the left row followed by the right row |
| Fusion.ConcatRoundTrip | svm.py:63 | selecting the two column ranges back out gives the two input tables |
| Fusion.ConcatMismatchPads | svm.py:63 | fusing a shorter left table does not fail: its cells in the extra rows are all missing |
| Pipeline.PrePassColumn | svm.py:26 | the pre-passed column has the same length and no `\n` or `\r` in any entry |
| Pipeline.PreprocessColumn | svm.py:27 | the preprocessed column holds `preprocess` of each entry, in order |
| Pipeline.Label | svm.py:48-54 | each feature column has a non-empty DataFrame label |
| Pipeline.LabelInjective | svm.py:59-62 | the seven column labels are pairwise different, so each assignment creates its own column |
| Pipeline.ScalarRows | svm.py:59-62 | one seven-entry feature row per document |
| Pipeline.RealRow | svm.py:63 | a lexical row becomes numeric cells of the same width, with no missing cell |
| Pipeline.IntRow | svm.py:63 | a feature row becomes numeric cells of the same width, with no missing cell |
| Pipeline.RealCells | svm.py:63 | `pd.DataFrame(X_tfidf.toarray())` holds each lexical row as numeric cells |
| Pipeline.IntCells | svm.py:63 | `pd.DataFrame(X_extra)` holds each feature row as numeric cells |
| Pipeline.FusedRows | svm.py:59-63 | fusing a lexical table with the feature rows of as many documents gives one row per document, its lexical row then its seven features, with no missing cell |
| Pipeline.ExtraOf | svm.py:59-62 | the selected feature columns read back as a seven-wide table with one row per document |
| Pipeline.CountColumn | svm.py:48 | the column holds `text.count(c)` of each document |
| Pipeline.FlagColumn | svm.py:49 | the column holds 1 for flagged documents and 0 for the others |
| Pipeline.DigitColumn | svm.py:50 | the column holds the digit count of each document |
| Pipeline.EmojiColumn | svm.py:54 | the column holds the emoji count of each document |
| Pipeline.WithScalarColumns | svm.py:48-54 | after the seven assignments the frame has all seven feature columns, one entry per document |
| Pipeline.ScalarColumnsGiveRows | svm.py:48-62 | the seven columns read back row by row are each document's feature row, whatever the frame held before |
| Pipeline.PrePassColumnRedundant | svm.py:26-27 | preprocessing the pre-passed column gives the same column as preprocessing the raw one |
| Pipeline.EmailFrame.constructor | svm.py:24 | a new frame holds the given text and label columns and no feature column |
| Pipeline.EmailFrame.ReplaceNewlinesInText | svm.py:26 | the text column becomes its pre-pass; labels and feature columns are unchanged |
| Pipeline.EmailFrame.ApplyPreprocess | svm.py:27 | the text column becomes its preprocessed form; labels and feature columns are unchanged |
| Pipeline.EmailFrame.SetColumn | svm.py:48 | assigning a column changes only that column, and all columns keep the frame's length |
| Pipeline.EmailFrame.Extra | svm.py:59-62 | `X_extra` has one seven-wide row per document |
| Pipeline.EmailFrame.AddScalarFeatures | svm.py:48-54 | the seven assignments leave text and labels unchanged and make `X_extra` the documents' feature rows |
| Pipeline.EngineerFeatures | svm.py:26-65 | the fused table has one row per raw document and width vocabulary + 7; row i is the TF-IDF row of preprocessed document i followed by its seven features in fixed order, with no missing cell; `y` is the label column |

## Left out

- CSV loading in ISO-8859-1 and `drop_duplicates` (svm.py:24): file I/O and library behaviour. The model starts from the text and label columns.
- `nltk.download` (svm_subject_discount.py:15-16): network access.
- The contents of NLTK's English stopword list and WordNet's lemmatiser: both are parameters. Rebuilding them on every call has no observable effect.
- `emoji.emoji_count`: a Unicode-tables library. It is a parameter returning a natural number.
- TF-IDF fitting and transform: library numerics on floats. The transform is a parameter giving one row of `vocabularySize` reals per document.
- `train_test_split`, SVC training and prediction, `classification_report`, `accuracy_score`, `confusion_matrix`, `joblib.dump` and every `print`: randomness, library numerics, persistence and console output.
- `str(text)` coercion of NaN and non-string cells: every input is taken to be a string already.
- Text.LowerStr: lowercases ASCII letters only, not the full Unicode case mapping of `str.lower`.
- Text.DigitCount: counts `'0'..'9'` only. `str.isdigit` also accepts other Unicode decimal digits and non-decimal digits such as the superscripts '¹', '²' and '³' (U+00B9, U+00B2, U+00B3), which ISO-8859-1 text can contain; the model does not count them.
- Tokens.Split: splits on the fixed set of characters for which `str.isspace` holds; no other Unicode semantics are modelled.
- Normalizer.ReplaceNewlines: the pandas regex replacement with a dictionary is modelled as the same three sequential replacements as in `preprocess`.
- Normalizer.PreprocessTokens, Normalizer.PreprocessSingleSpaced, Normalizer.PreprocessEmptyIff: these assume the lemmatiser maps a word to a non-empty, whitespace-free word. Normalizer.PreprocessLowercase also assumes it keeps lowercase words lowercase.
- Pipeline.EmailFrame: the keyword flag column is a boolean column in pandas; here it holds 0 or 1, the value it takes in the numeric table.
- Pipeline.EmailFrame: the frame holds only the text, label and seven feature columns, with the feature columns keyed by an enumeration whose `Label` is the pandas column name. Other CSV columns are not modelled.
- Fusion.ConcatColumns: the column labels of the fused frame (0..V-1 followed by 0..6) are not modelled, only the cells. NaN is a distinct `Missing` cell rather than a float.
