/** The seven per-document scalar signals (svm.py:48-54,
    svm_subject_discount.py:45-51) and the two keyword lists they use. The
    emoji count comes from a Unicode-tables library and is a parameter. */
module Features {
  import opened Text

  /** The keyword list of svm.py:35-46, in source order. */
  const SvmKeywords: seq<string> := [
    "invoice #", "order number", "order #", "invoice", "purchase", "hsn code",
    "bill to", "total invoice value", "ship to", "address",
    "tax invoice", "order id", "receipt", "billing", "payment", "transaction",
    "due date", "amount due",
    "credit", "debit", "account statement", "balance", "invoice date",
    "payment due", "total amount", "payable", "purchase order", "confirmation",
    "shipping", "tracking", "shipment", "dispatch", "delivery",
    "order confirmation",
    "receipt number", "payment details", "invoice total", "itemized bill",
    "Delivered", "Total paid", "Items ordered"
  ]

  /** The keyword list of svm_subject_discount.py:35-43, which repeats
      svm.py's entries in the same order and appends "order". */
  const SubjectDiscountKeywords: seq<string> := SvmKeywords + ["order"]

  /** svm.py's list has 41 entries; the second list has the same 41 in the
      same order and then "order". No entry is empty. */
  lemma KeywordLists()
    ensures |SvmKeywords| == 41 && |SubjectDiscountKeywords| == 42
    ensures SubjectDiscountKeywords[..41] == SvmKeywords && SubjectDiscountKeywords[41] == "order"
    ensures forall k :: 0 <= k < |SubjectDiscountKeywords| ==> |SubjectDiscountKeywords[k]| > 0
  {
    assert SubjectDiscountKeywords[..41] == SvmKeywords;
    EntriesLongerThanFive();
    forall k | 0 <= k < |SubjectDiscountKeywords| ensures |SubjectDiscountKeywords[k]| > 0 {
      if k < 41 {
        assert SubjectDiscountKeywords[k] == SvmKeywords[k];
      }
    }
  }

  /** `any(keyword in text for keyword in keywords)`. */
  function HasKeyword(keywords: seq<string>, text: string): (b: bool)
    ensures b <==> exists k :: 0 <= k < |keywords| && Contains(text, keywords[k])
  {
    if keywords == [] then false
    else if Contains(text, keywords[0]) then true
    else
      var b := HasKeyword(keywords[1..], text);
      assert b <==> exists k :: 0 < k < |keywords| && Contains(text, keywords[k]) by {
        if b {
          var k :| 0 <= k < |keywords[1..]| && Contains(text, keywords[1..][k]);
          assert keywords[1..][k] == keywords[k + 1];
        }
        if exists k :: 0 < k < |keywords| && Contains(text, keywords[k]) {
          var k :| 0 < k < |keywords| && Contains(text, keywords[k]);
          assert keywords[1..][k - 1] == keywords[k];
        }
      }
      b
  }

  /** One row of the seven scalar columns, named as the DataFrame columns. */
  datatype ScalarFeatures = ScalarFeatures(
    exclamationMarkCount: nat,
    hasInvoiceKeyword: bool,
    numericCount: nat,
    percentageSignCount: nat,
    dollarSymbolCount: nat,
    rupeeSymbolCount: nat,
    emojiCount: nat)

  /** The seven column lambdas applied to one (already preprocessed) text. */
  function Extract(text: string, keywords: seq<string>, emojiCount: string -> nat): (f: ScalarFeatures)
    ensures f.exclamationMarkCount <= |text| && f.numericCount <= |text|
    ensures f.percentageSignCount <= |text| && f.dollarSymbolCount <= |text| && f.rupeeSymbolCount <= |text|
    ensures f.exclamationMarkCount + f.percentageSignCount + f.dollarSymbolCount + f.rupeeSymbolCount <= |text|
    ensures f.hasInvoiceKeyword <==> exists k :: 0 <= k < |keywords| && Contains(text, keywords[k])
  {
    var f := ScalarFeatures(
      CountChar(text, '!'),
      HasKeyword(keywords, text),
      DigitCount(text),
      CountChar(text, '%'),
      CountChar(text, '$'),
      CountChar(text, '₹'),
      emojiCount(text));
    CountsOfDistinctCharsBounded(text, '!', '%', '$', '₹');
    f
  }

  /** The counts of four distinct characters add up to at most the length. */
  lemma {:induction false} CountsOfDistinctCharsBounded(s: string, a: char, b: char, c: char, d: char)
    requires a != b && a != c && a != d && b != c && b != d && c != d
    ensures CountChar(s, a) + CountChar(s, b) + CountChar(s, c) + CountChar(s, d) <= |s|
  {
    if s != [] {
      CountsOfDistinctCharsBounded(s[1..], a, b, c, d);
    }
  }

  /** The CSV is decoded as ISO-8859-1 (svm.py:24), so no character of a
      text is above U+00FF, and '₹' (U+20B9) never occurs: the rupee count
      of such a text is always zero. */
  lemma RupeeAbsentFromLatin1(text: string, keywords: seq<string>, emojiCount: string -> nat)
    requires forall i :: 0 <= i < |text| ==> text[i] <= '\U{FF}'
    ensures Extract(text, keywords, emojiCount).rupeeSymbolCount == 0
  {
    forall i | 0 <= i < |text| ensures text[i] != '₹' {
    }
  }

  /** The fixed column order of `X_extra` (svm.py:59-62), with the keyword
      flag as 0 or 1. */
  function FeatureRow(f: ScalarFeatures): (row: seq<int>)
    ensures |row| == 7
    ensures forall j :: 0 <= j < 7 ==> row[j] >= 0
    ensures row[1] == 1 <==> f.hasInvoiceKeyword
  {
    [f.exclamationMarkCount, if f.hasInvoiceKeyword then 1 else 0, f.numericCount,
     f.percentageSignCount, f.dollarSymbolCount, f.rupeeSymbolCount, f.emojiCount]
  }

  /** Flagging by a concatenation of lists is flagging by either part. */
  lemma HasKeywordConcat(a: seq<string>, b: seq<string>, text: string)
    ensures HasKeyword(a + b, text) == (HasKeyword(a, text) || HasKeyword(b, text))
  {
    if HasKeyword(a + b, text) {
      var k :| 0 <= k < |a + b| && Contains(text, (a + b)[k]);
      if k >= |a| { assert b[k - |a|] == (a + b)[k]; }
    }
    if HasKeyword(a, text) {
      var k :| 0 <= k < |a| && Contains(text, a[k]);
      assert (a + b)[k] == a[k];
    }
    if HasKeyword(b, text) {
      var k :| 0 <= k < |b| && Contains(text, b[k]);
      assert (a + b)[|a| + k] == b[k];
    }
  }

  /** A text flagged by a keyword list is flagged by every list that has all
      of its keywords. */
  lemma KeywordsMonotone(small: seq<string>, large: seq<string>, text: string)
    requires forall k :: 0 <= k < |small| ==> small[k] in large
    ensures HasKeyword(small, text) ==> HasKeyword(large, text)
  {
    if HasKeyword(small, text) {
      var k :| 0 <= k < |small| && Contains(text, small[k]);
      var j :| 0 <= j < |large| && large[j] == small[k];
    }
  }

  /** Every text svm.py flags is flagged by svm_subject_discount.py; the
      converse fails, for the text "order" itself. */
  lemma SubjectDiscountFlagsMore(text: string)
    ensures HasKeyword(SvmKeywords, text) ==> HasKeyword(SubjectDiscountKeywords, text)
    ensures HasKeyword(SubjectDiscountKeywords, "order") && !HasKeyword(SvmKeywords, "order")
  {
    HasKeywordConcat(SvmKeywords, ["order"], text);
    HasKeywordConcat(SvmKeywords, ["order"], "order");
    assert OccursAt("order", "order", 0);
    SvmMissesOrder();
  }

  /** No entry of svm.py's list occurs in the text "order": all but "debit"
      are longer than it. */
  lemma SvmMissesOrder()
    ensures !HasKeyword(SvmKeywords, "order")
  {
    EntriesLongerThanFive();
    assert "order"[..5][0] != "debit"[0];
    forall k | 0 <= k < |SvmKeywords| ensures !Contains("order", SvmKeywords[k]) {
      if k != 19 {
        assert |SvmKeywords[k]| > 5;
      }
    }
  }

  /** Every entry of svm.py's list but "debit" is longer than five characters. */
  lemma EntriesLongerThanFive()
    ensures SvmKeywords[19] == "debit"
    ensures forall k :: 0 <= k < |SvmKeywords| && k != 19 ==> |SvmKeywords[k]| > 5
  {
  }

  /** Any text containing "invoice" is flagged by both lists. */
  lemma InvoiceFlagged(text: string)
    requires Contains(text, "invoice")
    ensures HasKeyword(SvmKeywords, text) && HasKeyword(SubjectDiscountKeywords, text)
  {
    assert SvmKeywords[3] == "invoice";
    HasKeywordConcat(SvmKeywords, ["order"], text);
  }

  /** Any text containing "order" is flagged by svm_subject_discount.py's list. */
  lemma OrderFlagged(text: string)
    requires Contains(text, "order")
    ensures HasKeyword(SubjectDiscountKeywords, text)
  {
    HasKeywordConcat(SvmKeywords, ["order"], text);
    assert HasKeyword(["order"], text);
  }

  /** The entries of `keywords` that do not contain `key`. */
  function WithoutSubsumed(keywords: seq<string>, key: string): (r: seq<string>)
    ensures forall k :: 0 <= k < |r| ==> r[k] in keywords && !Contains(r[k], key)
    ensures forall k :: 0 <= k < |keywords| && !Contains(keywords[k], key) ==> keywords[k] in r
  {
    if keywords == [] then []
    else if Contains(keywords[0], key) then WithoutSubsumed(keywords[1..], key)
    else [keywords[0]] + WithoutSubsumed(keywords[1..], key)
  }

  /** A listed keyword makes every entry that contains it redundant:
      dropping those entries (and keeping the keyword) flags the same texts. */
  lemma SubsumedKeywordsRedundant(keywords: seq<string>, key: string, text: string)
    requires key in keywords
    ensures HasKeyword(keywords, text) == HasKeyword(WithoutSubsumed(keywords, key) + [key], text)
  {
    var kept := WithoutSubsumed(keywords, key);
    HasKeywordConcat(kept, [key], text);
    if HasKeyword(keywords, text) {
      var k :| 0 <= k < |keywords| && Contains(text, keywords[k]);
      if Contains(keywords[k], key) {
        ContainsTransitive(text, keywords[k], key);
        assert HasKeyword([key], text);
      } else {
        assert keywords[k] in kept;
        var j :| 0 <= j < |kept| && kept[j] == keywords[k];
      }
    }
    if HasKeyword(kept, text) {
      var j :| 0 <= j < |kept| && Contains(text, kept[j]);
      var k :| 0 <= k < |keywords| && keywords[k] == kept[j];
    }
    if HasKeyword([key], text) {
      var k :| 0 <= k < |keywords| && keywords[k] == key;
    }
  }

  /** In svm_subject_discount.py, "order number", "order #", "order id",
      "purchase order", "order confirmation" and "Items ordered" add nothing
      to "order"; in both lists, the entries containing "invoice" add
      nothing to "invoice". */
  lemma RedundantEntries(text: string)
    ensures HasKeyword(SubjectDiscountKeywords, text) ==
      HasKeyword(WithoutSubsumed(SubjectDiscountKeywords, "order") + ["order"], text)
    ensures HasKeyword(SvmKeywords, text) ==
      HasKeyword(WithoutSubsumed(SvmKeywords, "invoice") + ["invoice"], text)
  {
    OrderListed();
    SubsumedKeywordsRedundant(SubjectDiscountKeywords, "order", text);
    InvoiceListed();
    SubsumedKeywordsRedundant(SvmKeywords, "invoice", text);
  }

  lemma OrderListed()
    ensures "order" in SubjectDiscountKeywords
  {
    assert SubjectDiscountKeywords[|SvmKeywords|] == "order";
  }

  lemma InvoiceListed()
    ensures "invoice" in SvmKeywords && "invoice" in SubjectDiscountKeywords
  {
    assert SvmKeywords[3] == "invoice";
    assert SubjectDiscountKeywords[3] == "invoice";
  }

  /** Keywords with an upper-case letter never match text without one. */
  lemma CapitalizedNeverMatch(keywords: seq<string>, text: string)
    requires NoUpper(text)
    requires forall k :: 0 <= k < |keywords| ==> exists i :: 0 <= i < |keywords[k]| && IsUpper(keywords[k][i])
    ensures !HasKeyword(keywords, text)
  {
    forall k | 0 <= k < |keywords| ensures !Contains(text, keywords[k]) {
      var i :| 0 <= i < |keywords[k]| && IsUpper(keywords[k][i]);
      NoUpperExcludesCapitalized(text, keywords[k], i);
    }
  }

  /** "Delivered", "Total paid" and "Items ordered" have capital letters, so
      on text without upper-case letters both lists flag exactly what they
      flag without those three entries. */
  lemma CapitalizedKeywordsNeverMatch(text: string)
    requires NoUpper(text)
    ensures HasKeyword(SvmKeywords, text) == HasKeyword(SvmKeywords[..38], text)
    ensures HasKeyword(SubjectDiscountKeywords, text) == HasKeyword(SvmKeywords[..38] + ["order"], text)
  {
    var dead := SvmKeywords[38..];
    assert dead == ["Delivered", "Total paid", "Items ordered"];
    assert IsUpper(dead[0][0]) && IsUpper(dead[1][0]) && IsUpper(dead[2][0]);
    CapitalizedNeverMatch(dead, text);
    assert SvmKeywords == SvmKeywords[..38] + dead;
    HasKeywordConcat(SvmKeywords[..38], dead, text);
    HasKeywordConcat(SvmKeywords, ["order"], text);
    HasKeywordConcat(SvmKeywords[..38], ["order"], text);
  }
}
