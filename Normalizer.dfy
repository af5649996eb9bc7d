/** The per-document text normaliser `preprocess` (svm.py:15-20 and
    svm_subject_discount.py:19-24, identical in both scripts) and the newline
    pre-pass the scripts run over the `text` column before it.

    The English stopword list and the WordNet lemmatiser are parameters: a
    set of words and a function from word to word. */
module Normalizer {
  import opened Text
  import opened Tokens

  /** Replace `\r\n`, then `\n`, then `\r` by a space. `preprocess` does this
      with three `str.replace` calls, and the pre-pass over the column with
      one regex replacement per newline variant, in the same order. */
  function ReplaceNewlines(s: string): (r: string)
    ensures '\n' !in r && '\r' !in r
    ensures forall c :: c in r ==> c in s || c == ' '
  {
    ReplaceAll(ReplaceAll(ReplaceAll(s, "\r\n", " "), "\n", " "), "\r", " ")
  }

  /** The first statement of `preprocess`: lowercase, then remove newlines. */
  function Normalize(text: string): (r: string)
    ensures NoUpper(r) && '\n' !in r && '\r' !in r
  {
    var lowered := LowerStr(text);
    var r := ReplaceNewlines(lowered);
    assert forall i :: 0 <= i < |r| ==> !IsUpper(r[i]) by {
      forall i | 0 <= i < |r| ensures !IsUpper(r[i]) {
        assert r[i] in r;
        if r[i] != ' ' {
          var j :| 0 <= j < |lowered| && lowered[j] == r[i];
        }
      }
    }
    r
  }

  /** The words the comprehension keeps (`if word not in stop_words`), in
      their original order. */
  function Survivors(tokens: seq<string>, stopWords: set<string>): (r: seq<string>)
    ensures |r| <= |tokens|
    ensures forall k :: 0 <= k < |r| ==> r[k] !in stopWords && r[k] in tokens
    ensures forall k :: 0 <= k < |tokens| && tokens[k] !in stopWords ==> tokens[k] in r
  {
    if tokens == [] then []
    else if tokens[0] in stopWords then Survivors(tokens[1..], stopWords)
    else [tokens[0]] + Survivors(tokens[1..], stopWords)
  }

  /** `[lemmatizer.lemmatize(word) for word in words]`. */
  function LemmatizeAll(words: seq<string>, lemmatize: string -> string): (r: seq<string>)
    ensures |r| == |words|
    ensures forall k :: 0 <= k < |words| ==> r[k] == lemmatize(words[k])
  {
    seq(|words|, k requires 0 <= k < |words| => lemmatize(words[k]))
  }

  /** The words handed to the lemmatiser, in call order: the words of the
      normalised text that are not stopwords. */
  function LemmatizerCalls(text: string, stopWords: set<string>): (calls: seq<string>)
    ensures |calls| <= |Split(Normalize(text))|
    ensures forall k :: 0 <= k < |calls| ==> calls[k] !in stopWords && calls[k] in Split(Normalize(text))
    ensures forall k :: 0 <= k < |Split(Normalize(text))| && Split(Normalize(text))[k] !in stopWords ==>
      Split(Normalize(text))[k] in calls
  {
    Survivors(Split(Normalize(text)), stopWords)
  }

  /** `preprocess(text)` for a string `text`. Whatever the lemmatiser does,
      every character of the output is a separating space or comes from the
      lemma of a word handed to it, and no such word means an empty output. */
  function Preprocess(text: string, stopWords: set<string>, lemmatize: string -> string): (r: string)
    ensures LemmatizerCalls(text, stopWords) == [] ==> r == ""
    ensures forall c :: c in r ==>
      (c == ' ' || exists k :: 0 <= k < |LemmatizerCalls(text, stopWords)| && c in lemmatize(LemmatizerCalls(text, stopWords)[k]))
  {
    Join(LemmatizeAll(LemmatizerCalls(text, stopWords), lemmatize))
  }

  /** The lemmatiser maps a word to a word: non-empty and whitespace-free. */
  ghost predicate KeepsTokens(lemmatize: string -> string) {
    forall w :: IsToken(w) ==> IsToken(lemmatize(w))
  }

  /** The lemmatiser maps a lowercase word to a lowercase word. */
  ghost predicate KeepsLowercase(lemmatize: string -> string) {
    forall w :: IsToken(w) && NoUpper(w) ==> NoUpper(lemmatize(w))
  }

  /** Stopword filtering distributes over concatenation, so it keeps the
      surviving words in their original order. */
  lemma {:induction false} SurvivorsConcat(a: seq<string>, b: seq<string>, stopWords: set<string>)
    ensures Survivors(a + b, stopWords) == Survivors(a, stopWords) + Survivors(b, stopWords)
  {
    if a != [] {
      assert (a + b)[1..] == a[1..] + b;
      SurvivorsConcat(a[1..], b, stopWords);
    } else {
      assert a + b == b;
    }
  }

  /** The newline replacement does not change the whitespace split. */
  lemma ReplaceNewlinesKeepsTokens(s: string)
    ensures Split(ReplaceNewlines(s)) == Split(s)
  {
    assert AllSpace("\r\n") && AllSpace("\n") && AllSpace("\r") && AllSpace(" ");
    var s1 := ReplaceAll(s, "\r\n", " ");
    var s2 := ReplaceAll(s1, "\n", " ");
    SplitReplaceSpace(s, "\r\n", " ");
    SplitReplaceSpace(s1, "\n", " ");
    SplitReplaceSpace(s2, "\r", " ");
  }

  /** The words `preprocess` starts from are the lowercased whitespace-split
      words of the input: its own newline replacement changes nothing. */
  lemma NormalizeKeepsTokens(text: string)
    ensures Split(Normalize(text)) == LowerAll(Split(text))
  {
    ReplaceNewlinesKeepsTokens(LowerStr(text));
    SplitLower(text);
  }

  /** The newline pre-pass over the `text` column (svm.py:26,
      svm_subject_discount.py:28) does not change what `preprocess` returns. */
  lemma PrePassRedundant(text: string, stopWords: set<string>, lemmatize: string -> string)
    ensures Preprocess(ReplaceNewlines(text), stopWords, lemmatize) == Preprocess(text, stopWords, lemmatize)
  {
    NormalizeKeepsTokens(ReplaceNewlines(text));
    ReplaceNewlinesKeepsTokens(text);
    NormalizeKeepsTokens(text);
  }

  /** Every word the lemmatiser is called on is a lowercase token that is
      not a stopword. */
  lemma LemmatizerCallsAreLowercaseNonStopTokens(text: string, stopWords: set<string>)
    ensures forall k :: 0 <= k < |LemmatizerCalls(text, stopWords)| ==>
      var w := LemmatizerCalls(text, stopWords)[k]; w !in stopWords && IsToken(w) && NoUpper(w)
  {
    var s := Normalize(text);
    SplitTokens(s);
    SplitChars(s);
    var calls := LemmatizerCalls(text, stopWords);
    forall k | 0 <= k < |calls| ensures calls[k] !in stopWords && IsToken(calls[k]) && NoUpper(calls[k]) {
      var w := calls[k];
      var j :| 0 <= j < |Split(s)| && Split(s)[j] == w;
      forall i | 0 <= i < |w| ensures !IsUpper(w[i]) {
        assert w[i] in Split(s)[j];
        assert w[i] in s;
        var m :| 0 <= m < |s| && s[m] == w[i];
      }
    }
  }

  /** Filtering happens before lemmatisation: what the lemmatiser does with
      stopwords never shows in the output. */
  lemma StopwordsNeverLemmatized(text: string, stopWords: set<string>, lemmatize: string -> string, other: string -> string)
    requires forall w :: w !in stopWords ==> lemmatize(w) == other(w)
    ensures Preprocess(text, stopWords, lemmatize) == Preprocess(text, stopWords, other)
  {
    var calls := LemmatizerCalls(text, stopWords);
    assert LemmatizeAll(calls, lemmatize) == LemmatizeAll(calls, other);
  }

  /** The output's words are the lemmas of the lowercased input words that
      are not stopwords, in input order, so there are never more of them than
      input words. */
  lemma PreprocessTokens(text: string, stopWords: set<string>, lemmatize: string -> string)
    requires KeepsTokens(lemmatize)
    ensures Split(Preprocess(text, stopWords, lemmatize)) == LemmatizeAll(LemmatizerCalls(text, stopWords), lemmatize)
    ensures LemmatizerCalls(text, stopWords) == Survivors(LowerAll(Split(text)), stopWords)
    ensures |Split(Preprocess(text, stopWords, lemmatize))| <= |Split(text)|
  {
    LemmatizerCallsAreLowercaseNonStopTokens(text, stopWords);
    SplitJoin(LemmatizeAll(LemmatizerCalls(text, stopWords), lemmatize));
    NormalizeKeepsTokens(text);
  }

  /** The output is a single-space join: no newline or carriage return, no
      leading, trailing or doubled space, and splitting then re-joining it
      gives it back. */
  lemma PreprocessSingleSpaced(text: string, stopWords: set<string>, lemmatize: string -> string)
    requires KeepsTokens(lemmatize)
    ensures var p := Preprocess(text, stopWords, lemmatize);
      SingleSpaced(p) && '\n' !in p && '\r' !in p && Join(Split(p)) == p
  {
    var p := Preprocess(text, stopWords, lemmatize);
    LemmatizerCallsAreLowercaseNonStopTokens(text, stopWords);
    JoinSingleSpaced(LemmatizeAll(LemmatizerCalls(text, stopWords), lemmatize));
    JoinSplitOfSingleSpaced(p);
    assert IsSpace('\n') && IsSpace('\r');
  }

  /** With a lemmatiser that keeps lowercase words lowercase, the output has
      no upper-case letter. */
  lemma PreprocessLowercase(text: string, stopWords: set<string>, lemmatize: string -> string)
    requires KeepsTokens(lemmatize) && KeepsLowercase(lemmatize)
    ensures NoUpper(Preprocess(text, stopWords, lemmatize))
  {
    LemmatizerCallsAreLowercaseNonStopTokens(text, stopWords);
    var lemmas := LemmatizeAll(LemmatizerCalls(text, stopWords), lemmatize);
    var p := Join(lemmas);
    forall i | 0 <= i < |p| ensures !IsUpper(p[i]) {
      assert p[i] in p;
      if p[i] != ' ' {
        var k :| 0 <= k < |lemmas| && p[i] in lemmas[k];
        var m :| 0 <= m < |lemmas[k]| && lemmas[k][m] == p[i];
      }
    }
  }

  /** The output is empty exactly when every input word is a stopword (in
      particular for an empty or all-whitespace input). */
  lemma PreprocessEmptyIff(text: string, stopWords: set<string>, lemmatize: string -> string)
    requires KeepsTokens(lemmatize)
    ensures Preprocess(text, stopWords, lemmatize) == "" <==>
      forall k :: 0 <= k < |Split(Normalize(text))| ==> Split(Normalize(text))[k] in stopWords
  {
    LemmatizerCallsAreLowercaseNonStopTokens(text, stopWords);
    var calls := LemmatizerCalls(text, stopWords);
    var lemmas := LemmatizeAll(calls, lemmatize);
    if |calls| > 0 {
      assert IsToken(lemmas[0]);
      assert |Join(lemmas)| >= |lemmas[0]| > 0;
    }
  }
}
