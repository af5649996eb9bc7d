/** Whitespace tokenisation and single-space joining: Python's `str.split()`
    with no argument and `' '.join(...)`, and how the two fit together. */
module Tokens {
  import opened Text

  /** A token as `str.split()` yields it: non-empty and free of whitespace. */
  predicate IsToken(w: string) {
    |w| > 0 && forall i :: 0 <= i < |w| ==> !IsSpace(w[i])
  }

  predicate AllTokens(ts: seq<string>) {
    forall k :: 0 <= k < |ts| ==> IsToken(ts[k])
  }

  predicate AllSpace(w: string) {
    forall i :: 0 <= i < |w| ==> IsSpace(w[i])
  }

  predicate StartsWithToken(s: string) {
    |s| > 0 && !IsSpace(s[0])
  }

  /** Every whitespace character of `s` is a plain space that sits strictly
      inside `s` and is followed by a non-whitespace character: no leading or
      trailing space, no doubled space, no tab, newline or carriage return. */
  predicate SingleSpaced(s: string) {
    forall i :: 0 <= i < |s| && IsSpace(s[i]) ==> s[i] == ' ' && 0 < i < |s| - 1 && !IsSpace(s[i + 1])
  }

  /** The length of the run of non-whitespace characters that starts `s`. */
  function TokenLen(s: string): (n: nat)
    ensures n <= |s|
    ensures forall i :: 0 <= i < n ==> !IsSpace(s[i])
    ensures n < |s| ==> IsSpace(s[n])
  {
    if s == [] || IsSpace(s[0]) then 0 else 1 + TokenLen(s[1..])
  }

  /** `s.split()`: the maximal runs of non-whitespace characters, in order. */
  function Split(s: string): (r: seq<string>)
    ensures StartsWithToken(s) ==> |r| > 0
    decreases |s|
  {
    if s == [] then []
    else if IsSpace(s[0]) then Split(s[1..])
    else
      var n := TokenLen(s);
      [s[..n]] + Split(s[n..])
  }

  /** What `str.split()` yields are tokens, and there are none exactly when the
      text is all whitespace. */
  lemma {:induction false} SplitTokens(s: string)
    ensures AllTokens(Split(s))
    ensures Split(s) == [] <==> AllSpace(s)
    decreases |s|
  {
    if s == [] {
    } else if IsSpace(s[0]) {
      SplitTokens(s[1..]);
      assert AllSpace(s) <==> AllSpace(s[1..]) by {
        if AllSpace(s[1..]) {
          forall i | 0 < i < |s| ensures IsSpace(s[i]) { assert s[i] == s[1..][i - 1]; }
        }
      }
    } else {
      var n := TokenLen(s);
      SplitTokens(s[n..]);
    }
  }

  /** Every character of every token comes from the split text. */
  lemma {:induction false} SplitChars(s: string)
    ensures forall k, c :: 0 <= k < |Split(s)| && c in Split(s)[k] ==> c in s
    decreases |s|
  {
    if s == [] {
    } else if IsSpace(s[0]) {
      SplitChars(s[1..]);
      assert forall c :: c in s[1..] ==> c in s;
    } else {
      var n := TokenLen(s);
      SplitChars(s[n..]);
      assert forall c :: c in s[n..] ==> c in s by {
        forall c | c in s[n..] ensures c in s {
          var j :| 0 <= j < |s[n..]| && s[n..][j] == c;
          assert s[n + j] == c;
        }
      }
      assert forall c :: c in s[..n] ==> c in s by {
        forall c | c in s[..n] ensures c in s {
          var j :| 0 <= j < n && s[..n][j] == c;
          assert s[j] == c;
        }
      }
    }
  }

  /** `' '.join(ts)`. */
  function Join(ts: seq<string>): (s: string)
    ensures |ts| > 0 ==> |ts[0]| <= |s| && s[..|ts[0]|] == ts[0]
    ensures forall c :: c in s ==> c == ' ' || exists k :: 0 <= k < |ts| && c in ts[k]
  {
    if |ts| == 0 then ""
    else if |ts| == 1 then ts[0]
    else
      var rest := Join(ts[1..]);
      assert forall c :: c in rest ==> c == ' ' || exists k :: 0 <= k < |ts| && c in ts[k] by {
        forall c | c in rest && c != ' ' ensures exists k :: 0 <= k < |ts| && c in ts[k] {
          var k :| 0 <= k < |ts[1..]| && c in ts[1..][k];
          assert c in ts[k + 1];
        }
      }
      ts[0] + " " + rest
  }

  /** How prepending one character changes the split: a whitespace character
      is dropped, any other one starts a new token or extends the first one. */
  lemma SplitCons(c: char, x: string)
    ensures StartsWithToken(x) ==> |Split(x)| > 0
    ensures Split([c] + x) ==
      if IsSpace(c) then Split(x)
      else if StartsWithToken(x) then [[c] + Split(x)[0]] + Split(x)[1..]
      else [[c]] + Split(x)
  {
    var s := [c] + x;
    assert s[1..] == x;
    if !IsSpace(c) {
      if StartsWithToken(x) {
        var m := TokenLen(x);
        assert TokenLen(s) == 1 + m;
        assert s[..1 + m] == [c] + x[..m];
        assert s[1 + m..] == x[m..];
      } else {
        assert TokenLen(x) == 0;
        assert s[..1] == [c];
      }
    }
  }

  /** Leading whitespace does not change the split. */
  lemma {:induction false} SplitSkipsSpace(w: string, x: string)
    requires AllSpace(w)
    ensures Split(w + x) == Split(x)
  {
    if w != [] {
      var y := w[1..] + x;
      assert IsSpace(w[0]);
      assert w + x == [w[0]] + y;
      SplitCons(w[0], y);
      assert Split(w + x) == Split(y);
      SplitSkipsSpace(w[1..], x);
    } else {
      assert w + x == x;
    }
  }

  /** Text separated by a non-empty run of whitespace splits independently. */
  lemma {:induction false} SplitAcrossSpace(a: string, w: string, b: string)
    requires |w| > 0 && AllSpace(w)
    ensures Split(a + w + b) == Split(a) + Split(b)
  {
    if a == [] {
      assert a + w + b == w + b;
      SplitSkipsSpace(w, b);
    } else {
      var x := a[1..];
      SplitAcrossSpace(x, w, b);
      assert StartsWithToken(x + w + b) == StartsWithToken(x) by {
        if x == [] { assert (x + w + b)[0] == w[0]; } else { assert (x + w + b)[0] == x[0]; }
      }
      SplitConsAppend(a[0], x, x + w + b, Split(b));
      assert a + w + b == [a[0]] + (x + w + b);
      assert a == [a[0]] + x;
    }
  }

  /** If `y` splits like `x` followed by the tokens `tail`, and starts with a
      token exactly when `x` does, then so do `c + y` and `c + x`. */
  lemma SplitConsAppend(c: char, x: string, y: string, tail: seq<string>)
    requires Split(y) == Split(x) + tail
    requires StartsWithToken(y) == StartsWithToken(x)
    ensures Split([c] + y) == Split([c] + x) + tail
  {
    if IsSpace(c) {
      SplitCons(c, x);
      SplitCons(c, y);
    } else if StartsWithToken(x) {
      ExtendAppend(c, x, y, tail);
    } else {
      FreshAppend(c, x, y, tail);
    }
  }

  lemma ExtendAppend(c: char, x: string, y: string, tail: seq<string>)
    requires !IsSpace(c) && StartsWithToken(x) && StartsWithToken(y)
    requires Split(y) == Split(x) + tail
    ensures Split([c] + y) == Split([c] + x) + tail
  {
    var t := Split(x);
    var first := [c] + t[0];
    SplitCons(c, x);
    assert Split([c] + x) == [first] + t[1..];
    SplitCons(c, y);
    HeadTailOfConcat(t, tail);
    assert Split([c] + y) == [first] + (t[1..] + tail);
    ConsAssoc(first, t[1..], tail);
  }

  /** Sequence algebra stated generically: instantiated at `seq<string>`
      inside the split proofs it costs the solver far more. */
  lemma ConsAssoc<T>(a: T, t: seq<T>, u: seq<T>)
    ensures [a] + (t + u) == ([a] + t) + u
  {
  }

  lemma HeadTailOfConcat<T>(t: seq<T>, u: seq<T>)
    requires |t| > 0
    ensures (t + u)[0] == t[0] && (t + u)[1..] == t[1..] + u
  {
  }

  lemma FreshAppend(c: char, x: string, y: string, tail: seq<string>)
    requires !IsSpace(c) && !StartsWithToken(x) && !StartsWithToken(y)
    requires Split(y) == Split(x) + tail
    ensures Split([c] + y) == Split([c] + x) + tail
  {
    SplitCons(c, x);
    SplitCons(c, y);
  }

  /** A single token splits to itself. */
  lemma SplitOfToken(t: string)
    requires IsToken(t)
    ensures Split(t) == [t]
  {
    assert TokenLen(t) == |t|;
    assert t[..|t|] == t;
  }

  /** Round trip: splitting a single-space join gives back the tokens. */
  lemma {:induction false} SplitJoin(ts: seq<string>)
    requires AllTokens(ts)
    ensures Split(Join(ts)) == ts
  {
    if |ts| == 1 {
      SplitOfToken(ts[0]);
    } else if |ts| > 1 {
      SplitAcrossSpace(ts[0], " ", Join(ts[1..]));
      SplitOfToken(ts[0]);
      SplitJoin(ts[1..]);
      assert ts == [ts[0]] + ts[1..];
    }
  }

  /** A single-space join of tokens is single-spaced. */
  lemma {:induction false} JoinSingleSpaced(ts: seq<string>)
    requires AllTokens(ts)
    ensures SingleSpaced(Join(ts))
  {
    if |ts| > 1 {
      var t, rest := ts[0], Join(ts[1..]);
      JoinSingleSpaced(ts[1..]);
      var s := t + " " + rest;
      assert |rest| > 0 && !IsSpace(rest[0]) by { assert rest[..|ts[1]|] == ts[1]; }
      assert forall i :: 0 <= i < |t| ==> s[i] == t[i];
      forall i | 0 <= i < |s| && IsSpace(s[i])
        ensures s[i] == ' ' && 0 < i < |s| - 1 && !IsSpace(s[i + 1])
      {
        if i > |t| {
          assert s[i] == rest[i - |t| - 1];
          if i + 1 < |s| { assert s[i + 1] == rest[i - |t|]; }
        } else if i == |t| {
          assert s[i + 1] == rest[0];
        }
      }
    }
  }

  /** A single-spaced text is the single-space join of its own split. */
  lemma {:induction false} JoinSplitOfSingleSpaced(s: string)
    requires SingleSpaced(s)
    ensures Join(Split(s)) == s
    decreases |s|
  {
    if s != [] {
      assert !IsSpace(s[0]);
      var n := TokenLen(s);
      if n == |s| {
        assert s[..n] == s;
        assert Split(s) == [s] + Split([]);
      } else {
        var x := s[n + 1..];
        assert s[n] == ' ' && n + 1 < |s| && !IsSpace(s[n + 1]);
        assert SingleSpaced(x) by {
          forall i | 0 <= i < |x| && IsSpace(x[i])
            ensures x[i] == ' ' && 0 < i < |x| - 1 && !IsSpace(x[i + 1])
          {
            assert x[i] == s[n + 1 + i];
            if i + 1 < |x| { assert x[i + 1] == s[n + 2 + i]; }
          }
        }
        JoinSplitOfSingleSpaced(x);
        assert s == s[..n] + [s[n]] + x;
        SplitAcrossSpace(s[..n], [s[n]], x);
        SplitOfToken(s[..n]);
        assert StartsWithToken(x);
        assert Split(s) == [s[..n]] + Split(x);
      }
    }
  }

  /** The two directions together: a text is single-spaced exactly when it is
      the single-space join of its own whitespace split. */
  lemma SingleSpacedIffJoinOfSplit(s: string)
    ensures SingleSpaced(s) <==> Join(Split(s)) == s
  {
    if SingleSpaced(s) {
      JoinSplitOfSingleSpaced(s);
    }
    SplitTokens(s);
    JoinSingleSpaced(Split(s));
  }

  /** Replacing every occurrence of one whitespace run by another leaves the
      split unchanged, and with it whether the text starts with a token. */
  lemma {:induction false} SplitReplaceSpace(s: string, pat: string, rep: string)
    requires |pat| > 0 && AllSpace(pat) && |rep| > 0 && AllSpace(rep)
    ensures Split(ReplaceAll(s, pat, rep)) == Split(s)
    ensures StartsWithToken(ReplaceAll(s, pat, rep)) == StartsWithToken(s)
    decreases |s|
  {
    if |s| < |pat| {
    } else if s[..|pat|] == pat {
      var rest := s[|pat|..];
      SplitReplaceSpace(rest, pat, rep);
      SplitSkipsSpace(rep, ReplaceAll(rest, pat, rep));
      assert s == pat + rest;
      SplitSkipsSpace(pat, rest);
    } else {
      var rest := s[1..];
      SplitReplaceSpace(rest, pat, rep);
      assert s == [s[0]] + rest;
      SplitCons(s[0], rest);
      SplitCons(s[0], ReplaceAll(rest, pat, rep));
    }
  }

  /** Every word lowercased: the words `preprocess` filters, since it
      lowercases the whole text before splitting it. */
  function LowerAll(ts: seq<string>): (r: seq<string>)
    ensures |r| == |ts|
    ensures forall k :: 0 <= k < |ts| ==> r[k] == LowerStr(ts[k])
    ensures forall k :: 0 <= k < |r| ==> NoUpper(r[k]) && |r[k]| == |ts[k]|
    ensures AllTokens(ts) ==> AllTokens(r)
  {
    seq(|ts|, k requires 0 <= k < |ts| => LowerStr(ts[k]))
  }

  lemma LowerConcat(a: string, b: string)
    ensures LowerStr(a + b) == LowerStr(a) + LowerStr(b)
  {
  }

  /** Lowercasing commutes with splitting: the tokens of the lowercased text
      are the lowercased tokens. */
  lemma {:induction false} SplitLower(s: string)
    ensures Split(LowerStr(s)) == LowerAll(Split(s))
    ensures StartsWithToken(LowerStr(s)) == StartsWithToken(s)
    decreases |s|
  {
    if s == [] {
      assert LowerStr(s) == [];
    } else {
      var c, x := s[0], s[1..];
      SplitLower(x);
      assert s == [c] + x;
      LowerConcat([c], x);
      assert LowerStr([c]) == [Lower(c)];
      SplitLowerStep(c, x);
    }
  }

  /** The inductive step of SplitLower, given its claim for the tail `x`. */
  lemma SplitLowerStep(c: char, x: string)
    requires Split(LowerStr(x)) == LowerAll(Split(x))
    requires StartsWithToken(LowerStr(x)) == StartsWithToken(x)
    ensures Split([Lower(c)] + LowerStr(x)) == LowerAll(Split([c] + x))
  {
    if IsSpace(c) {
      SplitCons(c, x);
      SplitCons(Lower(c), LowerStr(x));
    } else if StartsWithToken(x) {
      SplitLowerExtend(c, x);
    } else {
      SplitLowerFresh(c, x);
    }
  }

  lemma SplitLowerExtend(c: char, x: string)
    requires !IsSpace(c) && StartsWithToken(x)
    requires Split(LowerStr(x)) == LowerAll(Split(x))
    requires StartsWithToken(LowerStr(x))
    ensures Split([Lower(c)] + LowerStr(x)) == LowerAll(Split([c] + x))
  {
    var t := Split(x);
    SplitCons(c, x);
    assert Split([c] + x) == [[c] + t[0]] + t[1..];
    SplitCons(Lower(c), LowerStr(x));
    assert Split([Lower(c)] + LowerStr(x)) == [[Lower(c)] + LowerAll(t)[0]] + LowerAll(t)[1..];
    SplitConsLowered(c, t);
  }

  lemma SplitLowerFresh(c: char, x: string)
    requires !IsSpace(c) && !StartsWithToken(x)
    requires Split(LowerStr(x)) == LowerAll(Split(x))
    requires !StartsWithToken(LowerStr(x))
    ensures Split([Lower(c)] + LowerStr(x)) == LowerAll(Split([c] + x))
  {
    var t := Split(x);
    assert Split([c] + x) == [[c]] + t by { SplitCons(c, x); }
    assert Split([Lower(c)] + LowerStr(x)) == [[Lower(c)]] + Split(LowerStr(x)) by {
      SplitCons(Lower(c), LowerStr(x));
    }
    assert LowerStr([c]) == [Lower(c)];
    LowerAllConcat([[c]], t);
  }

  lemma LowerAllConcat(a: seq<string>, b: seq<string>)
    ensures LowerAll(a + b) == LowerAll(a) + LowerAll(b)
  {
  }

  lemma SplitConsLowered(c: char, t: seq<string>)
    requires |t| > 0
    ensures LowerAll([[c] + t[0]] + t[1..]) == [[Lower(c)] + LowerAll(t)[0]] + LowerAll(t)[1..]
  {
    LowerConcat([c], t[0]);
    assert LowerStr([c]) == [Lower(c)];
  }
}
