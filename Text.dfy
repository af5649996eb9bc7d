/** Character and string operations the text pipeline takes from Python's `str`:
    `lower`, `replace`, `count`, `isdigit`, `isspace` and the `in` substring test.
    Lowercasing is restricted to ASCII letters and digits to '0'..'9'. */
module Text {

  /** The characters for which Python's `str.isspace()` holds; `str.split()`
      with no argument separates on exactly these. */
  const Whitespace: set<char> := {
    '\t', '\n', '\U{B}', '\U{C}', '\r',                         // tab, line feed, vertical tab, form feed, carriage return
    '\U{1C}', '\U{1D}', '\U{1E}', '\U{1F}',                    // file, group, record and unit separators
    ' ', '\U{85}', '\U{A0}', '\U{1680}',
    '\U{2000}', '\U{2001}', '\U{2002}', '\U{2003}', '\U{2004}', '\U{2005}',
    '\U{2006}', '\U{2007}', '\U{2008}', '\U{2009}', '\U{200A}',
    '\U{2028}', '\U{2029}', '\U{202F}', '\U{205F}', '\U{3000}'
  }

  /** `c.isspace()`. */
  predicate IsSpace(c: char) {
    c in Whitespace
  }

  predicate IsUpper(c: char) {
    'A' <= c <= 'Z'
  }

  /** `c.isdigit()` on the ASCII digits: one of the ten characters "0".."9". */
  predicate IsDigit(c: char)
    ensures IsDigit(c) <==> c in "0123456789"
  {
    '0' <= c <= '9'
  }

  /** No character of `s` is an upper-case ASCII letter. */
  predicate NoUpper(s: string) {
    forall i :: 0 <= i < |s| ==> !IsUpper(s[i])
  }

  /** `c.lower()` on ASCII: an upper-case letter becomes the lower-case
      letter at the same place in the alphabet; every other character stays. */
  function Lower(c: char): (d: char)
    ensures !IsUpper(d)
    ensures IsSpace(d) <==> IsSpace(c)
    ensures !IsUpper(c) ==> d == c
    ensures IsUpper(c) ==> 'a' <= d <= 'z' && d as int - 'a' as int == c as int - 'A' as int
  {
    if IsUpper(c) then (c as int - 'A' as int + 'a' as int) as char else c
  }

  /** `str.lower()`, character by character. */
  function LowerStr(s: string): (r: string)
    ensures |r| == |s| && NoUpper(r)
    ensures forall i :: 0 <= i < |s| ==> (IsSpace(r[i]) <==> IsSpace(s[i]))
  {
    seq(|s|, i requires 0 <= i < |s| => Lower(s[i]))
  }

  /** The separators of `str.split()`: the ASCII ones are exactly tab, line
      feed, vertical tab, form feed, carriage return, the four information
      separators and the space; no visible ASCII character, letter or digit
      is one. */
  lemma SpaceClasses(c: char)
    ensures c <= '\U{7F}' ==> (IsSpace(c) <==> '\t' <= c <= '\r' || '\U{1C}' <= c <= ' ')
    ensures '!' <= c <= '~' ==> !IsSpace(c)
    ensures IsSpace(c) ==> !IsUpper(c) && !IsDigit(c)
  {
  }

  /** `s.replace(pat, rep)`: scan left to right and replace every
      non-overlapping occurrence of `pat` by `rep`. */
  function ReplaceAll(s: string, pat: string, rep: string): (r: string)
    requires |pat| > 0
    ensures forall c :: c in r ==> c in s || c in rep
    ensures pat[0] !in s ==> r == s
    ensures |pat| == 1 && pat[0] !in rep ==> pat[0] !in r
    decreases |s|
  {
    if |s| < |pat| then s
    else if s[..|pat|] == pat then rep + ReplaceAll(s[|pat|..], pat, rep)
    else [s[0]] + ReplaceAll(s[1..], pat, rep)
  }

  /** `p` occurs in `s` starting at position `i`. */
  predicate OccursAt(s: string, p: string, i: int) {
    0 <= i <= |s| - |p| && s[i..i + |p|] == p
  }

  /** `p in s` on strings: `p` occurs as a contiguous substring of `s`. */
  function Contains(s: string, p: string): (b: bool)
    ensures b <==> exists i :: OccursAt(s, p, i)
    decreases |s|
  {
    if |p| > |s| then false
    else if s[..|p|] == p then assert OccursAt(s, p, 0); true
    else
      var b := Contains(s[1..], p);
      assert b ==> exists i :: OccursAt(s, p, i) by {
        if b {
          var i :| OccursAt(s[1..], p, i);
          assert s[i + 1..i + 1 + |p|] == s[1..][i..i + |p|];
          assert OccursAt(s, p, i + 1);
        }
      }
      assert (exists i :: OccursAt(s, p, i)) ==> b by {
        if exists i :: OccursAt(s, p, i) {
          var i :| OccursAt(s, p, i);
          assert i != 0;
          assert s[1..][i - 1..i - 1 + |p|] == s[i..i + |p|];
          assert OccursAt(s[1..], p, i - 1);
        }
      }
      b
  }

  /** `s.count(c)` for a one-character string `c`: how often `c` occurs in `s`. */
  function CountChar(s: string, c: char): (n: nat)
    ensures n == multiset(s)[c]
    ensures n <= |s|
    ensures n == 0 <==> c !in s
  {
    if s == [] then 0
    else
      assert s == [s[0]] + s[1..];
      (if s[0] == c then 1 else 0) + CountChar(s[1..], c)
  }

  /** `sum(c.isdigit() for c in s)`: the number of digit characters of `s`. */
  function DigitCount(s: string): (n: nat)
    ensures n <= |s|
    ensures n == 0 <==> forall i :: 0 <= i < |s| ==> !IsDigit(s[i])
    ensures n == |s| <==> forall i :: 0 <= i < |s| ==> IsDigit(s[i])
  {
    if s == [] then 0
    else (if IsDigit(s[0]) then 1 else 0) + DigitCount(s[1..])
  }

  /** Substrings of substrings are substrings. */
  lemma ContainsTransitive(s: string, p: string, q: string)
    requires Contains(s, p) && Contains(p, q)
    ensures Contains(s, q)
  {
    var i :| OccursAt(s, p, i);
    var j :| OccursAt(p, q, j);
    forall k | 0 <= k < |q|
      ensures s[i + j + k] == q[k]
    {
      assert q[k] == p[j + k] == s[i..i + |p|][j + k];
    }
    assert s[i + j..i + j + |q|] == q;
    assert OccursAt(s, q, i + j);
  }

  /** A text without upper-case letters contains no pattern that has one. */
  lemma NoUpperExcludesCapitalized(s: string, p: string, k: nat)
    requires NoUpper(s)
    requires k < |p| && IsUpper(p[k])
    ensures !Contains(s, p)
  {
    forall i | 0 <= i <= |s| - |p|
      ensures !OccursAt(s, p, i)
    {
      assert s[i..i + |p|][k] == s[i + k];
    }
  }
}
