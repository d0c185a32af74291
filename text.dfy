/** Python string primitives used by the extractor: character classes, strip, split, join,
    substring tests and replacement, written over `string` (a sequence of code points). */
module Text {

  datatype Option<+T> = None | Some(value: T) {
    function GetOr(default: T): T {
      match this
      case Some(v) => v
      case None => default
    }
  }

  /** Python's `str.isspace()`; Python's `\s` in a `str` pattern matches the same characters. */
  predicate IsSpace(c: char) {
    var n := c as int;
    (9 <= n <= 13) || (28 <= n <= 32) || n == 0x85 || n == 0xA0 || n == 0x1680
    || (0x2000 <= n <= 0x200A) || n == 0x2028 || n == 0x2029 || n == 0x202F
    || n == 0x205F || n == 0x3000
  }

  predicate IsDigit(c: char) { '0' <= c <= '9' }
  predicate IsUpper(c: char) { 'A' <= c <= 'Z' }
  predicate IsLower(c: char) { 'a' <= c <= 'z' }
  predicate IsAlpha(c: char) { IsUpper(c) || IsLower(c) }
  /** The class `[A-Za-z\s]`. */
  predicate IsAlphaOrSpace(c: char) { IsAlpha(c) || IsSpace(c) }

  predicate AllDigits(s: string) { forall k :: 0 <= k < |s| ==> IsDigit(s[k]) }
  predicate NoSpace(s: string) { forall k :: 0 <= k < |s| ==> !IsSpace(s[k]) }
  /** `re.search(r'\d', s)` succeeds. */
  predicate HasDigit(s: string) {
    s != [] && (IsDigit(s[0]) || HasDigit(s[1..]))
  }

  /** `HasDigit` holds exactly when some character is a digit. */
  lemma {:induction false} HasDigitSpec(s: string)
    ensures HasDigit(s) <==> exists k :: 0 <= k < |s| && IsDigit(s[k])
  {
    if s != [] {
      HasDigitSpec(s[1..]);
      if HasDigit(s[1..]) {
        var k :| 0 <= k < |s[1..]| && IsDigit(s[1..][k]);
        assert IsDigit(s[k + 1]);
      }
      if exists k :: 0 <= k < |s| && IsDigit(s[k]) {
        var k :| 0 <= k < |s| && IsDigit(s[k]);
        if k > 0 { assert IsDigit(s[1..][k - 1]); }
      }
    }
  }

  /** True when `s` neither starts nor ends with whitespace. */
  predicate IsStripped(s: string) {
    s == [] || (!IsSpace(s[0]) && !IsSpace(s[|s| - 1]))
  }

  /** `s.strip()`: whitespace is removed from both ends until neither end is whitespace. */
  function Strip(s: string): (r: string)
    ensures |r| <= |s|
    ensures IsStripped(r)
    decreases |s|
  {
    if s != [] && IsSpace(s[0]) then Strip(s[1..])
    else if s != [] && IsSpace(s[|s| - 1]) then Strip(s[..|s| - 1])
    else s
  }

  /** Number of whitespace characters at the start of `s`. */
  function LeadingSpace(s: string): (n: nat)
    ensures n <= |s|
  {
    if s != [] && IsSpace(s[0]) then 1 + LeadingSpace(s[1..]) else 0
  }

  /** `Strip` removes whitespace only: the result is the slice of `s` after its leading
      whitespace, with whitespace after it. */
  lemma {:induction false} StripSpec(s: string)
    ensures var a := LeadingSpace(s);
      && a + |Strip(s)| <= |s| && Strip(s) == s[a..a + |Strip(s)|]
      && (forall k :: 0 <= k < a ==> IsSpace(s[k]))
      && (forall k :: a + |Strip(s)| <= k < |s| ==> IsSpace(s[k]))
    decreases |s|
  {
    if s != [] && IsSpace(s[0]) {
      var t := s[1..];
      StripSpec(t);
      forall k | 1 <= k < |s| ensures s[k] == t[k - 1] { }
    } else if s != [] && IsSpace(s[|s| - 1]) {
      var t := s[..|s| - 1];
      StripSpec(t);
      assert Strip(s) == Strip(t) && LeadingSpace(s) == 0;
      assert t != [] && t[0] == s[0];
      assert LeadingSpace(t) == 0;
      forall k | 0 <= k < |t| ensures s[k] == t[k] { }
      assert Strip(s) == t[0..|Strip(s)|];
    }
  }

  /** Every character of a stripped string comes from the original. */
  lemma StripInside(s: string)
    ensures forall k :: 0 <= k < |Strip(s)| ==> Strip(s)[k] in s
  {
    StripSpec(s);
    var a := LeadingSpace(s);
    forall k | 0 <= k < |Strip(s)| ensures Strip(s)[k] in s {
      assert Strip(s)[k] == s[a + k];
    }
  }

  /** `Strip` gives the empty string only when `s` is all whitespace. */
  lemma StripEmpty(s: string)
    ensures Strip(s) == [] <==> forall k :: 0 <= k < |s| ==> IsSpace(s[k])
  {
    StripSpec(s);
    if Strip(s) != [] {
      assert !IsSpace(s[LeadingSpace(s)]);
    }
  }

  /** Stripping a string that is already stripped changes nothing. */
  lemma StripNoop(s: string)
    requires IsStripped(s)
    ensures Strip(s) == s
  {
  }

  /** Index of the first occurrence of `c` in `s`, or `|s|` when there is none. */
  function IndexOf(s: string, c: char): (i: nat)
    ensures i <= |s|
    ensures forall k :: 0 <= k < i ==> s[k] != c
    ensures i < |s| ==> s[i] == c
  {
    IndexFrom(s, c, 0)
  }

  /** Index of the first occurrence of `c` in `s` at or after `j`, or `|s|`. */
  function IndexFrom(s: string, c: char, j: nat): (i: nat)
    requires j <= |s|
    ensures j <= i <= |s|
    ensures forall k :: j <= k < i ==> s[k] != c
    ensures i < |s| ==> s[i] == c
    decreases |s| - j
  {
    if j == |s| || s[j] == c then j else IndexFrom(s, c, j + 1)
  }

  /** `sep.join(parts)` */
  function Join(sep: string, parts: seq<string>): string
  {
    if |parts| == 0 then ""
    else if |parts| == 1 then parts[0]
    else parts[0] + sep + Join(sep, parts[1..])
  }

  /** Joining a first part onto the join of the others. */
  lemma JoinCons(x: string, sep: string, r: seq<string>)
    requires r != []
    ensures Join(sep, [x] + r) == x + sep + Join(sep, r)
  {
    assert ([x] + r)[1..] == r;
  }

  /** Number of leading non-whitespace characters of `s`. */
  function WordLen(s: string): (n: nat)
    ensures n <= |s|
    ensures NoSpace(s[..n])
    ensures n == |s| || IsSpace(s[n])
  {
    if s == [] || IsSpace(s[0]) then 0 else 1 + WordLen(s[1..])
  }

  /** `s.split()` with no argument: the maximal runs of non-whitespace characters, in order. */
  function Words(s: string): (ws: seq<string>)
    decreases |s|
  {
    if s == [] then []
    else if IsSpace(s[0]) then Words(s[1..])
    else
      var n := WordLen(s);
      [s[..n]] + Words(s[n..])
  }

  /** Non-empty runs of non-whitespace characters. */
  predicate AreWords(ws: seq<string>) {
    forall i :: 0 <= i < |ws| ==> ws[i] != [] && NoSpace(ws[i])
  }

  /** Each word is non-empty and holds no whitespace. */
  lemma {:induction false} WordsAreWords(s: string)
    ensures AreWords(Words(s))
    decreases |s|
  {
    if s != [] {
      if IsSpace(s[0]) {
        WordsAreWords(s[1..]);
      } else {
        var n := WordLen(s);
        WordsAreWords(s[n..]);
        var ws := Words(s);
        assert ws == [s[..n]] + Words(s[n..]);
        forall i | 0 < i < |ws| ensures ws[i] != [] && NoSpace(ws[i]) {
          assert ws[i] == Words(s[n..])[i - 1];
        }
      }
    }
  }

  /** Splitting off a leading word. */
  lemma WordsCons(w: string, rest: string)
    requires w != [] && NoSpace(w)
    requires rest == [] || IsSpace(rest[0])
    ensures Words(w + rest) == [w] + Words(rest)
  {
    WordLenOf(w, rest);
    assert (w + rest)[..|w|] == w;
    assert (w + rest)[|w|..] == rest;
  }

  lemma {:induction false} WordLenOf(w: string, rest: string)
    requires NoSpace(w)
    requires rest == [] || IsSpace(rest[0])
    ensures WordLen(w + rest) == |w|
  {
    if w != [] {
      assert (w + rest)[1..] == w[1..] + rest;
      WordLenOf(w[1..], rest);
    } else {
      assert w + rest == rest;
    }
  }

  /** `str.split()` undoes `' '.join(...)` on words: joining non-empty space-free words with
      single spaces and splitting again gives back the same words. */
  lemma {:induction false} WordsOfJoin(ws: seq<string>)
    requires AreWords(ws)
    ensures Words(Join(" ", ws)) == ws
  {
    if |ws| == 0 {
    } else if |ws| == 1 {
      WordsCons(ws[0], "");
      assert ws[0] + "" == ws[0];
    } else {
      var j := Join(" ", ws[1..]);
      WordsOfJoin(ws[1..]);
      assert Join(" ", ws) == ws[0] + (" " + j);
      WordsCons(ws[0], " " + j);
      assert (" " + j)[1..] == j;
    }
  }

  /** Joining non-empty space-free words with single spaces yields a stripped string that is
      empty exactly when there are no words. */
  lemma {:induction false} JoinWordsStripped(ws: seq<string>)
    requires AreWords(ws)
    ensures IsStripped(Join(" ", ws))
    ensures Join(" ", ws) == [] <==> ws == []
    ensures ws != [] ==> Join(" ", ws)[0] == ws[0][0]
  {
    if |ws| >= 2 {
      JoinWordsStripped(ws[1..]);
      var j := Join(" ", ws[1..]);
      assert Join(" ", ws) == ws[0] + " " + j;
      assert Join(" ", ws)[|Join(" ", ws)| - 1] == j[|j| - 1];
    }
  }

  /** A trailing whitespace character adds no word. */
  lemma {:induction false} WordsDropTrailingSpace(s: string, c: char)
    requires IsSpace(c)
    ensures Words(s + [c]) == Words(s)
    decreases |s|
  {
    var t := s + [c];
    if s == [] {
      assert Words(t) == Words(t[1..]);
    } else if IsSpace(s[0]) {
      assert t[1..] == s[1..] + [c];
      WordsDropTrailingSpace(s[1..], c);
    } else {
      var n := WordLen(s);
      WordLenOf(s[..n], s[n..] + [c]);
      assert t == s[..n] + (s[n..] + [c]);
      assert WordLen(t) == n;
      assert t[..n] == s[..n];
      assert t[n..] == s[n..] + [c];
      WordsDropTrailingSpace(s[n..], c);
    }
  }

  /** `s.strip().split()` has the same words as `s.split()`. */
  lemma {:induction false} WordsOfStrip(s: string)
    ensures Words(Strip(s)) == Words(s)
    decreases |s|
  {
    if s != [] && IsSpace(s[0]) {
      WordsOfStrip(s[1..]);
    } else if s != [] && IsSpace(s[|s| - 1]) {
      var t := s[..|s| - 1];
      WordsOfStrip(t);
      assert s == t + [s[|s| - 1]];
      WordsDropTrailingSpace(t, s[|s| - 1]);
    }
  }

  /** A word is its own strip. */
  lemma WordStripped(w: string)
    requires w != [] && NoSpace(w)
    ensures Strip(w) == w
  {
    StripNoop(w);
  }

  /** `p` is a prefix of `s`. */
  predicate StartsWith(s: string, p: string) {
    |p| <= |s| && s[..|p|] == p
  }

  /** `sub in s` */
  predicate Contains(s: string, sub: string)
    decreases |s|
  {
    StartsWith(s, sub) || (s != [] && Contains(s[1..], sub))
  }

  /** An occurrence found by `Contains` is a real occurrence. */
  lemma {:induction false} ContainsAt(s: string, sub: string) returns (i: nat)
    requires Contains(s, sub)
    ensures i + |sub| <= |s| && s[i..i + |sub|] == sub
    decreases |s|
  {
    if StartsWith(s, sub) {
      i := 0;
    } else {
      var j := ContainsAt(s[1..], sub);
      i := j + 1;
      assert s[i..i + |sub|] == s[1..][j..j + |sub|];
    }
  }

  /** `s.replace(pat, '')`: occurrences are removed left to right without rescanning the
      result, as Python does. */
  function RemoveAll(s: string, pat: string): (r: string)
    requires pat != []
    ensures |r| <= |s|
    ensures !Contains(s, pat) ==> r == s
    decreases |s|
  {
    if |s| < |pat| then s
    else if s[..|pat|] == pat then RemoveAll(s[|pat|..], pat)
    else [s[0]] + RemoveAll(s[1..], pat)
  }

  /** Two adjacent slices make up the slice that spans both. */
  lemma SliceConcat<T>(s: seq<T>, i: nat, j: nat)
    requires i <= j <= |s|
    ensures s[..i] + s[i..j] == s[..j]
  {
  }

  /** Concatenation is associative. */
  lemma ConcatAssoc<T>(a: seq<T>, b: seq<T>, c: seq<T>)
    ensures (a + b) + c == a + (b + c)
  {
  }

  /** Dropping the last element of a concatenation drops it from the second part. */
  lemma InitOfConcat<T>(xs: seq<T>, ys: seq<T>)
    requires ys != []
    ensures (xs + ys)[..|xs + ys| - 1] == xs + ys[..|ys| - 1]
  {
  }

  /** The last element of a non-empty sequence. */
  function Last<T>(xs: seq<T>): T
    requires xs != []
  {
    xs[|xs| - 1]
  }
}
