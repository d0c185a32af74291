/** `str.split` with a one-character separator. */
module Split {
  import opened Text

  /** `s.split(c)` for a one-character separator: the pieces between the occurrences of `c`,
      empty pieces included. */
  function SplitOn(s: string, c: char): (parts: seq<string>)
    ensures |parts| >= 1
    decreases |s|
  {
    var i := IndexOf(s, c);
    if i == |s| then [s]
    else
      var rest := SplitOn(s[i + 1..], c);
      assert s[i] == c;
      [s[..i]] + rest
  }

  /** No piece holds the separator, and joining the pieces back with `c` gives `s` again. */
  lemma {:induction false} SplitOnJoin(s: string, c: char)
    ensures var parts := SplitOn(s, c);
      && (forall i, k :: 0 <= i < |parts| && 0 <= k < |parts[i]| ==> parts[i][k] != c)
      && Join([c], parts) == s
    decreases |s|
  {
    var i := IndexOf(s, c);
    if i < |s| {
      var t := s[i + 1..];
      var rest := SplitOn(t, c);
      SplitOnPast(s, c);
      SplitOnJoin(t, c);
      JoinCons(s[..i], [c], rest);
      assert s == s[..i] + [c] + t;
      var parts := [s[..i]] + rest;
      forall j, k | 0 <= j < |parts| && 0 <= k < |parts[j]| ensures parts[j][k] != c {
        if j > 0 {
          assert parts[j] == rest[j - 1];
        }
      }
    } else {
      SplitOnNone(s, c);
    }
  }

  /** Past the first separator, the pieces are the text before it and the pieces of the rest. */
  lemma SplitOnPast(s: string, c: char)
    requires IndexOf(s, c) < |s|
    ensures SplitOn(s, c) == [s[..IndexOf(s, c)]] + SplitOn(s[IndexOf(s, c) + 1..], c)
  {
  }

  /** The last piece of `s.split(c)` is the part of `s` after its last `c`: a suffix of `s`
      without `c`, preceded by `c` unless it is all of `s`. */
  lemma SplitOnLast(s: string, c: char)
    ensures |Last(SplitOn(s, c))| <= |s|
    ensures Last(SplitOn(s, c)) == s[|s| - |Last(SplitOn(s, c))|..]
    ensures forall k :: |s| - |Last(SplitOn(s, c))| <= k < |s| ==> s[k] != c
    ensures |Last(SplitOn(s, c))| < |s| ==> s[|s| - |Last(SplitOn(s, c))| - 1] == c
  {
    LastPieceAfterLast(s, c);
    AfterLastSpec(s, c);
  }

  /** The part of `s` after its last `c`; all of `s` when it holds no `c`. */
  function AfterLast(s: string, c: char): (r: string)
    ensures |r| <= |s|
    decreases |s|
  {
    var i := IndexOf(s, c);
    if i == |s| then s else AfterLast(s[i + 1..], c)
  }

  /** Past the first `c`, the text after the last one is that of the rest. */
  lemma AfterLastPast(s: string, c: char)
    requires IndexOf(s, c) < |s|
    ensures AfterLast(s, c) == AfterLast(s[IndexOf(s, c) + 1..], c)
  {
  }

  /** Without `c`, the text after the last one is all of `s`. */
  lemma AfterLastNone(s: string, c: char)
    requires IndexOf(s, c) == |s|
    ensures AfterLast(s, c) == s
  {
  }

  /** The last piece of the split is the text after the last separator. */
  lemma {:induction false} LastPieceAfterLast(s: string, c: char)
    ensures Last(SplitOn(s, c)) == AfterLast(s, c)
    decreases |s|
  {
    var i := IndexOf(s, c);
    if i < |s| {
      AfterLastPast(s, c);
      LastPieceAfterLast(s[i + 1..], c);
      LastOfSplitStep(s, c);
    } else {
      AfterLastNone(s, c);
      SplitOnNone(s, c);
    }
  }

  /** The text after the last `c` is a suffix without `c`, preceded by `c` unless it is all
      of `s`. */
  lemma {:induction false} AfterLastSpec(s: string, c: char)
    ensures var n := |s| - |AfterLast(s, c)|;
      && AfterLast(s, c) == s[n..]
      && (forall k :: n <= k < |s| ==> s[k] != c)
      && (n > 0 ==> s[n - 1] == c)
    decreases |s|
  {
    var i := IndexOf(s, c);
    if i < |s| {
      var t := s[i + 1..];
      AfterLastSpec(t, c);
      var l := AfterLast(t, c);
      var m := |t| - |l|;
      AfterLastPast(s, c);
      assert |s| - |l| == i + 1 + m;
      assert t[m..] == s[i + 1 + m..];
      forall k | i + 1 + m <= k < |s| ensures s[k] != c {
        assert s[k] == t[k - i - 1];
      }
      if m > 0 {
        assert s[i + m] == t[m - 1];
      }
    } else {
      AfterLastNone(s, c);
    }
  }

  /** Without a separator, `s` is the only piece. */
  lemma SplitOnNone(s: string, c: char)
    requires IndexOf(s, c) == |s|
    ensures SplitOn(s, c) == [s]
  {
  }

  /** Past the first separator, the last piece is the last piece of the rest. */
  lemma LastOfSplitStep(s: string, c: char)
    requires IndexOf(s, c) < |s|
    ensures Last(SplitOn(s, c)) == Last(SplitOn(s[IndexOf(s, c) + 1..], c))
  {
    var i := IndexOf(s, c);
    SplitOnPast(s, c);
    LastOfCons(s[..i], SplitOn(s[i + 1..], c));
  }

  /** The last element of a non-empty sequence is unchanged by a new head. */
  lemma LastOfCons<T>(x: T, r: seq<T>)
    requires r != []
    ensures Last([x] + r) == Last(r)
  {
  }

  /** A suffix without `c` that is all of `s` or follows a `c` is the last piece. */
  lemma LastPieceIs(s: string, c: char, n: nat)
    requires n <= |s|
    requires forall k :: |s| - n <= k < |s| ==> s[k] != c
    requires n == |s| || s[|s| - n - 1] == c
    ensures Last(SplitOn(s, c)) == s[|s| - n..]
  {
    LastPieceAfterLast(s, c);
    AfterLastSpec(s, c);
    var m := |s| - |AfterLast(s, c)|;
    assert n < |s| ==> s[|s| - n - 1] == c;
    assert m > 0 ==> s[m - 1] == c;
    assert m == |s| - n;
  }
}
