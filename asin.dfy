/** The ASIN counter of the web application: `extract_asins` finds every ten-character
    ASIN token in pasted order text, counts each distinct one and sorts by count;
    `extract_asins_advanced` sums the quantities of matched products per ASIN, keeps the
    last title seen and sorts by total quantity. */
module Asin {
  import opened Text

  /** A route either renders an error message or a result. */
  datatype Outcome<T> = Failure(message: string) | Success(value: T)

  // ---------------------------------------------------------------------------------------
  // The token pattern \b[A-Z0-9]{10}\b
  // ---------------------------------------------------------------------------------------

  /** A character `\w` matches, restricted to ASCII. */
  predicate IsWordChar(c: char) { IsAlpha(c) || IsDigit(c) || c == '_' }

  /** A character of `[A-Z0-9]`. */
  predicate IsAsinChar(c: char) { IsUpper(c) || IsDigit(c) }

  /** A string the pattern can match as a whole: ten upper-case letters or digits. */
  predicate IsAsin(w: string) {
    |w| == 10 && forall k :: 0 <= k < 10 ==> IsAsinChar(w[k])
  }

  /** `re.findall(r'\b[A-Z0-9]{10}\b', s)` on the part of the text that is left, given
      whether the character before it is a word character: a token matches where no word
      character precedes it, ten pattern characters follow, and no word character comes
      after them; the search resumes after a match and one character further otherwise. */
  function Find(s: string, afterWord: bool): (tokens: seq<string>)
    ensures forall i :: 0 <= i < |tokens| ==> IsAsin(tokens[i])
    decreases |s|
  {
    if |s| < 10 then []
    else if !afterWord && IsAsin(s[..10]) && (|s| == 10 || !IsWordChar(s[10])) then
      [s[..10]] + Find(s[10..], true)
    else Find(s[1..], IsWordChar(s[0]))
  }

  /** All ASIN tokens of an order text, in order: exactly the ten characters at every
      position where the pattern matches. */
  function FindAsins(text: string): (tokens: seq<string>)
    ensures forall i :: 0 <= i < |tokens| ==> IsAsin(tokens[i])
    ensures tokens == TokensFrom(text, 0)
  {
    FindFrom(text, 0);
    assert text[0..] == text;
    Find(text, false)
  }

  /** `\b[A-Z0-9]{10}\b` matches at position `i` of the whole text: ten pattern characters
      with no word character immediately before or after them. */
  predicate IsTokenAt(t: string, i: nat) {
    && i + 10 <= |t|
    && IsAsin(t[i..i + 10])
    && (i == 0 || !IsWordChar(t[i - 1]))
    && (i + 10 == |t| || !IsWordChar(t[i + 10]))
  }

  /** The tokens at positions `i` onward, in order of position: the reference the scanning
      matcher is proved against. */
  function TokensFrom(t: string, i: nat): (tokens: seq<string>)
    decreases |t| - i
  {
    if i + 10 > |t| then []
    else (if IsTokenAt(t, i) then [t[i..i + 10]] else []) + TokensFrom(t, i + 1)
  }

  /** No token starts inside a token: between the positions just after a token's start and
      its end, the reference finds nothing new. */
  lemma {:induction false} NoTokenInside(t: string, i: nat, j: nat)
    requires IsTokenAt(t, i) && i < j <= i + 10
    ensures TokensFrom(t, j) == TokensFrom(t, i + 10)
    decreases i + 10 - j
  {
    if j < i + 10 {
      assert t[i..i + 10][j - 1 - i] == t[j - 1];
      assert !IsTokenAt(t, j);
      NoTokenInside(t, i, j + 1);
    }
  }

  /** The scan over the rest of the text, told whether a word character precedes it, finds
      exactly the tokens the reference lists from that position. */
  lemma {:induction false} FindFrom(t: string, i: nat)
    requires i <= |t|
    ensures Find(t[i..], i > 0 && IsWordChar(t[i - 1])) == TokensFrom(t, i)
    decreases |t| - i
  {
    if i + 10 <= |t| {
      if IsTokenAt(t, i) {
        FindAtToken(t, i);
        FindFrom(t, i + 10);
        NoTokenInside(t, i, i + 1);
      } else {
        FindPastNonToken(t, i);
        FindFrom(t, i + 1);
      }
    }
  }

  /** At a token the scan takes it and resumes after it, behind a word character. */
  lemma FindAtToken(t: string, i: nat)
    requires IsTokenAt(t, i)
    ensures IsWordChar(t[i + 9])
    ensures Find(t[i..], i > 0 && IsWordChar(t[i - 1])) == [t[i..i + 10]] + Find(t[i + 10..], true)
  {
    var s := t[i..];
    assert s[..10] == t[i..i + 10];
    assert |s| > 10 ==> s[10] == t[i + 10];
    assert s[10..] == t[i + 10..];
    assert t[i..i + 10][9] == t[i + 9];
  }

  /** Where no token starts, the scan moves on by one character. */
  lemma FindPastNonToken(t: string, i: nat)
    requires i + 10 <= |t| && !IsTokenAt(t, i)
    ensures Find(t[i..], i > 0 && IsWordChar(t[i - 1])) == Find(t[i + 1..], IsWordChar(t[i]))
  {
    var s := t[i..];
    assert s[..10] == t[i..i + 10];
    assert |s| > 10 ==> s[10] == t[i + 10];
    assert s[1..] == t[i + 1..] && s[0] == t[i];
  }

  /** Every ten-character token standing between non-word characters is found. */
  lemma FindComplete(text: string, i: nat)
    requires IsTokenAt(text, i)
    ensures text[i..i + 10] in FindAsins(text)
  {
    TokenInFrom(text, 0, i);
  }

  /** A token at `i` is listed by the reference from any earlier position. */
  lemma {:induction false} TokenInFrom(t: string, j: nat, i: nat)
    requires j <= i && IsTokenAt(t, i)
    ensures t[i..i + 10] in TokensFrom(t, j)
    decreases i - j
  {
    if j < i {
      TokenInFrom(t, j + 1, i);
    }
  }

  /** ASINs listed one per space are found again, in order and with repeats. */
  lemma {:induction false} FindJoin(asins: seq<string>)
    requires forall i :: 0 <= i < |asins| ==> IsAsin(asins[i])
    ensures FindAsins(Join(" ", asins)) == asins
  {
    if |asins| == 1 {
      assert asins[0][..10] == asins[0];
      assert asins[0][10..] == "";
    } else if |asins| > 1 {
      var x := asins[0];
      var rest := Join(" ", asins[1..]);
      FindJoin(asins[1..]);
      JoinLength(asins[1..]);
      var s := x + (" " + rest);
      assert Join(" ", asins) == s;
      assert s[..10] == x;
      assert s[10] == ' ';
      assert s[10..] == " " + rest;
      assert (" " + rest)[1..] == rest;
      assert !IsWordChar(' ');
      assert Find(" " + rest, true) == Find(rest, false);
      assert Find(s, false) == [x] + Find(s[10..], true);
    }
  }

  /** A non-empty list of ASINs joined by spaces is at least ten characters long. */
  lemma {:induction false} JoinLength(asins: seq<string>)
    requires |asins| >= 1
    requires forall i :: 0 <= i < |asins| ==> IsAsin(asins[i])
    ensures |Join(" ", asins)| >= 10
  {
    if |asins| > 1 {
      JoinLength(asins[1..]);
    }
  }

  /** A run of eleven or more pattern characters holds no token: the pattern never matches
      inside a longer word. */
  lemma {:induction false} NoTokenInsideLongerRun(s: string, afterWord: bool)
    requires |s| >= 11 || afterWord
    requires forall k :: 0 <= k < |s| ==> IsAsinChar(s[k])
    ensures Find(s, afterWord) == []
  {
    if |s| >= 10 {
      assert IsWordChar(s[0]);
      if |s| > 10 {
        assert IsWordChar(s[10]);
      }
      NoTokenInsideLongerRun(s[1..], true);
    }
  }

  // ---------------------------------------------------------------------------------------
  // Counter and sorted
  // ---------------------------------------------------------------------------------------

  /** The keys of counter or dictionary entries. */
  ghost function KeysOf<V>(t: seq<(string, V)>): set<string> {
    if t == [] then {} else {t[0].0} + KeysOf(t[1..])
  }

  /** No key appears in two entries, as in the items of a dictionary. */
  ghost predicate DistinctKeys<V>(t: seq<(string, V)>) {
    t == [] || (t[0].0 !in KeysOf(t[1..]) && DistinctKeys(t[1..]))
  }

  /** The count of key `k` in counter entries: that of its first entry, zero when absent. */
  function CountOf(t: seq<(string, nat)>, k: string): nat {
    if t == [] then 0 else if t[0].0 == k then t[0].1 else CountOf(t[1..], k)
  }

  /** With distinct keys, every entry holds its key's count. */
  lemma {:induction false} CountOfAt(t: seq<(string, nat)>, i: nat)
    requires DistinctKeys(t) && i < |t|
    ensures CountOf(t, t[i].0) == t[i].1
  {
    if i > 0 {
      CountOfAt(t[1..], i - 1);
      KeyAt(t[1..], i - 1);
    }
  }

  /** Every entry's key is one of the keys. */
  lemma {:induction false} KeyAt<V>(t: seq<(string, V)>, i: nat)
    requires i < |t|
    ensures t[i].0 in KeysOf(t)
  {
    if i > 0 {
      KeyAt(t[1..], i - 1);
    }
  }

  /** Counts one more occurrence of `x`: its entry goes up by one, or a new entry with
      count one is added at the end. */
  function Bump(t: seq<(string, nat)>, x: string): (r: seq<(string, nat)>)
    ensures |r| == |t| || |r| == |t| + 1
  {
    if t == [] then [(x, 1)]
    else if t[0].0 == x then [(x, t[0].1 + 1)] + t[1..]
    else [t[0]] + Bump(t[1..], x)
  }

  /** Bumping adds one to the count of `x` and nothing else; the keys gain `x`, and stay
      distinct. */
  lemma {:induction false} BumpSpec(t: seq<(string, nat)>, x: string)
    ensures forall k :: CountOf(Bump(t, x), k) == CountOf(t, k) + if k == x then 1 else 0
    ensures KeysOf(Bump(t, x)) == KeysOf(t) + {x}
    ensures DistinctKeys(t) ==> DistinctKeys(Bump(t, x))
  {
    if t != [] && t[0].0 != x {
      BumpSpec(t[1..], x);
      assert Bump(t, x)[1..] == Bump(t[1..], x);
    } else if t != [] {
      assert Bump(t, x)[1..] == t[1..];
    }
  }

  /** `Counter(tokens).items()`: each distinct token once, in order of first occurrence,
      with its number of occurrences. */
  function Tally(tokens: seq<string>): (t: seq<(string, nat)>)
  {
    if tokens == [] then [] else Bump(Tally(tokens[..|tokens| - 1]), Last(tokens))
  }

  /** The counter has one entry per distinct token, holding the token's multiplicity. */
  lemma TallySpec(tokens: seq<string>)
    ensures var t := Tally(tokens);
      && DistinctKeys(t)
      && KeysOf(t) == set k | k in multiset(tokens)
      && forall i :: 0 <= i < |t| ==> t[i].1 == multiset(tokens)[t[i].0]
  {
    var t := Tally(tokens);
    TallyKeys(tokens);
    TallyDistinct(tokens);
    TallyCount(tokens);
    forall i | 0 <= i < |t| ensures t[i].1 == multiset(tokens)[t[i].0] {
      CountOfAt(t, i);
    }
  }

  /** The counter's keys are the distinct tokens. */
  lemma {:induction false} TallyKeys(tokens: seq<string>)
    ensures KeysOf(Tally(tokens)) == set k | k in multiset(tokens)
  {
    if tokens != [] {
      var init := tokens[..|tokens| - 1];
      var x := Last(tokens);
      TallyKeys(init);
      BumpSpec(Tally(init), x);
      assert tokens == init + [x];
      assert multiset(tokens) == multiset(init) + multiset{x};
      assert (set k | k in multiset(tokens)) == (set k | k in multiset(init)) + {x};
    }
  }

  /** Each key appears once in the counter. */
  lemma {:induction false} TallyDistinct(tokens: seq<string>)
    ensures DistinctKeys(Tally(tokens))
  {
    if tokens != [] {
      var init := tokens[..|tokens| - 1];
      TallyDistinct(init);
      BumpSpec(Tally(init), Last(tokens));
    }
  }

  /** The count the counter reports for any key is its multiplicity. */
  lemma {:induction false} TallyCount(tokens: seq<string>)
    ensures forall k :: CountOf(Tally(tokens), k) == multiset(tokens)[k]
  {
    if tokens != [] {
      var init := tokens[..|tokens| - 1];
      TallyCount(init);
      BumpSpec(Tally(init), Last(tokens));
      assert tokens == init + [Last(tokens)];
      assert multiset(tokens) == multiset(init) + multiset{Last(tokens)};
    }
  }

  /** Inserts `x` before the first element whose key is not greater, so that `x` stays
      ahead of the elements with its key. */
  function InsertDesc<T>(x: T, ys: seq<T>, key: T -> int): (r: seq<T>)
    ensures |r| == |ys| + 1
  {
    if ys == [] || key(x) >= key(ys[0]) then [x] + ys
    else [ys[0]] + InsertDesc(x, ys[1..], key)
  }

  /** `sorted(xs, key=key, reverse=True)` as an insertion sort from the back. */
  function SortDesc<T>(xs: seq<T>, key: T -> int): (r: seq<T>)
    ensures |r| == |xs|
  {
    if xs == [] then [] else InsertDesc(xs[0], SortDesc(xs[1..], key), key)
  }

  /** Keys do not increase along the sequence. */
  predicate NonIncreasing<T>(xs: seq<T>, key: T -> int) {
    forall i, j :: 0 <= i < j < |xs| ==> key(xs[i]) >= key(xs[j])
  }

  /** Inserting into a non-increasing sequence keeps it non-increasing and adds `x`. */
  lemma {:induction false} InsertDescSpec<T>(x: T, ys: seq<T>, key: T -> int)
    requires NonIncreasing(ys, key)
    ensures NonIncreasing(InsertDesc(x, ys, key), key)
    ensures multiset(InsertDesc(x, ys, key)) == multiset(ys) + multiset{x}
  {
    InsertDescPerm(x, ys, key);
    if ys != [] && key(x) < key(ys[0]) {
      InsertDescSpec(x, ys[1..], key);
      InsertDescBelow(x, ys[1..], key, key(ys[0]));
      var r := InsertDesc(x, ys, key);
      var rest := InsertDesc(x, ys[1..], key);
      assert r == [ys[0]] + rest;
      forall i, j | 0 <= i < j < |r| ensures key(r[i]) >= key(r[j]) {
        assert r[j] == rest[j - 1];
        if i > 0 {
          assert r[i] == rest[i - 1];
        }
      }
    }
  }

  /** Inserting adds `x` to the elements. */
  lemma {:induction false} InsertDescPerm<T>(x: T, ys: seq<T>, key: T -> int)
    ensures multiset(InsertDesc(x, ys, key)) == multiset(ys) + multiset{x}
  {
    if ys != [] && key(x) < key(ys[0]) {
      InsertDescPerm(x, ys[1..], key);
      assert ys == [ys[0]] + ys[1..];
    }
  }

  /** A bound on the keys of `x` and of `ys` bounds the keys after inserting. */
  lemma {:induction false} InsertDescBelow<T>(x: T, ys: seq<T>, key: T -> int, b: int)
    requires key(x) <= b
    requires forall j :: 0 <= j < |ys| ==> key(ys[j]) <= b
    ensures forall j :: 0 <= j < |ys| + 1 ==> key(InsertDesc(x, ys, key)[j]) <= b
  {
    if ys != [] && key(x) < key(ys[0]) {
      InsertDescBelow(x, ys[1..], key, b);
    }
  }

  /** The sort returns a non-increasing permutation of its input. */
  lemma SortDescSpec<T>(xs: seq<T>, key: T -> int)
    ensures NonIncreasing(SortDesc(xs, key), key)
    ensures multiset(SortDesc(xs, key)) == multiset(xs)
  {
    SortDescSorted(xs, key);
    SortDescPerm(xs, key);
  }

  /** The sort's output is non-increasing. */
  lemma {:induction false} SortDescSorted<T>(xs: seq<T>, key: T -> int)
    ensures NonIncreasing(SortDesc(xs, key), key)
  {
    if xs != [] {
      SortDescSorted(xs[1..], key);
      InsertDescSpec(xs[0], SortDesc(xs[1..], key), key);
    }
  }

  /** The sort's output is a permutation of its input. */
  lemma {:induction false} SortDescPerm<T>(xs: seq<T>, key: T -> int)
    ensures multiset(SortDesc(xs, key)) == multiset(xs)
  {
    if xs != [] {
      SortDescPerm(xs[1..], key);
      InsertDescPerm(xs[0], SortDesc(xs[1..], key), key);
      assert xs == [xs[0]] + xs[1..];
    }
  }

  // ---------------------------------------------------------------------------------------
  // extract_asins
  // ---------------------------------------------------------------------------------------

  /** The error messages the two routes render. */
  const NoText := "Please enter order text to extract ASINs."
  const NoTextAdvanced := "Please enter order text to extract ASINs with titles."
  const NoProducts :=
    "Could not find any products with the expected pattern. Make sure to copy the entire order page text."

  /** The sort key of a counter entry: its count. */
  function CountKey(entry: (string, nat)): int { entry.1 }

  /** `extract_asins`: an error for empty text, otherwise every distinct token with its
      count, most frequent first. */
  function ExtractAsins(text: string): (r: Outcome<seq<(string, nat)>>)
    ensures r.Failure? <==> text == ""
  {
    if text == "" then Failure(NoText)
    else Success(SortDesc(Tally(FindAsins(text)), CountKey))
  }

  /** The counted result lists exactly the counter's entries, most frequent first: each
      entry is an ASIN token of the text with its number of occurrences, and every token of
      the text has an entry. */
  lemma ExtractAsinsSpec(text: string)
    requires text != ""
    ensures var tokens := FindAsins(text);
      var r := ExtractAsins(text).value;
      && NonIncreasing(r, CountKey)
      && multiset(r) == multiset(Tally(tokens))
      && (forall i :: 0 <= i < |r| ==> IsAsin(r[i].0) && r[i].1 == multiset(tokens)[r[i].0] > 0)
      && (forall k :: k in multiset(tokens) ==> exists i :: 0 <= i < |r| && r[i].0 == k)
  {
    SortDescSpec(Tally(FindAsins(text)), CountKey);
    ExtractedCounts(text);
    ExtractedAll(text);
  }

  /** Each entry of the result is an ASIN token with its number of occurrences. */
  lemma ExtractedCounts(text: string)
    requires text != ""
    ensures var tokens := FindAsins(text);
      var r := ExtractAsins(text).value;
      forall i :: 0 <= i < |r| ==> IsAsin(r[i].0) && r[i].1 == multiset(tokens)[r[i].0] > 0
  {
    var tokens := FindAsins(text);
    var t := Tally(tokens);
    var r := ExtractAsins(text).value;
    SortDescPerm(t, CountKey);
    TallySpec(tokens);
    forall i | 0 <= i < |r| ensures IsAsin(r[i].0) && r[i].1 == multiset(tokens)[r[i].0] > 0 {
      var j := IndexIn(t, r, i);
      KeyAt(t, j);
      assert r[i].0 in multiset(tokens);
      var k :| 0 <= k < |tokens| && tokens[k] == r[i].0;
    }
  }

  /** Every token of the text has an entry in the result. */
  lemma ExtractedAll(text: string)
    requires text != ""
    ensures var tokens := FindAsins(text);
      var r := ExtractAsins(text).value;
      forall k :: k in multiset(tokens) ==> exists i :: 0 <= i < |r| && r[i].0 == k
  {
    var tokens := FindAsins(text);
    var t := Tally(tokens);
    var r := ExtractAsins(text).value;
    SortDescPerm(t, CountKey);
    TallyKeys(tokens);
    forall k | k in multiset(tokens) ensures exists i :: 0 <= i < |r| && r[i].0 == k {
      var j := KeyIndex(t, k);
      assert t[j] in multiset(r);
      var i :| 0 <= i < |r| && r[i] == t[j];
    }
  }

  /** An element of a permutation is found in the original. */
  lemma IndexIn<T>(t: seq<T>, r: seq<T>, i: nat) returns (j: nat)
    requires multiset(r) == multiset(t) && i < |r|
    ensures j < |t| && t[j] == r[i]
  {
    assert r[i] in multiset(t);
    j :| 0 <= j < |t| && t[j] == r[i];
  }

  /** Every key has an entry. */
  lemma {:induction false} KeyIndex<V>(t: seq<(string, V)>, k: string) returns (j: nat)
    requires k in KeysOf(t)
    ensures j < |t| && t[j].0 == k
  {
    if t[0].0 == k {
      j := 0;
    } else {
      var j' := KeyIndex(t[1..], k);
      j := j' + 1;
    }
  }

  /** Pasting ASINs separated by spaces counts each one as often as it was listed. */
  lemma CountsOfListedAsins(asins: seq<string>)
    requires asins != []
    requires forall i :: 0 <= i < |asins| ==> IsAsin(asins[i])
    ensures var r := ExtractAsins(Join(" ", asins));
      && r.Success?
      && forall i :: 0 <= i < |r.value| ==> r.value[i].1 == multiset(asins)[r.value[i].0]
  {
    FindJoin(asins);
    JoinLength(asins);
    ExtractAsinsSpec(Join(" ", asins));
  }

  // ---------------------------------------------------------------------------------------
  // extract_asins_advanced
  // ---------------------------------------------------------------------------------------

  /** One match of the product pattern: the title, the ASIN and the quantity it captures. */
  datatype ProductMatch = ProductMatch(title: string, asin: string, qty: nat)

  /** A product of the shopping list: its title and total quantity. */
  datatype Item = Item(title: string, qty: nat)

  /** The total quantity matched for an ASIN. */
  function SumQty(ms: seq<ProductMatch>, asin: string): nat {
    if ms == [] then 0
    else SumQty(ms[..|ms| - 1], asin) + if Last(ms).asin == asin then Last(ms).qty else 0
  }

  /** The title of the last match for an ASIN, if any. */
  function LastTitle(ms: seq<ProductMatch>, asin: string): Option<string> {
    if ms == [] then None
    else if Last(ms).asin == asin then Some(Last(ms).title)
    else LastTitle(ms[..|ms| - 1], asin)
  }

  /** The item of the first entry with key `k`, if any. */
  function ItemOf(t: seq<(string, Item)>, k: string): Option<Item> {
    if t == [] then None else if t[0].0 == k then Some(t[0].1) else ItemOf(t[1..], k)
  }

  /** The quantity accumulated for key `k`, zero when absent. */
  function QtyIn(t: seq<(string, Item)>, k: string): nat {
    if ItemOf(t, k).Some? then ItemOf(t, k).value.qty else 0
  }

  /** One loop step on the accumulated entries: the match's ASIN gets the stripped title and
      its quantity added, starting from an empty title and zero when new. */
  function Add(t: seq<(string, Item)>, m: ProductMatch): seq<(string, Item)> {
    if t == [] then [(m.asin, Item(Strip(m.title), m.qty))]
    else if t[0].0 == m.asin then [(m.asin, Item(Strip(m.title), t[0].1.qty + m.qty))] + t[1..]
    else [t[0]] + Add(t[1..], m)
  }

  /** The entries of `asin_data` after the loop, in insertion order. */
  function Totals(ms: seq<ProductMatch>): seq<(string, Item)> {
    if ms == [] then [] else Add(Totals(ms[..|ms| - 1]), Last(ms))
  }

  /** What one step does to each key's item, to the keys, and to their distinctness. */
  lemma {:induction false} AddSpec(t: seq<(string, Item)>, m: ProductMatch)
    ensures ItemOf(Add(t, m), m.asin) == Some(Item(Strip(m.title), QtyIn(t, m.asin) + m.qty))
    ensures forall k :: k != m.asin ==> ItemOf(Add(t, m), k) == ItemOf(t, k)
    ensures KeysOf(Add(t, m)) == KeysOf(t) + {m.asin}
    ensures DistinctKeys(t) ==> DistinctKeys(Add(t, m))
  {
    if t != [] && t[0].0 != m.asin {
      AddSpec(t[1..], m);
      assert Add(t, m)[1..] == Add(t[1..], m);
    } else if t != [] {
      assert Add(t, m)[1..] == t[1..];
    }
  }

  /** After the loop, an ASIN has an item exactly when some match has it; the item holds the
      stripped title of its last match and the sum of its matched quantities. */
  lemma {:induction false} TotalsItem(ms: seq<ProductMatch>, k: string)
    ensures ItemOf(Totals(ms), k) == (
      if LastTitle(ms, k).Some? then Some(Item(Strip(LastTitle(ms, k).value), SumQty(ms, k))) else None)
  {
    if ms != [] {
      var init := ms[..|ms| - 1];
      TotalsItem(init, k);
      AddSpec(Totals(init), Last(ms));
      NoTitleNoQty(init, k);
    }
  }

  /** The entries after the loop have distinct keys, as a dictionary's items do. */
  lemma {:induction false} TotalsDistinct(ms: seq<ProductMatch>)
    ensures DistinctKeys(Totals(ms))
  {
    if ms != [] {
      TotalsDistinct(ms[..|ms| - 1]);
      AddSpec(Totals(ms[..|ms| - 1]), Last(ms));
    }
  }

  /** An ASIN no match has contributes nothing. */
  lemma {:induction false} NoTitleNoQty(ms: seq<ProductMatch>, k: string)
    ensures LastTitle(ms, k).None? ==> SumQty(ms, k) == 0
  {
    if ms != [] {
      NoTitleNoQty(ms[..|ms| - 1], k);
    }
  }

  /** With distinct keys, every entry holds its key's item. */
  lemma {:induction false} ItemAt(t: seq<(string, Item)>, i: nat)
    requires DistinctKeys(t) && i < |t|
    ensures ItemOf(t, t[i].0) == Some(t[i].1)
  {
    if i > 0 {
      ItemAt(t[1..], i - 1);
      KeyAt(t[1..], i - 1);
    }
  }

  /** The entries of a dictionary, listed in the order of `keys`. */
  function Entries(keys: seq<string>, data: map<string, Item>): seq<(string, Item)>
    requires forall j :: 0 <= j < |keys| ==> keys[j] in data
  {
    if keys == [] then [] else [(keys[0], data[keys[0]])] + Entries(keys[1..], data)
  }

  /** Every listed key is a key of the dictionary. */
  lemma {:induction false} EntriesKeys(keys: seq<string>, data: map<string, Item>)
    requires forall j :: 0 <= j < |keys| ==> keys[j] in data
    ensures KeysOf(Entries(keys, data)) <= data.Keys
  {
    if keys != [] {
      EntriesKeys(keys[1..], data);
    }
  }

  /** Changing a key that is not listed leaves the entries alone. */
  lemma {:induction false} EntriesFrame(keys: seq<string>, data: map<string, Item>, k: string, v: Item)
    requires forall j :: 0 <= j < |keys| ==> keys[j] in data
    requires k !in KeysOf(Entries(keys, data))
    ensures Entries(keys, data[k := v]) == Entries(keys, data)
  {
    if keys != [] {
      EntriesFrame(keys[1..], data, k, v);
    }
  }

  /** Updating a listed key in place is one step on its entries. */
  lemma {:induction false} EntriesUpdate(keys: seq<string>, data: map<string, Item>, m: ProductMatch)
    requires forall j :: 0 <= j < |keys| ==> keys[j] in data
    requires DistinctKeys(Entries(keys, data)) && m.asin in KeysOf(Entries(keys, data))
    ensures m.asin in data
    ensures Entries(keys, data[m.asin := Item(Strip(m.title), data[m.asin].qty + m.qty)])
         == Add(Entries(keys, data), m)
  {
    EntriesKeys(keys, data);
    var e := Entries(keys, data);
    assert e[1..] == Entries(keys[1..], data);
    var v := Item(Strip(m.title), data[m.asin].qty + m.qty);
    if keys[0] == m.asin {
      EntriesFrame(keys[1..], data, m.asin, v);
    } else {
      EntriesUpdate(keys[1..], data, m);
    }
  }

  /** Listing a new key at the end is one step on the entries. */
  lemma {:induction false} EntriesAppend(keys: seq<string>, data: map<string, Item>, m: ProductMatch)
    requires forall j :: 0 <= j < |keys| ==> keys[j] in data
    requires m.asin !in KeysOf(Entries(keys, data))
    ensures Entries(keys + [m.asin], data[m.asin := Item(Strip(m.title), m.qty)]) == Add(Entries(keys, data), m)
  {
    var d := data[m.asin := Item(Strip(m.title), m.qty)];
    if keys == [] {
      assert Entries([m.asin], d) == [(m.asin, Item(Strip(m.title), m.qty))];
    } else {
      EntriesAppend(keys[1..], data, m);
      assert (keys + [m.asin])[1..] == keys[1..] + [m.asin];
      assert Entries(keys, data)[1..] == Entries(keys[1..], data);
    }
  }

  /** The loop of `extract_asins_advanced` over a `defaultdict`: each match sets its ASIN's
      title to the stripped title and adds its quantity; the dictionary's items come out in
      insertion order. */
  method Accumulate(ms: seq<ProductMatch>) returns (items: seq<(string, Item)>)
    ensures items == Totals(ms)
  {
    var keys: seq<string> := [];
    var data: map<string, Item> := map[];
    var i := 0;
    while i < |ms|
      invariant 0 <= i <= |ms|
      invariant Tracks(keys, data, Totals(ms[..i]))
    {
      var m := ms[i];
      TotalsStep(ms, i);
      TrackStep(keys, data, ms[..i], m);
      if m.asin in data {
        data := data[m.asin := Item(Strip(m.title), data[m.asin].qty + m.qty)];
      } else {
        keys := keys + [m.asin];
        data := data[m.asin := Item(Strip(m.title), 0 + m.qty)];
      }
      i := i + 1;
    }
    assert ms[..i] == ms;
    items := Entries(keys, data);
  }

  /** The key list and dictionary of the loop hold the entries `t`, each key once. */
  ghost predicate Tracks(keys: seq<string>, data: map<string, Item>, t: seq<(string, Item)>) {
    && (forall j :: 0 <= j < |keys| ==> keys[j] in data)
    && Entries(keys, data) == t
    && data.Keys == KeysOf(t)
  }

  /** One more match is one more step of the entries. */
  lemma TotalsStep(ms: seq<ProductMatch>, i: nat)
    requires i < |ms|
    ensures Totals(ms[..i + 1]) == Add(Totals(ms[..i]), ms[i])
  {
    assert ms[..i + 1][..i] == ms[..i];
  }

  /** A step of the loop keeps the dictionary tracking the entries: an ASIN already present
      is updated in place, a new one is listed at the end. */
  lemma TrackStep(keys: seq<string>, data: map<string, Item>, done: seq<ProductMatch>, m: ProductMatch)
    requires Tracks(keys, data, Totals(done))
    ensures m.asin in data ==>
      Tracks(keys, data[m.asin := Item(Strip(m.title), data[m.asin].qty + m.qty)], Add(Totals(done), m))
    ensures m.asin !in data ==>
      Tracks(keys + [m.asin], data[m.asin := Item(Strip(m.title), 0 + m.qty)], Add(Totals(done), m))
  {
    var t := Totals(done);
    TotalsDistinct(done);
    AddSpec(t, m);
    if m.asin in data {
      EntriesUpdate(keys, data, m);
    } else {
      EntriesAppend(keys, data, m);
    }
  }

  /** The sort key of an accumulated entry: its total quantity. */
  function QtyKey(entry: (string, Item)): int { entry.1.qty }

  /** `extract_asins_advanced` on the matches of its product pattern in `text`: an error for
      empty text or when nothing matched, otherwise the accumulated items, largest total
      quantity first. */
  function Advanced(text: string, ms: seq<ProductMatch>): (r: Outcome<seq<(string, Item)>>)
    ensures r.Failure? <==> text == "" || ms == []
  {
    if text == "" then Failure(NoTextAdvanced)
    else if ms == [] then
      Failure(NoProducts)
    else Success(SortDesc(Totals(ms), QtyKey))
  }

  /** The route: the two error checks, the loop, then the sort. */
  method ExtractAsinsAdvanced(text: string, ms: seq<ProductMatch>) returns (r: Outcome<seq<(string, Item)>>)
    ensures r == Advanced(text, ms)
  {
    if text == "" {
      return Failure(NoTextAdvanced);
    }
    if ms == [] {
      return Failure(NoProducts);
    }
    var items := Accumulate(ms);
    r := Success(SortDesc(items, QtyKey));
  }

  /** The advanced result lists one entry per matched ASIN, largest total first: its total is
      the sum of the quantities matched for it and its title the stripped title of its last
      match. */
  lemma AdvancedSpec(text: string, ms: seq<ProductMatch>)
    requires text != "" && ms != []
    ensures var r := Advanced(text, ms).value;
      && NonIncreasing(r, QtyKey)
      && multiset(r) == multiset(Totals(ms))
      && (forall i :: 0 <= i < |r| ==>
            LastTitle(ms, r[i].0).Some? && r[i].1 == Item(Strip(LastTitle(ms, r[i].0).value), SumQty(ms, r[i].0)))
      && (forall j :: 0 <= j < |ms| ==> exists i :: 0 <= i < |r| && r[i].0 == ms[j].asin)
  {
    var t := Totals(ms);
    var r := Advanced(text, ms).value;
    SortDescSpec(t, QtyKey);
    TotalsDistinct(ms);
    forall i | 0 <= i < |r|
      ensures LastTitle(ms, r[i].0).Some? && r[i].1 == Item(Strip(LastTitle(ms, r[i].0).value), SumQty(ms, r[i].0))
    {
      var j := IndexIn(t, r, i);
      ItemAt(t, j);
      TotalsItem(ms, t[j].0);
    }
    forall j | 0 <= j < |ms| ensures exists i :: 0 <= i < |r| && r[i].0 == ms[j].asin {
      MatchedHasTitle(ms, j);
      TotalsItem(ms, ms[j].asin);
      var e := ItemKey(t, ms[j].asin);
      assert t[e] in multiset(r);
      var i :| 0 <= i < |r| && r[i] == t[e];
    }
  }

  /** Every matched ASIN has a last title. */
  lemma {:induction false} MatchedHasTitle(ms: seq<ProductMatch>, j: nat)
    requires j < |ms|
    ensures LastTitle(ms, ms[j].asin).Some?
  {
    if Last(ms).asin != ms[j].asin {
      MatchedHasTitle(ms[..|ms| - 1], j);
    }
  }

  /** A key with an item has an entry. */
  lemma {:induction false} ItemKey(t: seq<(string, Item)>, k: string) returns (e: nat)
    requires ItemOf(t, k).Some?
    ensures e < |t| && t[e].0 == k
  {
    if t[0].0 == k {
      e := 0;
    } else {
      var e' := ItemKey(t[1..], k);
      e := e' + 1;
    }
  }
}
