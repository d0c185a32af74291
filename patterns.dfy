/** Hand-written matchers for the regular expressions of the extractor. Each follows
    Python `re` semantics: `re.search` tries start positions from left to right and, at a
    start, takes the first match in backtracking order (greedy quantifiers try the longest
    repetition first); `re.match` only tries position 0. Where a pattern's backtracking can
    only ever succeed in one way, the matcher computes that way directly, and a lemma or an
    ensures clause states that the match found is a match of the pattern. */
module Patterns {
  import opened Text

  /** End of the maximal run of characters satisfying `p` that starts at `i`. */
  function RunEnd(t: string, i: nat, p: char -> bool): (e: nat)
    requires i <= |t|
    ensures i <= e <= |t|
    ensures e == |t| || !p(t[e])
    decreases |t| - i
  {
    if i < |t| && p(t[i]) then RunEnd(t, i + 1, p) else i
  }

  /** Every character of the run satisfies `p`. */
  lemma {:induction false} RunEndAll(t: string, i: nat, p: char -> bool)
    requires i <= |t|
    ensures forall k :: i <= k < RunEnd(t, i, p) ==> p(t[k])
    decreases |t| - i
  {
    if i < |t| && p(t[i]) {
      RunEndAll(t, i + 1, p);
    }
  }

  // ---------------------------------------------------------------------------------
  // City, state and ZIP:  ([A-Za-z\s]+),\s*([A-Z]{2})\s*(\d{5}(?:-\d{4})?)
  // ---------------------------------------------------------------------------------

  /** Positions of one match: group 1 is t[start..comma], group 2 is t[state..state + 2],
      group 3 is t[zip..end]. */
  datatype CszMatch = CszMatch(start: nat, comma: nat, state: nat, zip: nat, end: nat)

  /** `m` delimits a match of the city/state/ZIP pattern in `t`, the pattern read as a
      language; this is the reference the matcher below is checked against. */
  ghost predicate IsCszMatch(t: string, m: CszMatch) {
    && m.start < m.comma < m.state && m.state + 2 <= m.zip && m.zip + 5 <= m.end <= |t|
    && (forall k :: m.start <= k < m.comma ==> IsAlphaOrSpace(t[k]))
    && t[m.comma] == ','
    && (forall k :: m.comma < k < m.state ==> IsSpace(t[k]))
    && IsUpper(t[m.state]) && IsUpper(t[m.state + 1])
    && (forall k :: m.state + 2 <= k < m.zip ==> IsSpace(t[k]))
    && AllDigits(t[m.zip..m.zip + 5])
    && (m.end == m.zip + 5 || (m.end == m.zip + 10 && ZipExtensionAt(t, m.zip + 5)))
  }

  /** `-\d{4}` at position `i`. */
  predicate ZipExtensionAt(t: string, i: nat) {
    i + 5 <= |t| && t[i] == '-' && AllDigits(t[i + 1..i + 5])
  }

  /** The positions of a match are in order and inside `t`. */
  predicate CszInBounds(m: CszMatch, n: nat) {
    m.start < m.comma < m.state && m.state + 2 <= m.zip && m.zip + 5 <= m.end <= n
  }

  /** The first match at `s` in backtracking order. Group 1 can only end at the end of the
      maximal letter/space run, since ',' is outside the class; the `\s*` runs are maximal
      because the next token never starts with whitespace; the optional `-\d{4}` is taken
      whenever it is there. */
  function CszAt(t: string, s: nat): (r: Option<CszMatch>)
    requires s <= |t|
    ensures r.Some? ==> r.value.start == s && CszInBounds(r.value, |t|)
  {
    var comma := RunEnd(t, s, IsAlphaOrSpace);
    if comma == s || comma == |t| || t[comma] != ',' then None
    else
      var st := RunEnd(t, comma + 1, IsSpace);
      if st + 2 > |t| || !IsUpper(t[st]) || !IsUpper(t[st + 1]) then None
      else
        var z := RunEnd(t, st + 2, IsSpace);
        if z + 5 > |t| || !AllDigits(t[z..z + 5]) then None
        else
          var end := if ZipExtensionAt(t, z + 5) then z + 10 else z + 5;
          Some(CszMatch(s, comma, st, z, end))
  }

  /** What `CszAt` finds is a match of the pattern, and it includes the ZIP extension
      whenever one follows the five digits. */
  lemma CszAtSound(t: string, s: nat)
    requires s <= |t|
    ensures CszAt(t, s).Some? ==> IsCszMatch(t, CszAt(t, s).value)
    ensures CszAt(t, s).Some? && CszAt(t, s).value.end == CszAt(t, s).value.zip + 5 ==>
      !ZipExtensionAt(t, CszAt(t, s).value.zip + 5)
  {
    if CszAt(t, s).Some? {
      CszAtRuns(t, s);
    }
  }

  /** The three runs of a match hold the characters their classes allow. */
  lemma CszAtRuns(t: string, s: nat)
    requires s <= |t| && CszAt(t, s).Some?
    ensures var m := CszAt(t, s).value;
      && (forall k :: m.start <= k < m.comma ==> IsAlphaOrSpace(t[k]))
      && (forall k :: m.comma < k < m.state ==> IsSpace(t[k]))
      && (forall k :: m.state + 2 <= k < m.zip ==> IsSpace(t[k]))
  {
    var m := CszAt(t, s).value;
    RunEndAll(t, s, IsAlphaOrSpace);
    RunEndAll(t, m.comma + 1, IsSpace);
    RunEndAll(t, m.state + 2, IsSpace);
  }

  /** The matcher misses nothing: wherever the pattern matches at a start, `CszAt` finds a
      match there with the same groups 1 and 2 and a group 3 at least as long. */
  lemma CszAtComplete(t: string, m: CszMatch)
    requires IsCszMatch(t, m)
    ensures CszAt(t, m.start).Some?
    ensures var r := CszAt(t, m.start).value;
      r.comma == m.comma && r.state == m.state && r.zip == m.zip && r.end >= m.end
  {
    assert IsDigit(t[m.zip..m.zip + 5][0]);
    RunEndExact(t, m.start, m.comma, IsAlphaOrSpace);
    RunEndExact(t, m.comma + 1, m.state, IsSpace);
    RunEndExact(t, m.state + 2, m.zip, IsSpace);
    CszAtFrom(t, m.start, m.comma, m.state, m.zip);
  }

  /** `CszAt` once its three runs are known. */
  lemma CszAtFrom(t: string, s: nat, comma: nat, st: nat, z: nat)
    requires s < comma < |t| && RunEnd(t, s, IsAlphaOrSpace) == comma && t[comma] == ','
    requires RunEnd(t, comma + 1, IsSpace) == st && st + 2 <= |t| && IsUpper(t[st]) && IsUpper(t[st + 1])
    requires RunEnd(t, st + 2, IsSpace) == z && z + 5 <= |t| && AllDigits(t[z..z + 5])
    ensures CszAt(t, s) == Some(CszMatch(s, comma, st, z, if ZipExtensionAt(t, z + 5) then z + 10 else z + 5))
  {
  }

  /** A run of `p` from `i` that is followed by a character outside `p` ends there. */
  lemma RunEndExact(t: string, i: nat, j: nat, p: char -> bool)
    requires i <= j <= |t|
    requires forall k :: i <= k < j ==> p(t[k])
    requires j == |t| || !p(t[j])
    ensures RunEnd(t, i, p) == j
  {
    RunEndAll(t, i, p);
  }

  /** `re.search` of the city/state/ZIP pattern from position `s` on. */
  function CszSearchFrom(t: string, s: nat): (r: Option<CszMatch>)
    requires s <= |t|
    ensures r.Some? ==> s <= r.value.start <= |t| && CszAt(t, r.value.start) == r
    decreases |t| - s
  {
    match CszAt(t, s)
    case Some(m) => Some(m)
    case None => if s == |t| then None else CszSearchFrom(t, s + 1)
  }

  /** Nothing matches between `s` and the match found from `s`. */
  lemma {:induction false} CszSearchFromFirst(t: string, s: nat)
    requires s <= |t|
    ensures var r := CszSearchFrom(t, s);
      forall k :: s <= k <= |t| && (r.None? || k < r.value.start) ==> CszAt(t, k).None?
    decreases |t| - s
  {
    var r := CszSearchFrom(t, s);
    forall k | s < k <= |t| && (r.None? || k < r.value.start)
      ensures CszAt(t, k).None?
    {
      CszSearchFromFirst(t, s + 1);
    }
  }

  /** `re.search(r'([A-Za-z\s]+),\s*([A-Z]{2})\s*(\d{5}(?:-\d{4})?)', t)`: the leftmost match. */
  function CszSearch(t: string): (r: Option<CszMatch>)
    ensures r.Some? ==> CszInBounds(r.value, |t|)
  {
    CszSearchFrom(t, 0)
  }

  /** The search finds a match of the pattern, and no match starts before it. */
  lemma CszSearchSound(t: string)
    ensures var r := CszSearch(t);
      && (r.Some? ==> IsCszMatch(t, r.value))
      && (r.Some? ==> forall k :: 0 <= k < r.value.start ==> CszAt(t, k).None?)
      && (r.None? ==> forall k :: 0 <= k <= |t| ==> CszAt(t, k).None?)
  {
    CszSearchFromFirst(t, 0);
    if CszSearch(t).Some? {
      CszAtSound(t, CszSearch(t).value.start);
    }
  }

  /** Group 1, group 2 and group 3 of a match. */
  function CszCity(t: string, m: CszMatch): string
    requires CszInBounds(m, |t|)
  {
    t[m.start..m.comma]
  }

  function CszState(t: string, m: CszMatch): string
    requires CszInBounds(m, |t|)
  {
    t[m.state..m.state + 2]
  }

  function CszZip(t: string, m: CszMatch): string
    requires CszInBounds(m, |t|)
  {
    t[m.zip..m.end]
  }

  /** Two upper-case ASCII letters. */
  predicate IsStateCode(s: string) {
    |s| == 2 && IsUpper(s[0]) && IsUpper(s[1])
  }

  /** Five digits, optionally followed by '-' and four digits. */
  predicate IsZip(s: string) {
    (|s| == 5 && AllDigits(s))
    || (|s| == 10 && AllDigits(s[..5]) && s[5] == '-' && AllDigits(s[6..]))
  }

  /** What the groups of any match look like: the city is letters and whitespace, the state
      two capitals, the ZIP five digits with an optional four-digit extension, and the text
      holds a comma. */
  lemma CszGroups(t: string, m: CszMatch)
    requires IsCszMatch(t, m)
    ensures var city := CszCity(t, m);
      city != [] && forall k :: 0 <= k < |city| ==> IsAlphaOrSpace(city[k])
    ensures IsStateCode(CszState(t, m))
    ensures IsZip(CszZip(t, m))
    ensures ',' in t
  {
    assert t[m.comma] == ',';
    var city := CszCity(t, m);
    forall k | 0 <= k < |city| ensures IsAlphaOrSpace(city[k]) {
      assert city[k] == t[m.start + k];
    }
    var zip := CszZip(t, m);
    forall k | 0 <= k < 5 ensures IsDigit(zip[k]) {
      assert zip[k] == t[m.zip..m.zip + 5][k];
    }
    if m.end == m.zip + 10 {
      assert zip[5] == t[m.zip + 5];
      forall k | 0 <= k < 5 ensures IsDigit(zip[..5][k]) {
        assert zip[..5][k] == zip[k];
      }
      forall k | 0 <= k < 4 ensures IsDigit(zip[6..][k]) {
        assert zip[6..][k] == t[m.zip + 6..m.zip + 10][k];
      }
    }
  }

  // ---------------------------------------------------------------------------------
  // Street:  \d+\s+[A-Za-z\s]+(?:(?:St|Street|Ave|...|Pkwy|Parkway))?   (re.IGNORECASE)
  // ---------------------------------------------------------------------------------

  /** Digits in t[start..digitsEnd], whitespace at digitsEnd, letters or whitespace up to end. */
  datatype StreetMatch = StreetMatch(start: nat, digitsEnd: nat, end: nat)

  /** `m` delimits a match of `\d+\s+[A-Za-z\s]+`. Every street suffix of the optional group
      is made of letters, so adding it gives no string outside this language. */
  ghost predicate IsStreetMatch(t: string, m: StreetMatch) {
    && m.start < m.digitsEnd && m.digitsEnd + 2 <= m.end <= |t|
    && (forall k :: m.start <= k < m.digitsEnd ==> IsDigit(t[k]))
    && IsSpace(t[m.digitsEnd])
    && (forall k :: m.digitsEnd < k < m.end ==> IsAlphaOrSpace(t[k]))
  }

  /** The first match at `s` in backtracking order. `\d+` must stop where the digits stop,
      since a digit is not whitespace; the greedy `[A-Za-z\s]+` then runs to the end of the
      letters and whitespace, so the next character is not a letter and the optional suffix
      always matches empty: it never adds anything to the match. */
  function StreetAt(t: string, s: nat): (r: Option<StreetMatch>)
    requires s <= |t|
    ensures r.Some? ==> r.value.start == s < r.value.digitsEnd && r.value.digitsEnd + 2 <= r.value.end <= |t|
  {
    if s == |t| || !IsDigit(t[s]) then None
    else
      var d := RunEnd(t, s, IsDigit);
      if d == |t| || !IsSpace(t[d]) then None
      else
        var e := RunEnd(t, d, IsAlphaOrSpace);
        if e < d + 2 then None else Some(StreetMatch(s, d, e))
  }

  /** What `StreetAt` finds is a match of the pattern, and no letter follows it. */
  lemma StreetAtSound(t: string, s: nat)
    requires s <= |t|
    ensures var r := StreetAt(t, s);
      r.Some? ==> IsStreetMatch(t, r.value) && (r.value.end == |t| || !IsAlpha(t[r.value.end]))
  {
    if StreetAt(t, s).Some? {
      var m := StreetAt(t, s).value;
      RunEndAll(t, s, IsDigit);
      RunEndAll(t, m.digitsEnd, IsAlphaOrSpace);
    }
  }

  /** The matcher misses nothing, and its match is the longest one at that start. */
  lemma StreetAtComplete(t: string, m: StreetMatch)
    requires IsStreetMatch(t, m)
    ensures StreetAt(t, m.start).Some?
    ensures StreetAt(t, m.start).value.digitsEnd == m.digitsEnd
    ensures StreetAt(t, m.start).value.end >= m.end
  {
    RunEndExact(t, m.start, m.digitsEnd, IsDigit);
  }

  function StreetSearchFrom(t: string, s: nat): (r: Option<StreetMatch>)
    requires s <= |t|
    ensures r.Some? ==> s <= r.value.start <= |t| && StreetAt(t, r.value.start) == r
    decreases |t| - s
  {
    match StreetAt(t, s)
    case Some(m) => Some(m)
    case None => if s == |t| then None else StreetSearchFrom(t, s + 1)
  }

  lemma {:induction false} StreetSearchFromFirst(t: string, s: nat)
    requires s <= |t|
    ensures var r := StreetSearchFrom(t, s);
      forall k :: s <= k <= |t| && (r.None? || k < r.value.start) ==> StreetAt(t, k).None?
    decreases |t| - s
  {
    var r := StreetSearchFrom(t, s);
    forall k | s < k <= |t| && (r.None? || k < r.value.start)
      ensures StreetAt(t, k).None?
    {
      StreetSearchFromFirst(t, s + 1);
    }
  }

  /** `re.search` of the street pattern: the leftmost match. */
  function StreetSearch(t: string): (r: Option<StreetMatch>)
    ensures r.Some? ==> r.value.start < r.value.digitsEnd && r.value.digitsEnd + 2 <= r.value.end <= |t|
  {
    StreetSearchFrom(t, 0)
  }

  /** The search finds a match of the pattern, and no match starts before it. */
  lemma StreetSearchSound(t: string)
    ensures var r := StreetSearch(t);
      && (r.Some? ==> IsStreetMatch(t, r.value))
      && (r.Some? ==> forall k :: 0 <= k < r.value.start ==> StreetAt(t, k).None?)
      && (r.None? ==> forall k :: 0 <= k <= |t| ==> StreetAt(t, k).None?)
  {
    StreetSearchFromFirst(t, 0);
    if StreetSearch(t).Some? {
      StreetAtSound(t, StreetSearch(t).value.start);
    }
  }

  // ---------------------------------------------------------------------------------
  // Order number:  \d{3}-\d{7}-\d{7}
  // ---------------------------------------------------------------------------------

  /** The marketplace order number shape ddd-ddddddd-ddddddd. */
  predicate IsOrderId(id: string) {
    |id| == 19 && forall k :: 0 <= k < 19 ==> if k == 3 || k == 11 then id[k] == '-' else IsDigit(id[k])
  }

  predicate IsOrderIdAt(t: string, s: nat) {
    s + 19 <= |t| && IsOrderId(t[s..s + 19])
  }

  function OrderIdSearchFrom(t: string, s: nat): (r: Option<nat>)
    requires s <= |t|
    ensures r.Some? ==> s <= r.value && IsOrderIdAt(t, r.value)
    ensures forall k :: s <= k <= |t| && (r.None? || k < r.value) ==> !IsOrderIdAt(t, k)
    decreases |t| - s
  {
    if IsOrderIdAt(t, s) then Some(s)
    else if s == |t| then None
    else OrderIdSearchFrom(t, s + 1)
  }

  /** `re.search(r'(\d{3}-\d{7}-\d{7})', t).group(1)`, or None when there is no match: the
      leftmost order number in `t`. */
  function FindOrderId(t: string): (r: Option<string>)
    ensures r.Some? ==> IsOrderId(r.value) && Contains(t, r.value)
  {
    match OrderIdSearchFrom(t, 0)
    case None => None
    case Some(i) =>
      ContainsSlice(t, i, i + 19);
      Some(t[i..i + 19])
  }

  /** A slice of `t` is contained in `t`. */
  lemma {:induction false} ContainsSlice(t: string, i: nat, j: nat)
    requires i <= j <= |t|
    ensures Contains(t, t[i..j])
    decreases i
  {
    if i == 0 {
      assert StartsWith(t, t[i..j]);
    } else {
      ContainsSlice(t[1..], i - 1, j - 1);
      forall k | 0 <= k < j - i ensures t[1..][i - 1..j - 1][k] == t[i..j][k] {
        assert t[1..][i - 1..j - 1][k] == t[i + k];
      }
      assert t[1..][i - 1..j - 1] == t[i..j];
    }
  }

  /** An order number preceded only by text without digits is the one found: e.g. in
      "Order #112-3456789-1234567 details" the order id is "112-3456789-1234567". */
  lemma OrderIdAfterDigitFreePrefix(p: string, id: string, q: string)
    requires IsOrderId(id)
    requires !HasDigit(p)
    ensures FindOrderId(p + id + q) == Some(id)
  {
    var t := p + id + q;
    HasDigitSpec(p);
    assert t[|p|..|p| + 19] == id;
    forall k | 0 <= k < |p|
      ensures !IsOrderIdAt(t, k)
    {
      assert t[k] == p[k];
    }
    assert IsOrderIdAt(t, |p|);
  }

  // ---------------------------------------------------------------------------------
  // Capitalised words:  [A-Z][a-z]+(?:\s+[A-Z][a-z]+)*
  // ---------------------------------------------------------------------------------

  datatype Span = Span(start: nat, end: nat)

  /** t[w.start..w.end] is an upper-case letter followed by the maximal run of (at least one)
      lower-case letters. */
  ghost predicate IsCapWord(t: string, w: Span) {
    && w.start + 2 <= w.end <= |t|
    && IsUpper(t[w.start])
    && (forall k :: w.start < k < w.end ==> IsLower(t[k]))
    && (w.end == |t| || !IsLower(t[w.end]))
  }

  /** A non-empty whitespace gap t[a..b]. */
  ghost predicate IsGap(t: string, a: nat, b: nat) {
    a < b <= |t| && forall k :: a <= k < b ==> IsSpace(t[k])
  }

  /** Words that each are capitalised and are separated by whitespace gaps. */
  ghost predicate IsWordRun(t: string, ws: seq<Span>) {
    && (forall k :: 0 <= k < |ws| ==> IsCapWord(t, ws[k]))
    && (forall k :: 0 < k < |ws| ==> IsGap(t, ws[k - 1].end, ws[k].start))
  }

  /** `[A-Z][a-z]+` at `i`: the end of the word. Shortening the greedy `[a-z]+` would leave a
      lower-case letter next, which neither `\s` nor the end of a match accepts after a
      word, so the longest word is the only one the patterns below can use. */
  function CapWordAt(t: string, i: nat): (r: Option<nat>)
    requires i <= |t|
    ensures r.Some? ==> i + 2 <= r.value <= |t|
  {
    if i + 1 < |t| && IsUpper(t[i]) && IsLower(t[i + 1]) then Some(RunEnd(t, i + 1, IsLower)) else None
  }

  /** The greedy words of `[A-Z][a-z]+(?:\s+[A-Z][a-z]+)*` at `s`, at most `limit` of them;
      empty when no word starts at `s`. */
  function CapWords(t: string, s: nat, limit: nat): (ws: seq<Span>)
    requires s <= |t|
    ensures |ws| <= limit
    ensures 2 * |ws| <= |t| - s
    ensures ws != [] ==> ws[0].start == s
    ensures forall k :: 0 <= k < |ws| ==> s <= ws[k].start && ws[k].start + 2 <= ws[k].end <= |t|
    decreases |t| - s
  {
    if limit == 0 then []
    else match CapWordAt(t, s)
      case None => []
      case Some(e) =>
        if e < |t| && IsSpace(t[e]) then
          var w := RunEnd(t, e, IsSpace);
          [Span(s, e)] + CapWords(t, w, limit - 1)
        else [Span(s, e)]
  }

  /** The words found are capitalised words separated by whitespace. */
  lemma {:induction false} CapWordsSound(t: string, s: nat, limit: nat)
    requires s <= |t|
    ensures IsWordRun(t, CapWords(t, s, limit))
    decreases |t| - s
  {
    if limit > 0 && CapWordAt(t, s).Some? {
      var e := CapWordAt(t, s).value;
      CapWordAtSound(t, s);
      if e < |t| && IsSpace(t[e]) {
        var w := RunEnd(t, e, IsSpace);
        GapAt(t, e);
        var rest := CapWords(t, w, limit - 1);
        CapWordsSound(t, w, limit - 1);
        ConsWordRun(t, Span(s, e), w, rest);
        CapWordsUnfold(t, s, limit);
      } else {
        CapWordsUnfold(t, s, limit);
        ConsWordRun(t, Span(s, e), e + 1, []);
      }
    }
  }

  /** One step of `CapWords`: the word at `s`, then the words after the whitespace that
      follows it, if any. */
  lemma CapWordsUnfold(t: string, s: nat, limit: nat)
    requires s <= |t| && limit > 0 && CapWordAt(t, s).Some?
    ensures var e := CapWordAt(t, s).value;
      CapWords(t, s, limit) ==
        if e < |t| && IsSpace(t[e]) then [Span(s, e)] + CapWords(t, RunEnd(t, e, IsSpace), limit - 1)
        else [Span(s, e)]
  {
  }

  /** What `CapWordAt` finds is a capitalised word. */
  lemma CapWordAtSound(t: string, s: nat)
    requires s <= |t|
    ensures CapWordAt(t, s).Some? ==> IsCapWord(t, Span(s, CapWordAt(t, s).value))
  {
    if CapWordAt(t, s).Some? {
      RunEndAll(t, s + 1, IsLower);
    }
  }

  /** The whitespace run at a whitespace character is a gap. */
  lemma GapAt(t: string, e: nat)
    requires e < |t| && IsSpace(t[e])
    ensures IsGap(t, e, RunEnd(t, e, IsSpace))
  {
    RunEndAll(t, e, IsSpace);
  }

  /** A capitalised word followed by a gap and a run of words is a run of words. */
  lemma ConsWordRun(t: string, w: Span, g: nat, rest: seq<Span>)
    requires IsCapWord(t, w)
    requires IsWordRun(t, rest)
    requires rest != [] ==> rest[0].start == g && IsGap(t, w.end, g)
    ensures IsWordRun(t, [w] + rest)
  {
    var ws := [w] + rest;
    forall k | 0 < k < |ws| ensures IsGap(t, ws[k - 1].end, ws[k].start) {
      if k > 1 {
        assert ws[k - 1] == rest[k - 2] && ws[k] == rest[k - 1];
      }
    }
  }

  /** The text covered by a run of words: from the first word's start to the last one's end. */
  function Covered(t: string, ws: seq<Span>): string
    requires ws != [] && ws[0].start <= Last(ws).end <= |t|
  {
    t[ws[0].start..Last(ws).end]
  }

  /** A string made of capitalised words separated by whitespace: upper-case first, lower-case
      last, nothing but ASCII letters and whitespace, and at least one whitespace. */
  ghost predicate IsCapName(s: string) {
    && |s| >= 5
    && IsUpper(s[0]) && IsLower(s[|s| - 1])
    && (forall k :: 0 <= k < |s| ==> IsAlphaOrSpace(s[k]))
    && (exists k :: 0 < k < |s| - 1 && IsSpace(s[k]))
  }

  /** Two or more words in a row cover a capitalised name. */
  lemma CoveredIsCapName(t: string, ws: seq<Span>)
    requires |ws| >= 2
    requires IsWordRun(t, ws)
    ensures ws[0].start <= Last(ws).end <= |t|
    ensures IsCapName(Covered(t, ws))
  {
    WordsOrdered(t, ws);
    var a := ws[0].start;
    var s := Covered(t, ws);
    assert s == t[a..Last(ws).end];
    assert IsGap(t, ws[0].end, ws[1].start);
    assert s[ws[0].end - a] == t[ws[0].end];
    var l := ws[|ws| - 1];
    assert IsCapWord(t, l);
    assert l.start < l.end - 1 < l.end;
    assert IsLower(t[l.end - 1]);
    assert Last(ws) == l && |s| == l.end - a;
    assert s[|s| - 1] == t[l.end - 1];
    assert IsCapWord(t, ws[0]) && s[0] == t[a];
    forall k | 0 <= k < |s| ensures IsAlphaOrSpace(s[k]) {
      assert s[k] == t[a + k];
      CoveredChar(t, ws, a + k);
    }
  }

  /** Words come in order, each after the previous one. */
  lemma {:induction false} WordsOrdered(t: string, ws: seq<Span>)
    requires ws != []
    requires IsWordRun(t, ws)
    ensures forall k :: 0 <= k < |ws| ==> ws[0].start <= ws[k].start < ws[k].end <= Last(ws).end <= |t|
  {
    if |ws| > 1 {
      WordsOrdered(t, ws[1..]);
      assert forall k :: 1 <= k < |ws| ==> ws[k] == ws[1..][k - 1];
    }
  }

  /** Every character between the first word's start and the last word's end is a letter or
      whitespace. */
  lemma {:induction false} CoveredChar(t: string, ws: seq<Span>, i: nat)
    requires ws != []
    requires IsWordRun(t, ws)
    requires ws[0].start <= i < Last(ws).end && i < |t|
    ensures IsAlphaOrSpace(t[i])
  {
    if i >= ws[0].end {
      assert |ws| > 1;
      var rest := ws[1..];
      assert forall k :: 0 <= k < |rest| ==> rest[k] == ws[k + 1];
      if i < ws[1].start {
        assert IsGap(t, ws[0].end, ws[1].start);
      } else {
        CoveredChar(t, rest, i);
      }
    }
  }

  /** `re.match(r'^[A-Z][a-z]+(?:\s+[A-Z][a-z]+)+$', t)`: the whole string is two or more
      capitalised words (Python's `$` also accepts a single final newline). */
  predicate IsFullName(t: string) {
    var ws := CapWords(t, 0, |t|);
    |ws| >= 2 && (Last(ws).end == |t| || (Last(ws).end + 1 == |t| && t[|t| - 1] == '\n'))
  }

  /** `re.match(r'^([A-Z][a-z]+(?:\s+[A-Z][a-z]+)+)', t)`: the end of group 1 when the text
      starts with two or more capitalised words. */
  function NamePrefixEnd(t: string): (r: Option<nat>)
    ensures r.Some? ==> r.value <= |t|
  {
    var ws := CapWords(t, 0, |t|);
    if |ws| >= 2 then Some(Last(ws).end) else None
  }

  /** The prefix found is a capitalised name. */
  lemma NamePrefixSound(t: string)
    ensures NamePrefixEnd(t).Some? ==> IsCapName(t[..NamePrefixEnd(t).value])
  {
    var ws := CapWords(t, 0, |t|);
    if |ws| >= 2 {
      CapWordsSound(t, 0, |t|);
      CoveredIsCapName(t, ws);
      assert Covered(t, ws) == t[..Last(ws).end];
    }
  }

  // ---------------------------------------------------------------------------------
  // Name candidate:  ([A-Z][a-z]+(?:\s+[A-Z][a-z]+){1,3})
  // ---------------------------------------------------------------------------------

  /** The greedy 2-4 word candidate at `s`, or None. */
  function NameAt(t: string, s: nat): (r: Option<seq<Span>>)
    requires s <= |t|
    ensures r.Some? ==> 2 <= |r.value| <= 4 && r.value[0].start == s
    ensures r.Some? ==> forall k :: 0 <= k < |r.value| ==> s <= r.value[k].start && r.value[k].start + 2 <= r.value[k].end <= |t|
  {
    var ws := CapWords(t, s, 4);
    if |ws| >= 2 then Some(ws) else None
  }

  function NameSearchFrom(t: string, s: nat): (r: Option<seq<Span>>)
    requires s <= |t|
    ensures r.Some? ==> |r.value| >= 2
    ensures r.Some? ==> s <= r.value[0].start <= |t| && NameAt(t, r.value[0].start) == r
    decreases |t| - s
  {
    match NameAt(t, s)
    case Some(ws) => Some(ws)
    case None => if s == |t| then None else NameSearchFrom(t, s + 1)
  }

  lemma {:induction false} NameSearchFromFirst(t: string, s: nat)
    requires s <= |t|
    ensures var r := NameSearchFrom(t, s);
      forall k :: s <= k <= |t| && (r.None? || k < r.value[0].start) ==> NameAt(t, k).None?
    decreases |t| - s
  {
    var r := NameSearchFrom(t, s);
    forall k | s < k <= |t| && (r.None? || k < r.value[0].start)
      ensures NameAt(t, k).None?
    {
      NameSearchFromFirst(t, s + 1);
    }
  }

  /** `re.search` of the name pattern: the words of the leftmost candidate. */
  function NameSearch(t: string): (r: Option<seq<Span>>)
    ensures r.Some? ==> 2 <= |r.value| <= 4
    ensures r.Some? ==> forall k :: 0 <= k < |r.value| ==> r.value[0].start <= r.value[k].start
    ensures r.Some? ==> forall k :: 0 <= k < |r.value| ==> r.value[k].start + 2 <= r.value[k].end <= |t|
  {
    NameSearchFrom(t, 0)
  }

  /** The candidate found is two to four capitalised words; no run of two or more such
      words starts earlier; every run of up to four words at the same start is a prefix of
      it, so it is the greedy longest; and there is no candidate exactly when the text has
      no run of two capitalised words. */
  lemma NameSearchSound(t: string)
    ensures var r := NameSearch(t);
      && (r.Some? ==> IsWordRun(t, r.value))
      && (r.Some? ==> forall k :: 0 <= k < r.value[0].start ==> NameAt(t, k).None?)
      && (r.Some? ==> forall ws: seq<Span> :: IsWordRun(t, ws) && |ws| >= 2 ==> r.value[0].start <= ws[0].start)
      && (r.Some? ==> forall ws: seq<Span> :: IsWordRun(t, ws) && ws != [] && ws[0].start == r.value[0].start && |ws| <= 4 ==>
            |ws| <= |r.value| && r.value[..|ws|] == ws)
      && (r.None? ==> forall k :: 0 <= k <= |t| ==> NameAt(t, k).None?)
      && (r.None? <==> forall ws: seq<Span> :: IsWordRun(t, ws) ==> |ws| < 2)
  {
    NameSearchFromFirst(t, 0);
    var r := NameSearch(t);
    forall ws: seq<Span> | IsWordRun(t, ws) && |ws| >= 2
      ensures r.Some? && r.value[0].start <= ws[0].start
    {
      NameSearchComplete(t, ws);
    }
    if r.Some? {
      CapWordsSound(t, r.value[0].start, 4);
      forall ws: seq<Span> | IsWordRun(t, ws) && ws != [] && ws[0].start == r.value[0].start && |ws| <= 4
        ensures |ws| <= |r.value| && r.value[..|ws|] == ws
      {
        CapWordsComplete(t, ws, 4);
      }
    }
  }

  /** The steps the greedy scan would take through `ws`: each span is the word found at its
      start, and each later span starts where the whitespace after the previous one ends. */
  ghost predicate IsScanChain(t: string, ws: seq<Span>) {
    && (forall k :: 0 <= k < |ws| ==> ScanWord(t, ws[k]))
    && (forall k :: 0 < k < |ws| ==> ScanGap(t, ws[k - 1].end, ws[k].start))
  }

  /** The scan finds the word `w` at its start. */
  predicate ScanWord(t: string, w: Span) {
    w.start <= |t| && CapWordAt(t, w.start) == Some(w.end)
  }

  /** Whitespace starts at `a` and its maximal run ends at `b`. */
  predicate ScanGap(t: string, a: nat, b: nat) {
    a < |t| && IsSpace(t[a]) && RunEnd(t, a, IsSpace) == b
  }

  /** A run of capitalised words is the chain of steps the scan takes: the lower-case tail
      of a word and the whitespace after it are maximal. */
  lemma ChainOfRun(t: string, ws: seq<Span>)
    requires IsWordRun(t, ws)
    ensures IsScanChain(t, ws)
  {
    forall k | 0 <= k < |ws| ensures ScanWord(t, ws[k]) {
      CapWordsFirst(t, ws[k], 1);
    }
    forall k | 0 < k < |ws| ensures ScanGap(t, ws[k - 1].end, ws[k].start) {
      GapEnd(t, ws[k - 1].end, ws[k]);
    }
  }

  /** A gap that a capitalised word follows is a maximal whitespace run. */
  lemma GapEnd(t: string, a: nat, w: Span)
    requires IsGap(t, a, w.start) && IsCapWord(t, w)
    ensures ScanGap(t, a, w.start)
  {
    assert !IsSpace(t[w.start]);
    RunEndExact(t, a, w.start, IsSpace);
  }

  /** Dropping the first step of a chain leaves a chain. */
  lemma ChainTail(t: string, ws: seq<Span>)
    requires IsScanChain(t, ws) && |ws| > 1
    ensures IsScanChain(t, ws[1..])
  {
    var rest := ws[1..];
    forall k | 0 < k < |rest| ensures ScanGap(t, rest[k - 1].end, rest[k].start) {
      assert rest[k - 1] == ws[k] && rest[k] == ws[k + 1];
    }
  }

  /** Every chain of at most `limit` steps is a prefix of what the greedy scan finds at its
      start. */
  lemma {:induction false} CapWordsChain(t: string, ws: seq<Span>, limit: nat)
    requires IsScanChain(t, ws) && ws != [] && |ws| <= limit
    ensures ws[0].start <= |t|
    ensures |ws| <= |CapWords(t, ws[0].start, limit)|
    ensures CapWords(t, ws[0].start, limit)[..|ws|] == ws
    decreases |ws|
  {
    var w := ws[0];
    assert ScanWord(t, w);
    CapWordsUnfold(t, w.start, limit);
    if |ws| > 1 {
      var rest := ws[1..];
      assert rest[0] == ws[1];
      assert ScanGap(t, w.end, rest[0].start);
      var more := CapWords(t, rest[0].start, limit - 1);
      assert CapWords(t, w.start, limit) == [w] + more;
      ChainTail(t, ws);
      CapWordsChain(t, rest, limit - 1);
      ConsPrefix(w, more, rest);
      assert ws == [w] + rest;
    }
  }

  /** Every run of at most `limit` capitalised words separated by whitespace is a prefix of
      the greedy words found at its start: the scan never stops short of a run, so what it
      takes is the longest run the repetition bound allows. */
  lemma CapWordsComplete(t: string, ws: seq<Span>, limit: nat)
    requires IsWordRun(t, ws) && ws != [] && |ws| <= limit
    ensures ws[0].start <= |t|
    ensures |ws| <= |CapWords(t, ws[0].start, limit)|
    ensures CapWords(t, ws[0].start, limit)[..|ws|] == ws
  {
    ChainOfRun(t, ws);
    CapWordsChain(t, ws, limit);
  }

  /** The greedy scan at a capitalised word takes exactly that word first. */
  lemma CapWordsFirst(t: string, w: Span, limit: nat)
    requires IsCapWord(t, w) && limit > 0
    ensures CapWordAt(t, w.start) == Some(w.end)
    ensures |CapWords(t, w.start, limit)| >= 1 && CapWords(t, w.start, limit)[0] == w
  {
    RunEndExact(t, w.start + 1, w.end, IsLower);
    CapWordsUnfold(t, w.start, limit);
  }

  /** Putting the same element in front keeps one sequence a prefix of another. */
  lemma ConsPrefix<T>(w: T, more: seq<T>, rest: seq<T>)
    requires |rest| <= |more| && more[..|rest|] == rest
    ensures |[w] + rest| <= |[w] + more| && ([w] + more)[..|rest| + 1] == [w] + rest
  {
  }

  /** A run of two to four capitalised words makes a name candidate at its start, and the
      candidate extends it. */
  lemma NameAtComplete(t: string, ws: seq<Span>)
    requires IsWordRun(t, ws) && 2 <= |ws| <= 4
    ensures ws[0].start <= |t|
    ensures var r := NameAt(t, ws[0].start);
      r.Some? && |ws| <= |r.value| && r.value[..|ws|] == ws
  {
    CapWordsComplete(t, ws, 4);
  }

  /** Any run of two or more capitalised words makes the search succeed, at that run's
      start or earlier. */
  lemma NameSearchComplete(t: string, ws: seq<Span>)
    requires IsWordRun(t, ws) && |ws| >= 2
    ensures NameSearch(t).Some? && NameSearch(t).value[0].start <= ws[0].start
  {
    var two := ws[..2];
    assert IsWordRun(t, two) by {
      assert two[0] == ws[0] && two[1] == ws[1];
    }
    NameAtComplete(t, two);
    NameSearchFromFirst(t, 0);
  }

  /** `re.search(name + r',\s*[A-Z]{2}', t)` for a name made of letters and whitespace (no
      regular-expression metacharacters, so the name is matched literally). */
  predicate CityLikeAt(t: string, name: string, p: nat) {
    && p + |name| < |t|
    && t[p..p + |name|] == name
    && t[p + |name|] == ','
    && var f := RunEnd(t, p + |name| + 1, IsSpace);
      f + 2 <= |t| && IsUpper(t[f]) && IsUpper(t[f + 1])
  }

  predicate CityLikeFrom(t: string, name: string, p: nat)
    decreases |t| - p
  {
    p <= |t| && (CityLikeAt(t, name, p) || (p < |t| && CityLikeFrom(t, name, p + 1)))
  }

  /** The search succeeds exactly when the name occurs somewhere followed by ", XX". */
  lemma {:induction false} CityLikeFromSpec(t: string, name: string, p: nat)
    requires p <= |t|
    ensures CityLikeFrom(t, name, p) <==> exists q :: p <= q <= |t| && CityLikeAt(t, name, q)
    decreases |t| - p
  {
    if p < |t| {
      CityLikeFromSpec(t, name, p + 1);
    }
  }

  // ---------------------------------------------------------------------------------
  // Combined-field triggers
  // ---------------------------------------------------------------------------------

  /** `\d+\s+[A-Za-z]+` at `s`. */
  predicate DigitsWordAt(t: string, s: nat)
    requires s <= |t|
  {
    && s < |t| && IsDigit(t[s])
    && var d := RunEnd(t, s, IsDigit);
      d < |t| && IsSpace(t[d])
      && var w := RunEnd(t, d, IsSpace);
        w < |t| && IsAlpha(t[w])
  }

  predicate DigitsWordFrom(t: string, s: nat)
    requires s <= |t|
    decreases |t| - s
  {
    DigitsWordAt(t, s) || (s < |t| && DigitsWordFrom(t, s + 1))
  }

  /** `re.search(r'\d+\s+[A-Za-z]+', t)` succeeds. */
  predicate HasDigitsWord(t: string) {
    DigitsWordFrom(t, 0)
  }

  predicate TwoCapWordsFrom(t: string, s: nat)
    requires s <= |t|
    decreases |t| - s
  {
    |CapWords(t, s, 2)| == 2 || (s < |t| && TwoCapWordsFrom(t, s + 1))
  }

  /** `re.search(r'[A-Z][a-z]+\s+[A-Z][a-z]+', t)` succeeds. */
  predicate HasTwoCapWords(t: string) {
    TwoCapWordsFrom(t, 0)
  }

  // ---------------------------------------------------------------------------------
  // Phone:  (?:\+\d{1,2}\s*)?(?:\(\d{3}\)|\d{3})[-.\s]?\d{3}[-.\s]?\d{4}
  // ---------------------------------------------------------------------------------

  predicate IsPhoneSeparator(c: char) {
    c == '-' || c == '.' || IsSpace(c)
  }

  /** `(?:\(\d{3}\)|\d{3})[-.\s]?\d{3}[-.\s]?\d{4}` at `p`: its end. The two alternatives start
      with different characters and an optional separator is taken exactly when one is
      there (otherwise the digits that follow could not match), so at most one path
      succeeds. */
  function PhoneBodyAt(t: string, p: nat): (r: Option<nat>)
    requires p <= |t|
    ensures r.Some? ==> p + 10 <= r.value <= |t| && AllDigits(t[r.value - 4..r.value])
  {
    var area :=
      if p + 5 <= |t| && t[p] == '(' && AllDigits(t[p + 1..p + 4]) && t[p + 4] == ')' then Some(p + 5)
      else if p + 3 <= |t| && AllDigits(t[p..p + 3]) then Some(p + 3)
      else None;
    match area
    case None => None
    case Some(q) =>
      var r := if q < |t| && IsPhoneSeparator(t[q]) then q + 1 else q;
      if r + 3 > |t| || !AllDigits(t[r..r + 3]) then None
      else
        var u := if r + 3 < |t| && IsPhoneSeparator(t[r + 3]) then r + 4 else r + 3;
        if u + 4 > |t| || !AllDigits(t[u..u + 4]) then None
        else Some(u + 4)
  }

  /** The whole phone pattern at `s`: with a `+` the country code is tried with two digits,
      then with one; the `\s*` after it is maximal because the body never starts with
      whitespace. */
  function PhoneAt(t: string, s: nat): (r: Option<nat>)
    requires s <= |t|
    ensures r.Some? ==> s + 10 <= r.value <= |t| && AllDigits(t[r.value - 4..r.value])
  {
    if s < |t| && t[s] == '+' then
      if AfterCodeAt(t, s, 2).Some? then AfterCodeAt(t, s, 2) else AfterCodeAt(t, s, 1)
    else PhoneBodyAt(t, s)
  }

  /** `\+\d{n}\s*` at `s`, followed by the body: the end of the body's match. */
  function AfterCodeAt(t: string, s: nat, n: nat): (r: Option<nat>)
    requires s <= |t|
    ensures r.Some? ==> s + 1 + n <= |t| && s + 11 + n <= r.value <= |t| && AllDigits(t[r.value - 4..r.value])
  {
    if s + 1 + n <= |t| && AllDigits(t[s + 1..s + 1 + n]) then PhoneBodyAt(t, RunEnd(t, s + 1 + n, IsSpace))
    else None
  }

  function PhoneSearchFrom(t: string, s: nat): (r: Option<Span>)
    requires s <= |t|
    ensures r.Some? ==> s <= r.value.start <= |t| && PhoneAt(t, r.value.start) == Some(r.value.end)
    decreases |t| - s
  {
    match PhoneAt(t, s)
    case Some(e) => Some(Span(s, e))
    case None => if s == |t| then None else PhoneSearchFrom(t, s + 1)
  }

  /** No phone match starts between `s` and the one the search finds. */
  lemma {:induction false} PhoneSearchFromFirst(t: string, s: nat)
    requires s <= |t|
    ensures var r := PhoneSearchFrom(t, s);
      forall k :: s <= k <= |t| && (r.None? || k < r.value.start) ==> PhoneAt(t, k).None?
    decreases |t| - s
  {
    var r := PhoneSearchFrom(t, s);
    forall k | s <= k <= |t| && (r.None? || k < r.value.start)
      ensures PhoneAt(t, k).None?
    {
      if k > s {
        assert PhoneAt(t, s).None? && r == PhoneSearchFrom(t, s + 1);
        PhoneSearchFromFirst(t, s + 1);
      }
    }
  }

  /** `re.search` of the phone pattern: the leftmost match, at least ten characters long and
      ending in four digits. */
  function PhoneSearch(t: string): (r: Option<Span>)
    ensures r.Some? ==> r.value.start + 10 <= r.value.end <= |t|
    ensures r.Some? ==> AllDigits(t[r.value.end - 4..r.value.end])
  {
    PhoneSearchFrom(t, 0)
  }

  /** `\(\d{3}\)|\d{3}` matches t[p..q]. */
  ghost predicate IsAreaCode(t: string, p: nat, q: nat) {
    || (q == p + 5 && q <= |t| && t[p] == '(' && AllDigits(t[p + 1..p + 4]) && t[p + 4] == ')')
    || (q == p + 3 && q <= |t| && AllDigits(t[p..q]))
  }

  /** `[-.\s]?` matches t[q..r]. */
  ghost predicate IsOptionalSeparator(t: string, q: nat, r: nat) {
    r == q || (r == q + 1 && q < |t| && IsPhoneSeparator(t[q]))
  }

  /** `(?:\(\d{3}\)|\d{3})[-.\s]?\d{3}[-.\s]?\d{4}` matches t[p..e], the area code ending at
      `q`, the exchange starting at `r` and the line number at `u`. */
  ghost predicate IsPhoneBody(t: string, p: nat, q: nat, r: nat, u: nat, e: nat) {
    && IsAreaCode(t, p, q)
    && IsOptionalSeparator(t, q, r)
    && r + 3 <= |t| && AllDigits(t[r..r + 3])
    && IsOptionalSeparator(t, r + 3, u)
    && e == u + 4 && e <= |t| && AllDigits(t[u..e])
  }

  /** `(?:\+\d{1,2}\s*)?` matches t[s..p] with an `n`-digit country code; `n == 0` when the
      optional group is skipped. */
  ghost predicate IsCountryCode(t: string, s: nat, n: nat, p: nat) {
    if n == 0 then p == s
    else
      && n <= 2 && s + 1 + n <= p <= |t| && t[s] == '+' && AllDigits(t[s + 1..s + 1 + n])
      && forall k :: s + 1 + n <= k < p ==> IsSpace(t[k])
  }

  /** The whole phone pattern matches t[s..e] along the given positions. */
  ghost predicate IsPhoneMatch(t: string, s: nat, n: nat, p: nat, q: nat, r: nat, u: nat, e: nat) {
    IsCountryCode(t, s, n, p) && IsPhoneBody(t, p, q, r, u, e)
  }

  /** What `PhoneBodyAt` finds is a match of the body pattern. */
  lemma PhoneBodyAtSound(t: string, p: nat)
    requires p <= |t| && PhoneBodyAt(t, p).Some?
    ensures exists q, r, u :: IsPhoneBody(t, p, q, r, u, PhoneBodyAt(t, p).value)
  {
    var q := if p + 5 <= |t| && t[p] == '(' && AllDigits(t[p + 1..p + 4]) && t[p + 4] == ')' then p + 5 else p + 3;
    var r := if q < |t| && IsPhoneSeparator(t[q]) then q + 1 else q;
    var u := if r + 3 < |t| && IsPhoneSeparator(t[r + 3]) then r + 4 else r + 3;
    assert IsPhoneBody(t, p, q, r, u, PhoneBodyAt(t, p).value);
  }

  /** Wherever the body pattern matches, `PhoneBodyAt` finds that match: the alternatives
      start with different characters and a separator can never stand where a digit is
      needed, so the match is the only one. */
  lemma PhoneBodyAtComplete(t: string, p: nat, q: nat, r: nat, u: nat, e: nat)
    requires IsPhoneBody(t, p, q, r, u, e)
    ensures p < |t| && (t[p] == '(' || IsDigit(t[p]))
    ensures PhoneBodyAt(t, p) == Some(e)
  {
    if q == p + 3 {
      assert t[p..q][0] == t[p];
    }
    if r == q {
      assert t[r..r + 3][0] == t[q];
    }
    if u == r + 3 {
      assert t[u..e][0] == t[u];
    }
  }

  /** What `PhoneAt` finds is a match of the phone pattern. */
  lemma PhoneAtSound(t: string, s: nat)
    requires s <= |t| && PhoneAt(t, s).Some?
    ensures exists n, p, q, r, u :: IsPhoneMatch(t, s, n, p, q, r, u, PhoneAt(t, s).value)
  {
    if s < |t| && t[s] == '+' {
      if AfterCodeAt(t, s, 2).Some? {
        AfterCodeSound(t, s, 2);
      } else {
        AfterCodeSound(t, s, 1);
      }
    } else {
      var e := PhoneAt(t, s).value;
      PhoneBodyAtSound(t, s);
      var q, r, u :| IsPhoneBody(t, s, q, r, u, e);
      assert IsPhoneMatch(t, s, 0, s, q, r, u, e);
    }
  }

  /** What `AfterCodeAt` finds is a match of the phone pattern with an `n`-digit code. */
  lemma AfterCodeSound(t: string, s: nat, n: nat)
    requires s < |t| && t[s] == '+' && 1 <= n <= 2 && AfterCodeAt(t, s, n).Some?
    ensures exists p, q, r, u :: IsPhoneMatch(t, s, n, p, q, r, u, AfterCodeAt(t, s, n).value)
  {
    var p := RunEnd(t, s + 1 + n, IsSpace);
    var e := AfterCodeAt(t, s, n).value;
    assert PhoneBodyAt(t, p) == Some(e);
    RunEndAll(t, s + 1 + n, IsSpace);
    assert IsCountryCode(t, s, n, p);
    PhoneBodyAtSound(t, p);
    var q, r, u :| IsPhoneBody(t, p, q, r, u, e);
    assert IsPhoneMatch(t, s, n, p, q, r, u, e);
  }

  /** A country code followed by a body is found by `AfterCodeAt`: the whitespace run before
      the body is maximal. */
  lemma AfterCodeComplete(t: string, s: nat, n: nat, p: nat, e: nat)
    requires n > 0 && IsCountryCode(t, s, n, p) && p < |t| && !IsSpace(t[p]) && PhoneBodyAt(t, p) == Some(e)
    ensures AfterCodeAt(t, s, n) == Some(e)
  {
    RunEndExact(t, s + 1 + n, p, IsSpace);
  }

  /** Wherever the phone pattern matches, `PhoneAt` finds a match there. It is the same
      match unless that one used a one-digit country code and the two-digit code, which
      `\d{1,2}` tries first, also leads to a match. */
  lemma PhoneAtComplete(t: string, s: nat, n: nat, p: nat, q: nat, r: nat, u: nat, e: nat)
    requires IsPhoneMatch(t, s, n, p, q, r, u, e)
    ensures s <= |t| && PhoneAt(t, s).Some?
    ensures n != 1 ==> PhoneAt(t, s) == Some(e)
    ensures n == 1 && PhoneAt(t, s) != Some(e) ==>
      exists p2, q2, r2, u2 :: IsPhoneMatch(t, s, 2, p2, q2, r2, u2, PhoneAt(t, s).value)
  {
    PhoneBodyAtComplete(t, p, q, r, u, e);
    if n == 0 {
      assert PhoneAt(t, s) == PhoneBodyAt(t, s);
    } else {
      AfterCodeComplete(t, s, n, p, e);
      if n == 1 && AfterCodeAt(t, s, 2).Some? {
        AfterCodeSound(t, s, 2);
      }
    }
  }

  /** `re.search` of the phone pattern: the match found is a match of the pattern, none
      starts earlier, and there is none exactly when the pattern matches nowhere. */
  lemma PhoneSearchSound(t: string)
    ensures var m := PhoneSearch(t);
      && (m.Some? ==> exists n, p, q, r, u :: IsPhoneMatch(t, m.value.start, n, p, q, r, u, m.value.end))
      && (m.Some? ==> forall k: nat, n: nat, p: nat, q: nat, r: nat, u: nat, e: nat ::
            IsPhoneMatch(t, k, n, p, q, r, u, e) ==> m.value.start <= k)
      && (m.None? <==> forall k: nat, n: nat, p: nat, q: nat, r: nat, u: nat, e: nat ::
            !IsPhoneMatch(t, k, n, p, q, r, u, e))
  {
    var m := PhoneSearch(t);
    PhoneSearchFromFirst(t, 0);
    forall k: nat, n: nat, p: nat, q: nat, r: nat, u: nat, e: nat | IsPhoneMatch(t, k, n, p, q, r, u, e)
      ensures m.Some? && m.value.start <= k
    {
      PhoneAtComplete(t, k, n, p, q, r, u, e);
    }
    if m.Some? {
      PhoneAtSound(t, m.value.start);
    }
  }
}
