/** `parse_combined_field`: one form value that may hold a name, a street, and a
    "City, ST 12345" tail, taken apart in five steps. */
module CombinedField {
  import opened Text
  import opened Patterns

  /** The dictionary the parser returns; every key is present, absent parts are "". */
  datatype Parts = Parts(name: string, street: string, city: string, state: string, zip: string)

  function Min(a: nat, b: nat): nat { if a <= b then a else b }
  function Max(a: nat, b: nat): nat { if a >= b then a else b }

  /** `re.match(r'\d+', w)`: the word starts with a digit. */
  predicate StartsWithDigit(w: string) { w != [] && IsDigit(w[0]) }

  /** Index of the first word at or after `from` that starts with a digit, or `|ws|`. */
  function FirstNumericFrom(ws: seq<string>, from: nat): (i: nat)
    requires from <= |ws|
    ensures from <= i <= |ws|
    ensures forall k :: from <= k < i ==> !StartsWithDigit(ws[k])
    ensures i < |ws| ==> StartsWithDigit(ws[i])
    decreases |ws| - from
  {
    if from == |ws| || StartsWithDigit(ws[from]) then from else FirstNumericFrom(ws, from + 1)
  }

  /** The first numeric word is determined by the two facts that define it. */
  lemma FirstNumericUnique(ws: seq<string>, from: nat, i: nat)
    requires from <= i <= |ws|
    requires forall k :: from <= k < i ==> !StartsWithDigit(ws[k])
    requires i == |ws| || StartsWithDigit(ws[i])
    ensures FirstNumericFrom(ws, from) == i
  {
  }

  // ---- Step 1: city, state and ZIP ----

  /** The text the later steps work on: everything before the city/state/ZIP match,
      stripped, or the whole text when there is no match. */
  function LeftOfCsz(text: string): (t: string)
    ensures CszSearch(text).Some? ==> |t| <= CszSearch(text).value.start
  {
    match CszSearch(text)
    case None => text
    case Some(m) => Strip(text[..m.start])
  }

  /** Groups 1 to 3 of the match, each stripped, or three empty strings. */
  function CszFields(text: string): (string, string, string)
  {
    match CszSearch(text)
    case None => ("", "", "")
    case Some(m) => (Strip(CszCity(text, m)), Strip(CszState(text, m)), Strip(CszZip(text, m)))
  }

  // ---- Steps 2 and 3: street, and the name before it ----

  /** Name and street found in `t`: by the street pattern, or else, when `t` holds a digit,
      by taking the first word that starts with a digit and up to four words after it as
      the street and the words before it as the name. */
  function StreetAndName(t: string): (string, string)
  {
    match StreetSearch(t)
    case Some(m) =>
      var namePart := Strip(t[..m.start]);
      (if namePart != "" && IsFullName(namePart) then namePart else "", Strip(t[m.start..m.end]))
    case None => DigitFallbackParts(t)
  }

  /** Step 3, the fallback when the street pattern finds nothing. */
  function DigitFallbackParts(t: string): (string, string)
  {
    if HasDigit(t) then NumericSplit(Words(t)) else ("", "")
  }

  /** Step 3 on the words of the text. */
  function NumericSplit(parts: seq<string>): (string, string)
  {
    var i := FirstNumericFrom(parts, 0);
    if i < |parts| then SplitAt(parts, i) else ("", "")
  }

  /** The words before `i` as the name and up to five words from `i` on as the street. */
  function SplitAt(parts: seq<string>, i: nat): (string, string)
    requires i < |parts|
  {
    (if i > 0 then Strip(Join(" ", parts[..i])) else "", Strip(Join(" ", parts[i..Min(i + 5, |parts|)])))
  }

  // ---- Step 4: a street without a name takes the leading capitalised words ----

  function NameFromPrefix(t: string): string
  {
    match NamePrefixEnd(t)
    case Some(e) => Strip(t[..e])
    case None => ""
  }

  /** The result after steps 1 to 4. */
  function BeforeLastResort(text: string): Parts
  {
    var t := LeftOfCsz(text);
    var (city, state, zip) := CszFields(text);
    var (name, street) := StreetAndName(t);
    var name' := if street != "" && name == "" then NameFromPrefix(t) else name;
    Parts(name', street, city, state, zip)
  }

  // ---- Step 5: a bare "words, ST 12345" is split into name and street ----

  /** Step 5 runs when city, state and ZIP were all found and neither a street nor a name. */
  predicate LastResortApplies(text: string) {
    var p := BeforeLastResort(text);
    CszSearch(text).Some? && p.city != "" && p.state != "" && p.zip != "" && p.street == "" && p.name == ""
  }

  /** With three or more words, the words before the first later word that starts with a digit
      are the name and the rest the street; failing that, the first half (at least one word)
      is the name. With fewer words nothing is set. */
  function LastResort(remaining: string): (string, string)
  {
    SplitWords(Words(remaining))
  }

  /** The last resort on the words of the remaining text. */
  function SplitWords(parts: seq<string>): (string, string)
  {
    if |parts| >= 3 then
      var i := FirstNumericFrom(parts, 1);
      var street := if i < |parts| then Strip(Join(" ", parts[i..])) else "";
      if street != "" then (Strip(Join(" ", parts[..i])), street)
      else
        var k := Max(1, |parts| / 2);
        (Strip(Join(" ", parts[..k])), Strip(Join(" ", parts[k..])))
    else ("", "")
  }

  /** Python's `s[:n]`: the first `n` characters, or all of `s` when it is shorter. */
  function PyPrefix(s: string, n: nat): (r: string)
    ensures |r| <= |s| && r == s[..|r|]
    ensures n >= |s| ==> r == s
  {
    if n < |s| then s[..n] else s
  }

  /** Step 5 applied to the result of steps 1 to 4: `t` is the text left of the city, state
      and ZIP and `start` where their match began in the original text. */
  function LastResortStep(p: Parts, t: string, start: nat): Parts
  {
    if p.city != "" && p.state != "" && p.zip != "" && p.street == "" && p.name == "" then
      var (name, street) := LastResort(Strip(PyPrefix(t, start)));
      Parts(name, street, p.city, p.state, p.zip)
    else p
  }

  /** The whole parse. */
  function CombinedParse(text: string): Parts
  {
    match CszSearch(text)
    case Some(m) => LastResortStep(BeforeLastResort(text), LeftOfCsz(text), m.start)
    case None => BeforeLastResort(text)
  }

  /** Steps 2 and 3. */
  method FindStreet(t: string) returns (name: string, street: string)
    ensures (name, street) == StreetAndName(t)
  {
    var sm := StreetSearch(t);
    if sm.Some? {
      var m := sm.value;
      name := "";
      street := Strip(t[m.start..m.end]);
      var namePart := Strip(t[..m.start]);
      if namePart != "" && IsFullName(namePart) {
        name := namePart;
      }
    } else {
      name, street := DigitFallback(t);
    }
  }

  /** Step 3, with its loop over the words. */
  method DigitFallback(t: string) returns (name: string, street: string)
    ensures (name, street) == DigitFallbackParts(t)
  {
    name, street := "", "";
    if HasDigit(t) {
      var parts := Words(t);
      name, street := NumericParts(parts);
    }
  }

  /** Step 3's loop over the words. */
  method NumericParts(parts: seq<string>) returns (name: string, street: string)
    ensures (name, street) == NumericSplit(parts)
  {
    name, street := "", "";
    var i := 0;
    while i < |parts| && !StartsWithDigit(parts[i])
      invariant 0 <= i <= |parts|
      invariant forall k :: 0 <= k < i ==> !StartsWithDigit(parts[k])
    {
      i := i + 1;
    }
    FirstNumericUnique(parts, 0, i);
    if i < |parts| {
      if i > 0 {
        name := Strip(Join(" ", parts[..i]));
      }
      var streetEnd := Min(i + 5, |parts|);
      street := Strip(Join(" ", parts[i..streetEnd]));
    }
  }

  /** Step 5 on the remaining text, with its loop over the words. */
  method SplitRemaining(remaining: string) returns (name: string, street: string)
    ensures (name, street) == LastResort(remaining)
  {
    var parts := Words(remaining);
    name, street := SplitParts(parts);
  }

  /** Step 5's loop over the words. */
  method SplitParts(parts: seq<string>) returns (name: string, street: string)
    ensures (name, street) == SplitWords(parts)
  {
    name, street := "", "";
    if |parts| >= 3 {
      var i := 1;
      while i < |parts| && !StartsWithDigit(parts[i])
        invariant 1 <= i <= |parts|
        invariant forall k :: 1 <= k < i ==> !StartsWithDigit(parts[k])
      {
        i := i + 1;
      }
      FirstNumericUnique(parts, 1, i);
      if i < |parts| {
        name := Strip(Join(" ", parts[..i]));
        street := Strip(Join(" ", parts[i..]));
      }
      if street == "" {
        var k := Max(1, |parts| / 2);
        name := Strip(Join(" ", parts[..k]));
        street := Strip(Join(" ", parts[k..]));
      }
    }
  }

  /** The parser, step by step. */
  method ParseCombinedField(text: string) returns (r: Parts)
    ensures r == CombinedParse(text)
  {
    var city, state, zip := "", "", "";
    var t := text;
    var csz := CszSearch(text);
    if csz.Some? {
      var m := csz.value;
      city := Strip(CszCity(text, m));
      state := Strip(CszState(text, m));
      zip := Strip(CszZip(text, m));
      t := Strip(text[..m.start]);
    }
    assert t == LeftOfCsz(text) && (city, state, zip) == CszFields(text);
    var name, street := FindStreet(t);
    if street != "" && name == "" {
      var e := NamePrefixEnd(t);
      if e.Some? {
        name := Strip(t[..e.value]);
      }
    }
    assert Parts(name, street, city, state, zip) == BeforeLastResort(text);
    if csz.Some? && city != "" && state != "" && zip != "" && street == "" && name == "" {
      var remaining := Strip(PyPrefix(t, csz.value.start));
      name, street := SplitRemaining(remaining);
    }
    r := Parts(name, street, city, state, zip);
  }

  // ---------------------------------------------------------------------------------
  // Properties
  // ---------------------------------------------------------------------------------

  /** Steps 2 to 5 never touch the city, state and ZIP of step 1. */
  lemma CszFieldsKept(text: string)
    ensures var r := CombinedParse(text);
      (r.city, r.state, r.zip) == CszFields(text)
  {
  }

  /** City, state and ZIP come together from one match of the city/state/ZIP pattern: the
      state is two capitals, the ZIP five digits with an optional "-dddd", the city letters
      and whitespace, and the text holds a comma. */
  lemma CszFieldsShape(text: string)
    ensures var (city, state, zip) := CszFields(text);
      && (state == "" <==> CszSearch(text).None?)
      && (zip == "" <==> CszSearch(text).None?)
      && (state != "" ==> IsStateCode(state) && IsZip(zip) && ',' in text)
      && (city != "" ==> state != "")
      && IsStripped(city)
      && (forall k :: 0 <= k < |city| ==> IsAlphaOrSpace(city[k]))
  {
    CszSearchSound(text);
    match CszSearch(text)
    case None =>
    case Some(m) =>
      CszGroups(text, m);
      StripNoop(CszState(text, m));
      StripNoop(CszZip(text, m));
      StripInside(CszCity(text, m));
  }

  /** The parser's city, state and ZIP have that shape; with no comma in the text all three
      are empty. */
  lemma CombinedCsz(text: string)
    ensures var r := CombinedParse(text);
      && (r.state == "" <==> CszSearch(text).None?)
      && (r.zip == "" <==> CszSearch(text).None?)
      && (r.state != "" ==> IsStateCode(r.state) && IsZip(r.zip) && ',' in text)
      && (r.city != "" ==> r.state != "")
      && IsStripped(r.city)
      && (forall k :: 0 <= k < |r.city| ==> IsAlphaOrSpace(r.city[k]))
      && (',' !in text ==> r.city == "" && r.state == "" && r.zip == "")
  {
    CszFieldsKept(text);
    CszFieldsShape(text);
  }

  /** A capitalised name is already stripped. */
  lemma CapNameStripped(s: string)
    requires IsCapName(s)
    ensures IsStripped(s) && Strip(s) == s
  {
    StripNoop(s);
  }

  /** A whole string of capitalised words, with no trailing whitespace, is a capitalised name. */
  lemma FullNameIsCapName(s: string)
    requires IsStripped(s) && IsFullName(s)
    ensures IsCapName(s)
  {
    var ws := CapWords(s, 0, |s|);
    CapWordsSound(s, 0, |s|);
    assert Last(ws).end == |s|;
    CoveredIsCapName(s, ws);
    assert Covered(s, ws) == s;
  }

  /** When the street pattern matches the text left of the city, the street is the match,
      which starts with its house number, and the name is either empty or a run of two or
      more capitalised words (step 2's whole-prefix name or step 4's leading words). */
  lemma StreetMatchName(text: string)
    requires StreetSearch(LeftOfCsz(text)).Some?
    ensures var r := CombinedParse(text);
      && StartsWithDigit(r.street)
      && (r.name == "" || IsCapName(r.name))
  {
    var t := LeftOfCsz(text);
    StreetStep(t);
    PrefixNameCap(t);
    NoLastResort(text);
  }

  /** Step 5 changes nothing once a street has been found. */
  lemma NoLastResort(text: string)
    requires BeforeLastResort(text).street != ""
    ensures CombinedParse(text) == BeforeLastResort(text)
  {
  }

  /** Step 2 on its own: the street starts with a digit and the name is empty or a
      capitalised name. */
  lemma StreetStep(t: string)
    requires StreetSearch(t).Some?
    ensures StartsWithDigit(StreetAndName(t).1)
    ensures StreetAndName(t).0 == "" || IsCapName(StreetAndName(t).0)
  {
    var m := StreetSearch(t).value;
    StreetFound(t);
    var namePart := Strip(t[..m.start]);
    if namePart != "" && IsFullName(namePart) {
      FullNameIsCapName(namePart);
    }
  }

  /** Step 4's name is empty or a capitalised name. */
  lemma PrefixNameCap(t: string)
    ensures NameFromPrefix(t) == "" || IsCapName(NameFromPrefix(t))
  {
    NamePrefixSound(t);
    match NamePrefixEnd(t)
    case None =>
    case Some(e) => CapNameStripped(t[..e]);
  }

  /** A street found by the street pattern starts with its house number. */
  lemma StreetFound(t: string)
    ensures StreetSearch(t).Some? ==> StartsWithDigit(StreetAndName(t).1)
  {
    if StreetSearch(t).Some? {
      var m := StreetSearch(t).value;
      StreetSearchSound(t);
      StripKeepsFirst(t[m.start..m.end]);
    }
  }

  /** Stripping a string that starts with a non-space keeps that first character. */
  lemma StripKeepsFirst(s: string)
    requires s != [] && !IsSpace(s[0])
    ensures Strip(s) != [] && Strip(s)[0] == s[0]
  {
    StripSpec(s);
  }

  /** Joining non-empty words and stripping gives back a string whose words are those. */
  lemma JoinedWords(ws: seq<string>)
    requires AreWords(ws)
    ensures Words(Strip(Join(" ", ws))) == ws
    ensures Strip(Join(" ", ws)) == [] <==> ws == []
  {
    JoinWordsStripped(ws);
    StripNoop(Join(" ", ws));
    WordsOfJoin(ws);
  }

  /** Facts about a slice of the words of a text: each is a non-empty run of non-spaces. */
  lemma SliceWords(ws: seq<string>, i: nat, j: nat)
    requires AreWords(ws)
    requires i <= j <= |ws|
    ensures AreWords(ws[i..j])
  {
    forall k | 0 <= k < |ws[i..j]| ensures ws[i..j][k] != [] && NoSpace(ws[i..j][k]) {
      assert ws[i..j][k] == ws[i + k];
    }
  }

  /** Joining a slice of words and splitting again gives the slice back. */
  lemma JoinedSlice(parts: seq<string>, i: nat, j: nat)
    requires AreWords(parts)
    requires i <= j <= |parts|
    ensures Words(Strip(Join(" ", parts[i..j]))) == parts[i..j]
    ensures Strip(Join(" ", parts[i..j])) == [] <==> i == j
  {
    SliceWords(parts, i, j);
    JoinedWords(parts[i..j]);
  }

  /** The street cut out of a list of words at its first word that starts with a digit. */
  lemma FallbackStreet(parts: seq<string>, i: nat)
    requires AreWords(parts)
    requires i < |parts| && StartsWithDigit(parts[i])
    ensures var street := SplitAt(parts, i).1;
      && street != ""
      && Words(street) == parts[i..Min(i + 5, |parts|)]
      && |Words(street)| <= 5
      && StartsWithDigit(Words(street)[0])
  {
    JoinedSlice(parts, i, Min(i + 5, |parts|));
  }

  /** The name cut out of a list of words before index `i`. */
  lemma FallbackName(parts: seq<string>, i: nat)
    requires AreWords(parts)
    requires i < |parts|
    requires forall k :: 0 <= k < i ==> !StartsWithDigit(parts[k])
    ensures var name := SplitAt(parts, i).0;
      && Words(name) == parts[..i]
      && (forall k :: 0 <= k < |Words(name)| ==> !StartsWithDigit(Words(name)[k]))
  {
    JoinedSlice(parts, 0, i);
    assert parts[0..i] == parts[..i];
  }

  /** The street and the name cut out of a list of words at its first word that starts
      with a digit. */
  lemma FallbackSplit(parts: seq<string>, i: nat)
    requires AreWords(parts)
    requires i < |parts| && StartsWithDigit(parts[i])
    requires forall k :: 0 <= k < i ==> !StartsWithDigit(parts[k])
    ensures var name := SplitAt(parts, i).0;
      var street := SplitAt(parts, i).1;
      && street != ""
      && |Words(street)| <= 5
      && StartsWithDigit(Words(street)[0])
      && |Words(name)| + |Words(street)| <= |parts|
      && Words(name) + Words(street) == parts[..|Words(name)| + |Words(street)|]
      && (forall k :: 0 <= k < |Words(name)| ==> !StartsWithDigit(Words(name)[k]))
  {
    FallbackStreet(parts, i);
    FallbackName(parts, i);
    SliceConcat(parts, i, Min(i + 5, |parts|));
  }

  /** Step 3 on a list of words: the name and the street are consecutive words of the list,
      the street starts with the first word that begins with a digit and holds at most five
      words, and no word of the name begins with a digit. */
  lemma NumericSplitWords(parts: seq<string>)
    requires AreWords(parts)
    ensures var name := NumericSplit(parts).0;
      var street := NumericSplit(parts).1;
      street != "" ==>
        && |Words(street)| <= 5
        && StartsWithDigit(Words(street)[0])
        && |Words(name)| + |Words(street)| <= |parts|
        && Words(name) + Words(street) == parts[..|Words(name)| + |Words(street)|]
        && (forall k :: 0 <= k < |Words(name)| ==> !StartsWithDigit(Words(name)[k]))
  {
    var i := FirstNumericFrom(parts, 0);
    if i < |parts| {
      FallbackSplit(parts, i);
    }
  }

  /** Step 3 finds no street exactly when no word begins with a digit, and then no name
      either. */
  lemma NumericSplitEmpty(parts: seq<string>)
    requires AreWords(parts)
    ensures var (name, street) := NumericSplit(parts);
      && (street == "" <==> forall k :: 0 <= k < |parts| ==> !StartsWithDigit(parts[k]))
      && (street == "" ==> name == "")
  {
    var i := FirstNumericFrom(parts, 0);
    if i < |parts| {
      FallbackStreet(parts, i);
    }
  }

  /** Step 3 on the text: a text without digits gives nothing, and none of its words starts
      with a digit; otherwise `NumericSplitWords` and `NumericSplitEmpty` for its words. */
  lemma DigitFallbackEmpty(t: string)
    ensures var (name, street) := DigitFallbackParts(t);
      && (street == "" <==> forall k :: 0 <= k < |Words(t)| ==> !StartsWithDigit(Words(t)[k]))
      && (street == "" ==> name == "")
  {
    if HasDigit(t) {
      WordsAreWords(t);
      NumericSplitEmpty(Words(t));
    } else {
      WordsNoDigit(t);
      assert DigitFallbackParts(t) == ("", "");
    }
  }

  /** Step 3 on the text: the name and the street it finds are consecutive words of the
      text, as `NumericSplitWords` says of its words. */
  lemma DigitFallbackWords(t: string)
    ensures var name := DigitFallbackParts(t).0;
      var street := DigitFallbackParts(t).1;
      street != "" ==>
        && |Words(street)| <= 5
        && StartsWithDigit(Words(street)[0])
        && |Words(name)| + |Words(street)| <= |Words(t)|
        && Words(name) + Words(street) == Words(t)[..|Words(name)| + |Words(street)|]
        && (forall k :: 0 <= k < |Words(name)| ==> !StartsWithDigit(Words(name)[k]))
  {
    if HasDigit(t) {
      WordsAreWords(t);
      NumericSplitWords(Words(t));
    }
  }

  /** A text without digits has no word that starts with a digit. */
  lemma {:induction false} WordsNoDigit(s: string)
    requires !HasDigit(s)
    ensures forall i :: 0 <= i < |Words(s)| ==> !StartsWithDigit(Words(s)[i])
    decreases |s|
  {
    if s != [] {
      HasDigitSpec(s);
      var n := if IsSpace(s[0]) then 1 else WordLen(s);
      assert !HasDigit(s[n..]) by {
        HasDigitSpec(s[n..]);
        forall k | 0 <= k < |s[n..]| ensures !IsDigit(s[n..][k]) { assert s[n..][k] == s[n + k]; }
      }
      WordsNoDigit(s[n..]);
      if !IsSpace(s[0]) {
        assert Words(s) == [s[..n]] + Words(s[n..]);
        assert Words(s)[0][0] == s[0];
      } else {
        assert Words(s) == Words(s[1..]);
      }
    }
  }

  /** Step 5 works on the whole text left of the city: the slice and the strip change
      nothing. */
  lemma RemainingIsLeft(text: string)
    requires CszSearch(text).Some?
    ensures Strip(PyPrefix(LeftOfCsz(text), CszSearch(text).value.start)) == LeftOfCsz(text)
  {
    StripNoop(LeftOfCsz(text));
  }

  /** When steps 2 and 3 find no street, no word of the text starts with a digit. */
  lemma NoStreetNoNumeric(t: string)
    requires StreetAndName(t).1 == ""
    ensures forall k :: 0 <= k < |Words(t)| ==> !StartsWithDigit(Words(t)[k])
  {
    StreetFound(t);
    DigitFallbackEmpty(t);
  }

  /** The last resort on words none of which starts with a digit: the first half, at least
      one word, becomes the name and the rest the street. */
  lemma LastResortPlain(remaining: string)
    requires |Words(remaining)| >= 3
    requires forall k :: 0 <= k < |Words(remaining)| ==> !StartsWithDigit(Words(remaining)[k])
    ensures var ws := Words(remaining);
      var k := Max(1, |ws| / 2);
      var name := LastResort(remaining).0;
      var street := LastResort(remaining).1;
      && Words(name) == ws[..k]
      && Words(street) == ws[k..]
      && name != "" && street != ""
      && (forall i :: 0 <= i < |Words(street)| ==> !StartsWithDigit(Words(street)[i]))
  {
    var ws := Words(remaining);
    WordsAreWords(remaining);
    HalvesOfWords(ws);
    var k := Max(1, |ws| / 2);
    forall i | 0 <= i < |ws[k..]| ensures !StartsWithDigit(ws[k..][i]) {
      assert ws[k..][i] == ws[k + i];
    }
  }

  /** `LastResortPlain` for a list of words. */
  lemma HalvesOfWords(parts: seq<string>)
    requires AreWords(parts)
    requires |parts| >= 3
    requires forall k :: 0 <= k < |parts| ==> !StartsWithDigit(parts[k])
    ensures var k := Max(1, |parts| / 2);
      var name := SplitWords(parts).0;
      var street := SplitWords(parts).1;
      && Words(name) == parts[..k]
      && Words(street) == parts[k..]
      && name != "" && street != ""
  {
    var k := Max(1, |parts| / 2);
    NoNumericSplitsInHalf(parts);
    JoinedPrefix(parts, k);
    JoinedSuffix(parts, k);
  }

  /** `JoinedSlice` for a prefix. */
  lemma JoinedPrefix(parts: seq<string>, k: nat)
    requires AreWords(parts)
    requires k <= |parts|
    ensures Words(Strip(Join(" ", parts[..k]))) == parts[..k]
    ensures Strip(Join(" ", parts[..k])) == [] <==> k == 0
  {
    JoinedSlice(parts, 0, k);
    assert parts[0..k] == parts[..k];
  }

  /** `JoinedSlice` for a suffix. */
  lemma JoinedSuffix(parts: seq<string>, k: nat)
    requires AreWords(parts)
    requires k <= |parts|
    ensures Words(Strip(Join(" ", parts[k..]))) == parts[k..]
    ensures Strip(Join(" ", parts[k..])) == [] <==> k == |parts|
  {
    JoinedSlice(parts, k, |parts|);
    assert parts[k..|parts|] == parts[k..];
  }

  /** Without a word that starts with a digit, step 5 cuts the words at their middle. */
  lemma NoNumericSplitsInHalf(parts: seq<string>)
    requires |parts| >= 3
    requires forall k :: 0 <= k < |parts| ==> !StartsWithDigit(parts[k])
    ensures var k := Max(1, |parts| / 2);
      SplitWords(parts) == (Strip(Join(" ", parts[..k])), Strip(Join(" ", parts[k..])))
  {
    FirstNumericUnique(parts, 1, |parts|);
  }

  /** Step 5's search for a word that starts with a digit can never succeed: had the text
      such a word, step 3 would already have produced a street and step 5 would not run. So
      step 5 splits the whole text left of the city, none of whose words starts with a digit,
      and `LastResortPlain` says how. */
  lemma LastResortOnLeft(text: string)
    requires LastResortApplies(text)
    ensures var r := CombinedParse(text);
      (r.name, r.street) == LastResort(LeftOfCsz(text))
    ensures var ws := Words(LeftOfCsz(text));
      forall k :: 0 <= k < |ws| ==> !StartsWithDigit(ws[k])
  {
    var t := LeftOfCsz(text);
    RemainingIsLeft(text);
    NoStreetNoNumeric(t);
  }
}
